/** The like-button arithmetic shared by the home feed and both post-detail screens. */
module Likes {

  /** The counter after one click: one less when the post was liked, one more otherwise. */
  function ToggledCount(wasLiked: bool, count: int): int
  {
    if wasLiked then count - 1 else count + 1
  }

  /** The counter moves by one in the direction of the new liked state, so two
      clicks in a row bring it back to where it was. */
  lemma ToggledCountMoves(wasLiked: bool, count: int)
    ensures ToggledCount(wasLiked, count) == count + (if wasLiked then -1 else 1)
    ensures ToggledCount(!wasLiked, ToggledCount(wasLiked, count)) == count
  {
  }
}
