/** The older post detail screen (src/components/LegacyPostDetail.tsx): the same like and
    comment state, except that the liked flag starts from the post's own `isLiked`. */
module LegacyPostDetail {
  import opened Common
  import opened Text
  import Likes
  import PostDetail

  /** The post the screen shows; `university` and `isLiked` may be absent. */
  datatype LegacyPost = LegacyPost(
    id: string,
    text: string,
    imageUrl: Option<string>,
    likes: int,
    comments: int,
    views: int,
    timeAgo: string,
    color: string,
    university: Option<string>,
    isLiked: Option<bool>)

  /** `post.isLiked || false`. */
  function InitiallyLiked(post: LegacyPost): bool
  {
    post.isLiked.GetOr(false)
  }

  /** The screen's state: `newComment`, `isLiked` and `likeCount`. */
  class LegacyPostDetailState {
    const post: LegacyPost
    var newComment: string
    var isLiked: bool
    var likeCount: int

    /** The counter is off the post's count by the change in the liked flag since opening. */
    ghost predicate Valid()
      reads this
    {
      likeCount - post.likes ==
        (if isLiked then 1 else 0) - (if InitiallyLiked(post) then 1 else 0)
    }

    /** Opening the screen: an empty comment, the post's own flag (false when absent), its count. */
    constructor (p: LegacyPost)
      ensures Valid()
      ensures post == p && newComment == "" && likeCount == p.likes
      ensures isLiked == (p.isLiked == Some(true))
    {
      post := p;
      newComment := "";
      isLiked := p.isLiked.GetOr(false);
      likeCount := p.likes;
    }

    /** `handleLike`: negates the flag and moves the counter one step toward it. */
    method HandleLike()
      requires Valid()
      modifies this
      ensures Valid()
      ensures isLiked == !old(isLiked)
      ensures likeCount == old(likeCount) + (if old(isLiked) then -1 else 1)
      ensures newComment == old(newComment)
    {
      likeCount := Likes.ToggledCount(isLiked, likeCount);
      isLiked := !isLiked;
    }

    /** The text area's `onChange`. */
    method SetComment(text: string)
      requires Valid()
      modifies this
      ensures Valid()
      ensures newComment == text && isLiked == old(isLiked) && likeCount == old(likeCount)
    {
      newComment := text;
    }

    /** `handleComment`: a blank comment is ignored and kept; any other is sent and the box cleared. */
    method HandleComment() returns (sent: bool)
      requires Valid()
      modifies this
      ensures Valid()
      ensures sent <==> !IsBlank(old(newComment))
      ensures newComment == (if sent then "" else old(newComment))
      ensures isLiked == old(isLiked) && likeCount == old(likeCount)
    {
      if PostDetail.CommentDisabled(newComment) {
        return false;
      }
      newComment := "";
      sent := true;
    }
  }
}
