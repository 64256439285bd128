/** The mock home feed (src/components/HomePage.tsx): a list of posts held in component
    state, where a click on a heart flips that post's liked flag and moves its counter. */
module HomePage {
  import opened Common
  import Likes

  /** A post of the mock home feed. */
  datatype HomePost = HomePost(
    id: string,
    text: string,
    imageUrl: Option<string>,
    likes: int,
    comments: int,
    views: int,
    timeAgo: string,
    color: string,
    university: string,
    isLiked: bool)

  /** One element of the `map` in `handleLike`: the post with the clicked id gets its
      counter moved and its flag negated; any other post is returned as it is. */
  function ToggleOne(post: HomePost, postId: string): HomePost
  {
    if post.id == postId
    then post.(likes := Likes.ToggledCount(post.isLiked, post.likes), isLiked := !post.isLiked)
    else post
  }

  /** The list `handleLike` installs: `prevPosts.map(...)`. */
  function ToggleLike(posts: seq<HomePost>, postId: string): (r: seq<HomePost>)
    ensures |r| == |posts|
    ensures forall i | 0 <= i < |posts| :: r[i].id == posts[i].id
    ensures forall i | 0 <= i < |posts| && posts[i].id == postId :: r[i].isLiked == !posts[i].isLiked
  {
    seq(|posts|, i requires 0 <= i < |posts| => ToggleOne(posts[i], postId))
  }

  /** The list keeps its length and order; posts with another id are identical; a post
      with the clicked id has its flag negated, its counter one higher if it was not liked
      and one lower if it was, and every other field unchanged. */
  lemma ToggleLikeEffect(posts: seq<HomePost>, postId: string)
    ensures |ToggleLike(posts, postId)| == |posts|
    ensures forall i | 0 <= i < |posts| && posts[i].id != postId :: ToggleLike(posts, postId)[i] == posts[i]
    ensures forall i | 0 <= i < |posts| && posts[i].id == postId ::
      var p, q := posts[i], ToggleLike(posts, postId)[i];
      q.isLiked == !p.isLiked &&
      q.likes == (if p.isLiked then p.likes - 1 else p.likes + 1) &&
      q == p.(likes := q.likes, isLiked := q.isLiked)
  {
  }

  /** A click on an id that no post carries leaves the list unchanged. */
  lemma ToggleAbsentId(posts: seq<HomePost>, postId: string)
    requires forall i | 0 <= i < |posts| :: posts[i].id != postId
    ensures ToggleLike(posts, postId) == posts
  {
  }

  /** Two clicks on the same post restore the original list. */
  lemma ToggleTwiceRestores(posts: seq<HomePost>, postId: string)
    ensures ToggleLike(ToggleLike(posts, postId), postId) == posts
  {
    var once := ToggleLike(posts, postId);
    forall i | 0 <= i < |posts|
      ensures ToggleLike(once, postId)[i] == posts[i]
    {
      Likes.ToggledCountMoves(posts[i].isLiked, posts[i].likes);
    }
  }

  /** Clicks on different posts commute. */
  lemma ToggleCommutes(posts: seq<HomePost>, a: string, b: string)
    ensures ToggleLike(ToggleLike(posts, a), b) == ToggleLike(ToggleLike(posts, b), a)
  {
    forall i | 0 <= i < |posts|
      ensures ToggleLike(ToggleLike(posts, a), b)[i] == ToggleLike(ToggleLike(posts, b), a)[i]
    {
      Likes.ToggledCountMoves(posts[i].isLiked, posts[i].likes);
    }
  }

  /** The component's `posts` state. */
  class HomePageState {
    var posts: seq<HomePost>

    /** The list starts as the component's mock posts, given here as `initial`. */
    constructor (initial: seq<HomePost>)
      ensures posts == initial
    {
      posts := initial;
    }

    /** `handleLike(postId)`: replaces the list with the toggled one. */
    method HandleLike(postId: string)
      modifies this
      ensures posts == ToggleLike(old(posts), postId)
    {
      posts := ToggleLike(posts, postId);
    }
  }
}
