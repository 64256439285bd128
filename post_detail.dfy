/** The post detail screen (src/components/PostDetail.tsx): a like button that starts
    unliked and a comment box whose Post button is guarded by `trim`. */
module PostDetail {
  import opened Common
  import opened Text
  import Likes

  /** The post the screen shows. */
  datatype DetailPost = DetailPost(
    id: string,
    text: string,
    imageUrl: Option<string>,
    likes: int,
    comments: int,
    views: int,
    timeAgo: string,
    color: string)

  /** The Post button is disabled exactly when the comment is blank (`!newComment.trim()`). */
  predicate CommentDisabled(comment: string): (disabled: bool)
    ensures disabled <==> IsBlank(comment)
  {
    Trim(comment) == ""
  }

  /** The screen's state: `newComment`, `isLiked` and `likeCount`. */
  class PostDetailState {
    const post: DetailPost
    var newComment: string
    var isLiked: bool
    var likeCount: int

    /** The counter shows the post's likes plus one while the user has liked it. */
    ghost predicate Valid()
      reads this
    {
      likeCount == post.likes + (if isLiked then 1 else 0)
    }

    /** Opening the screen: an empty comment, not liked, the post's own count. */
    constructor (p: DetailPost)
      ensures Valid()
      ensures post == p && newComment == "" && !isLiked && likeCount == p.likes
    {
      post := p;
      newComment := "";
      isLiked := false;
      likeCount := p.likes;
    }

    /** `handleLike`: negates the flag and moves the counter one step toward it. */
    method HandleLike()
      requires Valid()
      modifies this
      ensures Valid()
      ensures isLiked == !old(isLiked)
      ensures likeCount == old(likeCount) + (if old(isLiked) then -1 else 1)
      ensures newComment == old(newComment)
    {
      likeCount := Likes.ToggledCount(isLiked, likeCount);
      isLiked := !isLiked;
    }

    /** The text area's `onChange`. */
    method SetComment(text: string)
      requires Valid()
      modifies this
      ensures Valid()
      ensures newComment == text && isLiked == old(isLiked) && likeCount == old(likeCount)
    {
      newComment := text;
    }

    /** `handleComment`: a blank comment is ignored and kept; any other is posted and the box cleared. */
    method HandleComment() returns (posted: bool)
      requires Valid()
      modifies this
      ensures Valid()
      ensures posted <==> !IsBlank(old(newComment))
      ensures newComment == (if posted then "" else old(newComment))
      ensures isLiked == old(isLiked) && likeCount == old(likeCount)
    {
      if CommentDisabled(newComment) {
        return false;
      }
      newComment := "";
      posted := true;
    }
  }
}
