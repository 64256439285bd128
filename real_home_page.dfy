/** The live campus feed (src/components/RealHomePage.tsx): it merges the fetched post
    rows with the fetched reaction rows, decides what a click on the heart asks the store
    to do, and renders creation times as "now", "{h}h" or "{d}d".
    The store is not modelled: its answers are parameters and the mutation a click asks
    for is returned as a value. */
module RealHomePage {
  import opened Common
  import opened Seqs
  import opened Text

  type PostId = string
  type UserId = string

  datatype UniversityRef = UniversityRef(name: string, shortName: string)
  datatype ProfileRef = ProfileRef(username: string, displayName: string)

  /** A reaction row as the feed selects it: (`post_id`, `user_id`). */
  datatype Reaction = Reaction(postId: PostId, userId: UserId)

  /** A post as the feed caches it (src/types/Post.ts). */
  datatype Post = Post(
    id: PostId,
    content: string,
    imageUrl: Option<string>,
    likesCount: int,
    commentsCount: int,
    viewsCount: int,
    createdAt: string,
    color: string,
    universities: Option<UniversityRef>,
    profiles: Option<ProfileRef>,
    userReactions: Option<seq<Reaction>>)

  /** A joined record as the store may deliver it: one object, or an array of them. */
  datatype Embedded<T> = One(item: T) | Many(items: seq<T>)

  /** A row of the post query, before its reactions are attached. */
  datatype PostRow = PostRow(
    id: PostId,
    content: string,
    imageUrl: Option<string>,
    likesCount: int,
    commentsCount: int,
    viewsCount: int,
    createdAt: string,
    color: string,
    universities: Embedded<UniversityRef>,
    profiles: Embedded<ProfileRef>)

  /** What the post query produced: an error (returned or thrown), or its `data`, which may be null. */
  datatype PostQuery = PostsFailed | PostsReturned(data: Option<seq<PostRow>>)

  /** What the reaction query produced: it threw, or it returned `data`, which is null when the query failed. */
  datatype ReactionQuery = ReactionsThrew | ReactionsReturned(data: Option<seq<Reaction>>)

  /** The store mutation a click on the heart asks for. */
  datatype LikeOutcome =
    | Refused
    | DeleteReaction(postId: PostId, userId: UserId)
    | InsertReaction(postId: PostId, userId: UserId, reactionType: string)

  /** The toast a click on the heart shows. */
  datatype Notice = NoNotice | SignInRequired | LikeFailed

  /** `Array.isArray(x) ? x[0] : x`: an array contributes its first element, if any. */
  function FirstOf<T>(e: Embedded<T>): (r: Option<T>)
    ensures e.One? ==> r == Some(e.item)
    ensures e.Many? ==> (r.None? <==> e.items == [])
    ensures e.Many? && r.Some? ==> r.value == e.items[0]
  {
    match e
    case One(x) => Some(x)
    case Many(xs) => if xs == [] then None else Some(xs[0])
  }

  /** `reactions?.filter(r => r.post_id === id) || []`. */
  function ReactionsOf(reactions: Option<seq<Reaction>>, id: PostId): seq<Reaction>
  {
    match reactions
    case None => []
    case Some(rs) => Filter(rs, (r: Reaction) => r.postId == id)
  }

  /** One element of `data.map(post => ({ ... }))`: the row's fields plus its reactions. */
  function Enrich(row: PostRow, reactions: Option<seq<Reaction>>): Post
  {
    Post(row.id, row.content, row.imageUrl, row.likesCount, row.commentsCount, row.viewsCount,
         row.createdAt, row.color, FirstOf(row.universities), FirstOf(row.profiles),
         Some(ReactionsOf(reactions, row.id)))
  }

  /** The list `fetchPosts` stores: every fetched row, in order, with its own reactions. */
  function Merge(rows: seq<PostRow>, reactions: Option<seq<Reaction>>): (posts: seq<Post>)
    ensures |posts| == |rows|
    ensures forall i | 0 <= i < |rows| :: posts[i].id == rows[i].id && posts[i].userReactions.Some?
  {
    seq(|rows|, i requires 0 <= i < |rows| => Enrich(rows[i], reactions))
  }

  /** The merged list has one post per fetched row, in the same order, carrying the
      row's id and scalar fields unchanged. */
  lemma MergeKeepsRows(rows: seq<PostRow>, reactions: Option<seq<Reaction>>)
    ensures |Merge(rows, reactions)| == |rows|
    ensures forall i | 0 <= i < |rows| ::
      var p, row := Merge(rows, reactions)[i], rows[i];
      p.id == row.id && p.content == row.content && p.imageUrl == row.imageUrl &&
      p.likesCount == row.likesCount && p.commentsCount == row.commentsCount &&
      p.viewsCount == row.viewsCount && p.createdAt == row.createdAt && p.color == row.color
  {
  }

  /** A post's reactions are exactly the fetched reactions on that post, in fetched order. */
  lemma MergeReactionsExact(rows: seq<PostRow>, rs: seq<Reaction>, i: nat)
    requires i < |rows|
    ensures Merge(rows, Some(rs))[i].userReactions.Some?
    ensures forall r ::
      r in Merge(rows, Some(rs))[i].userReactions.value <==> r in rs && r.postId == rows[i].id
    ensures IsSubsequence(Merge(rows, Some(rs))[i].userReactions.value, rs)
    ensures |Merge(rows, Some(rs))[i].userReactions.value| == CountIf(rs, (r: Reaction) => r.postId == rows[i].id)
    ensures forall r ::
      multiset(Merge(rows, Some(rs))[i].userReactions.value)[r] ==
      (if r.postId == rows[i].id then multiset(rs)[r] else 0)
  {
    var keep := (r: Reaction) => r.postId == rows[i].id;
    assert Merge(rows, Some(rs))[i].userReactions.value == Filter(rs, keep);
    FilterLength(rs, keep);
    forall r
      ensures multiset(Filter(rs, keep))[r] == if r.postId == rows[i].id then multiset(rs)[r] else 0
    {
      FilterMultiplicity(rs, keep, r);
    }
    forall r
      ensures r in Filter(rs, keep) <==> r in rs && r.postId == rows[i].id
    {
      FilterMembership(rs, keep, r);
    }
    FilterIsSubsequence(rs, keep);
  }

  /** No reaction leaks to another post: every attached reaction names its post. */
  lemma MergeNoLeak(rows: seq<PostRow>, reactions: Option<seq<Reaction>>)
    ensures forall i, r | 0 <= i < |rows| && r in Merge(rows, reactions)[i].userReactions.value ::
      r.postId == Merge(rows, reactions)[i].id
  {
  }

  /** When the reaction query yields nothing, every post gets an empty reaction list. */
  lemma MergeWithoutReactions(rows: seq<PostRow>, reactions: Option<seq<Reaction>>)
    requires reactions == None || reactions == Some([])
    ensures forall i | 0 <= i < |rows| :: Merge(rows, reactions)[i].userReactions == Some([])
  {
  }

  /** `posts.find(p => p.id === id)` as an index: the first post with that id, if any. */
  function FindIndex(posts: seq<Post>, id: PostId): (r: Option<nat>)
    ensures r.None? <==> forall j | 0 <= j < |posts| :: posts[j].id != id
    ensures r.Some? ==> r.value < |posts| && posts[r.value].id == id &&
                        forall j | 0 <= j < r.value :: posts[j].id != id
  {
    if posts == [] then None
    else if posts[0].id == id then Some(0)
    else match FindIndex(posts[1..], id)
      case None => None
      case Some(k) => Some(k + 1)
  }

  /** `post?.user_reactions?.some(r => r.user_id === user)`, for a post that was found. */
  predicate ReactedBy(post: Post, user: UserId): (reacted: bool)
    ensures reacted ==> post.userReactions.Some? && post.userReactions.value != []
    ensures post.userReactions.None? ==> !reacted
  {
    post.userReactions.Some? && exists r | r in post.userReactions.value :: r.userId == user
  }

  /** Whether the cached list records a reaction of `user` on the post with `postId`;
      a post missing from the list counts as not liked. */
  predicate HasLiked(posts: seq<Post>, postId: PostId, user: UserId): (liked: bool)
    ensures liked ==> exists i | 0 <= i < |posts| :: posts[i].id == postId && ReactedBy(posts[i], user)
    ensures (forall i | 0 <= i < |posts| :: posts[i].id != postId) ==> !liked
  {
    match FindIndex(posts, postId)
    case None => false
    case Some(i) => ReactedBy(posts[i], user)
  }

  /** The decision of `handleLike`: refuse without a session, otherwise delete the
      user's reaction if the cached post has one and insert a "like" if not. */
  function DecideLike(posts: seq<Post>, session: Option<UserId>, postId: PostId): (o: LikeOutcome)
    ensures o.Refused? <==> session.None?
    ensures o.DeleteReaction? ==> o == DeleteReaction(postId, session.value)
    ensures o.InsertReaction? ==> o == InsertReaction(postId, session.value, "like")
  {
    match session
    case None => Refused
    case Some(user) =>
      if HasLiked(posts, postId, user) then DeleteReaction(postId, user)
      else InsertReaction(postId, user, "like")
  }

  /** With a session, the click deletes exactly when the first cached post with that id
      carries a reaction by the user, and inserts otherwise. */
  lemma DecideLikeDeletesIffLiked(posts: seq<Post>, user: UserId, postId: PostId)
    ensures DecideLike(posts, Some(user), postId).DeleteReaction? <==>
      exists i | 0 <= i < |posts| ::
        posts[i].id == postId && (forall j | 0 <= j < i :: posts[j].id != postId) &&
        ReactedBy(posts[i], user)
    ensures DecideLike(posts, Some(user), postId).InsertReaction? <==>
      !DecideLike(posts, Some(user), postId).DeleteReaction?
  {
    var found := FindIndex(posts, postId);
    if found.Some? {
      var k := found.value;
      forall i | 0 <= i < |posts| && posts[i].id == postId && (forall j | 0 <= j < i :: posts[j].id != postId)
        ensures i == k
      {
        FirstOccurrenceUnique(posts, postId, i, k);
      }
    }
  }

  /** Two indices that are each the first occurrence of an id are the same index. */
  lemma FirstOccurrenceUnique(posts: seq<Post>, id: PostId, i: nat, k: nat)
    requires i < |posts| && posts[i].id == id && forall j | 0 <= j < i :: posts[j].id != id
    requires k < |posts| && posts[k].id == id && forall j | 0 <= j < k :: posts[j].id != id
    ensures i == k
  {
  }

  /** A post that is not in the cache is liked, never unliked. */
  lemma DecideLikeUncachedInserts(posts: seq<Post>, user: UserId, postId: PostId)
    requires forall i | 0 <= i < |posts| :: posts[i].id != postId
    ensures DecideLike(posts, Some(user), postId) == InsertReaction(postId, user, "like")
  {
  }

  /** The heart drawn filled in the list: a session exists and the post has its reaction. */
  predicate ShowsLiked(post: Post, session: Option<UserId>)
  {
    session.Some? && ReactedBy(post, session.value)
  }

  /** For the first post carrying an id, a click unlikes exactly when its heart is drawn filled. */
  lemma ClickMatchesHeart(posts: seq<Post>, session: Option<UserId>, i: nat)
    requires i < |posts| && session.Some?
    requires forall j | 0 <= j < i :: posts[j].id != posts[i].id
    ensures DecideLike(posts, session, posts[i].id).DeleteReaction? <==> ShowsLiked(posts[i], session)
  {
    DecideLikeDeletesIffLiked(posts, session.value, posts[i].id);
  }

  /** Right after a refresh, the click on a post deletes exactly when the fetched
      reaction rows hold one by this user on this post, and inserts a "like" otherwise. */
  lemma LikeAfterRefresh(rows: seq<PostRow>, rs: seq<Reaction>, user: UserId, k: nat)
    requires k < |rows|
    requires forall j | 0 <= j < k :: rows[j].id != rows[k].id
    ensures DecideLike(Merge(rows, Some(rs)), Some(user), rows[k].id) ==
      if exists r | r in rs :: r.postId == rows[k].id && r.userId == user
      then DeleteReaction(rows[k].id, user)
      else InsertReaction(rows[k].id, user, "like")
  {
    var posts := Merge(rows, Some(rs));
    MergeKeepsRows(rows, Some(rs));
    MergeReactionsExact(rows, rs, k);
    ClickMatchesHeart(posts, Some(user), k);
  }

  /** Whether `fetchPosts` replaces the cached list: the post query succeeded with
      data and the reaction query did not throw. */
  predicate Refreshes(postQuery: PostQuery, reactionQuery: ReactionQuery)
  {
    postQuery.PostsReturned? && postQuery.data.Some? && reactionQuery.ReactionsReturned?
  }

  /** Milliseconds in an hour: `1000 * 60 * 60`. */
  const MsPerHour: int := 1000 * 60 * 60

  /** `getTimeAgo` with the creation time and the clock as integer milliseconds:
      whole hours elapsed, floored. */
  function TimeAgo(createdMs: int, nowMs: int): (r: string)
    ensures r == "now" || (|r| >= 2 && (r[|r| - 1] == 'h' || r[|r| - 1] == 'd'))
    ensures nowMs <= createdMs ==> r == "now"
  {
    assert MsPerHour == 3600000;
    var hours := (nowMs - createdMs) / MsPerHour;
    if hours < 1 then "now"
    else if hours < 24 then NatToString(hours) + "h"
    else NatToString(hours / 24) + "d"
  }

  /** The buckets of `getTimeAgo`: under an hour (or in the future) is "now"; from 1 to 23
      whole hours is "{h}h"; after that "{d}d" with d whole days. The number is read back
      from the text and bounded by the elapsed time, so it is the floored count. */
  lemma TimeAgoBuckets(createdMs: int, nowMs: int)
    ensures TimeAgo(createdMs, nowMs) == "now" <==> nowMs - createdMs < MsPerHour
    ensures MsPerHour <= nowMs - createdMs < 24 * MsPerHour ==>
      var r := TimeAgo(createdMs, nowMs);
      |r| >= 2 && r[|r| - 1] == 'h' && (forall i | 0 <= i < |r| - 1 :: IsDigit(r[i])) &&
      var h := ParseNat(r[..|r| - 1]);
      1 <= h < 24 && h * MsPerHour <= nowMs - createdMs < (h + 1) * MsPerHour
    ensures 24 * MsPerHour <= nowMs - createdMs ==>
      var r := TimeAgo(createdMs, nowMs);
      |r| >= 2 && r[|r| - 1] == 'd' && (forall i | 0 <= i < |r| - 1 :: IsDigit(r[i])) &&
      var d := ParseNat(r[..|r| - 1]);
      1 <= d && d * 24 * MsPerHour <= nowMs - createdMs < (d + 1) * 24 * MsPerHour
  {
    var elapsed := nowMs - createdMs;
    var hours := elapsed / MsPerHour;
    var r := TimeAgo(createdMs, nowMs);
    HourBounds(elapsed, hours);
    if hours < 1 {
      assert r == "now";
    } else if hours < 24 {
      assert r == NatToString(hours) + "h";
      CountThenUnit(hours, 'h');
      assert r[|r| - 1] != "now"[2];
    } else {
      var d := hours / 24;
      DayBounds(elapsed, d);
      assert r == NatToString(d) + "d";
      CountThenUnit(d, 'd');
      assert r[|r| - 1] != "now"[2];
    }
  }

  /** Floored division by an hour brackets the elapsed time. */
  lemma HourBounds(elapsed: int, h: int)
    requires h == elapsed / MsPerHour
    ensures h * MsPerHour <= elapsed < (h + 1) * MsPerHour
    ensures h < 1 <==> elapsed < MsPerHour
    ensures h < 24 <==> elapsed < 24 * MsPerHour
  {
    assert MsPerHour == 3600000;
  }

  /** Flooring the floored hours by 24 brackets the elapsed time in whole days. */
  lemma DayBounds(elapsed: int, d: int)
    requires d == (elapsed / MsPerHour) / 24
    ensures d * 24 * MsPerHour <= elapsed < (d + 1) * 24 * MsPerHour
  {
    assert MsPerHour == 3600000;
  }

  /** A count followed by a unit letter: the letter is last and the digits before it read back as the count. */
  lemma CountThenUnit(n: nat, unit: char)
    ensures var r := NatToString(n) + [unit];
      |r| >= 2 && r[|r| - 1] == unit && r[..|r| - 1] == NatToString(n) &&
      (forall i | 0 <= i < |r| - 1 :: IsDigit(r[i])) && ParseNat(r[..|r| - 1]) == n
  {
    var r := NatToString(n) + [unit];
    assert r[..|r| - 1] == NatToString(n);
    ParseNatToString(n);
  }

  /** The worked examples: 30 minutes is "now", 3 hours "3h", 50 hours "2d", and a
      creation time one second in the future "now". */
  lemma TimeAgoExamples(t: int)
    ensures TimeAgo(t, t + 30 * 60 * 1000) == "now"
    ensures TimeAgo(t, t + 3 * MsPerHour) == "3h"
    ensures TimeAgo(t, t + 50 * MsPerHour) == "2d"
    ensures TimeAgo(t + 1000, t) == "now"
  {
  }

  /** The state of the feed component: the cached list and the loading flag. */
  class FeedState {
    var posts: seq<Post>
    var loading: bool

    /** Mounting: an empty list, still loading. */
    constructor ()
      ensures posts == [] && loading
    {
      posts := [];
      loading := true;
    }

    /** `fetchPosts`: replaces the list wholesale with the merged rows when the post query
        returned data (an empty array included), leaves it as it was otherwise, and always
        ends the loading state. */
    method FetchPosts(postQuery: PostQuery, reactionQuery: ReactionQuery)
      modifies this
      ensures !loading
      ensures Refreshes(postQuery, reactionQuery) ==>
        posts == Merge(postQuery.data.value, reactionQuery.data)
      ensures !Refreshes(postQuery, reactionQuery) ==> posts == old(posts)
    {
      if postQuery.PostsReturned? && postQuery.data.Some? {
        if reactionQuery.ReactionsReturned? {
          posts := Merge(postQuery.data.value, reactionQuery.data);
        }
      }
      loading := false;
    }

    /** `handleLike`: without a session it asks for no mutation and shows the sign-in notice.
        Otherwise it issues the mutation `DecideLike` chooses against the cached list; when the
        mutation throws it shows the failure notice, and when it completes it refetches. */
    method HandleLike(session: Option<UserId>, postId: PostId, mutationThrew: bool,
                      postQuery: PostQuery, reactionQuery: ReactionQuery)
      returns (outcome: LikeOutcome, notice: Notice)
      modifies this
      ensures outcome == DecideLike(old(posts), session, postId)
      ensures session.None? ==> notice == SignInRequired && posts == old(posts) && loading == old(loading)
      ensures session.Some? && mutationThrew ==>
        notice == LikeFailed && posts == old(posts) && loading == old(loading)
      ensures session.Some? && !mutationThrew ==> notice == NoNotice && !loading
      ensures session.Some? && !mutationThrew && Refreshes(postQuery, reactionQuery) ==>
        posts == Merge(postQuery.data.value, reactionQuery.data)
      ensures session.Some? && !mutationThrew && !Refreshes(postQuery, reactionQuery) ==>
        posts == old(posts)
    {
      if session.None? {
        return Refused, SignInRequired;
      }
      outcome := DecideLike(posts, session, postId);
      if mutationThrew {
        return outcome, LikeFailed;
      }
      FetchPosts(postQuery, reactionQuery);
      notice := NoNotice;
    }
  }
}
