# Campus feed front end — a verified model of its client-side logic

This project models, in Dafny, the deterministic logic of a campus social-feed single-page
application (React, backed by a hosted store). It covers:

- the live feed (`RealHomePage`): merging fetched post rows with fetched reaction rows,
  the like/unlike decision of a click on a heart, the refetch that follows, and the
  "now" / "{h}h" / "{d}d" rendering of a post's age;
- the mock home feed (`HomePage`): flipping one post's like in a list;
- the two post-detail screens (`PostDetail`, `LegacyPostDetail`): the liked flag, the like
  counter and the comment box;
- the page shell (`IndexPage`, from `src/pages/Index.tsx`): navigation state and the
  priority order in which the screen to draw is chosen;
- the campus map search (`UniversityMap`): a case-insensitive substring filter over the
  fixed table of fourteen universities (its lemmas hold for any table);
- the create-post form (`CreatePost`): the 5 MiB image guard, the blank-text guard, the
  form reset and the counter of the text box, which JavaScript measures in UTF-16 code units
  (a character above U+FFFF counts twice);
- the notifications screen (`Notifications`): the unread count and the icon per kind.

Shared helpers: `Common` (an `Option`), `Seqs` (`Filter`, the order-preserving
subsequence relation, and their lemmas), `Text` (JavaScript `trim`, ASCII `toLowerCase`,
`includes`, `length` in UTF-16 code units, decimal rendering of numbers and its inverse) and `Likes` (the counter step).

Component state that the source replaces with `setState` is a class whose fields the
methods reassign; the store's answers (post rows, reaction rows, whether a mutation threw)
are method parameters, and the mutation a click asks for is returned as a `LikeOutcome`.

Behaviour of the code worth knowing, as modelled:

- A failed reaction query is not treated as a failure: its `data` is null, so every post is
  stored with an empty reaction list and the cached list is still replaced. Only a failed
  post query (or a thrown exception) leaves the cached list as it was.
- A store error that the client library returns (rather than throws) from the like/unlike
  mutation, such as a uniqueness violation, is not inspected: the refetch happens and no
  failure toast appears. The failure toast appears only when the mutation throws, and then
  no refetch is issued.
- A creation time in the future gives a negative elapsed time, whose floored hour count is
  below 1, so it renders as "now".
- An empty post query result (`[]`) is data, not an error: the cached list becomes empty.

## Model

| member | source | states |
|---|---|---|
| `RealHomePage.FirstOf` | src/components/RealHomePage.tsx:60-61 | a joined record delivered as an array contributes its first element (none when empty); a single object is taken as it is |
| `RealHomePage.Merge` | src/components/RealHomePage.tsx:51-63 | the stored list has one post per fetched row, in order, each with the row's id and a (possibly empty) reaction list |
| `RealHomePage.MergeKeepsRows` | src/components/RealHomePage.tsx:51-59 | the merged list has one post per fetched row, same length and order, with id, content, image, the three counters, creation time and colour copied unchanged |
| `RealHomePage.MergeReactionsExact` | src/components/RealHomePage.tsx:62 | a post's reactions are exactly the fetched reactions whose post id is that post's id, and they keep the fetched order (a subsequence of the reaction rows); each appears as many times as in the reaction rows, so the list's length is the number of matching rows |
| `RealHomePage.MergeNoLeak` | src/components/RealHomePage.tsx:62 | every reaction attached to a post names that post: none leaks to another post |
| `RealHomePage.MergeWithoutReactions` | src/components/RealHomePage.tsx:62 | when the reaction query returns null or nothing, every post gets an empty reaction list |
| `RealHomePage.FindIndex` | src/components/RealHomePage.tsx:122 | `find` yields the first post with the id, and nothing exactly when no post carries it |
| `RealHomePage.ReactedBy` | src/components/RealHomePage.tsx:123 | a post with a null reaction list has no reaction by anyone; a post with one has a non-empty list |
| `RealHomePage.HasLiked` | src/components/RealHomePage.tsx:122-123 | the user counts as having liked the post only when some cached post with that id has their reaction, and never when no cached post has that id |
| `RealHomePage.DecideLike` | src/components/RealHomePage.tsx:112-141 | the click is refused exactly when there is no session; a delete is by (post id, user id), an insert is (post id, user id, "like") |
| `RealHomePage.DecideLikeDeletesIffLiked` | src/components/RealHomePage.tsx:122-141 | with a session, the click deletes exactly when the first cached post with the id has a reaction by the user, and inserts otherwise |
| `RealHomePage.DecideLikeUncachedInserts` | src/components/RealHomePage.tsx:122-140 | a post missing from the cache is liked (insert), never unliked |
| `RealHomePage.ClickMatchesHeart` | src/components/RealHomePage.tsx:218 | for the first post with an id, a click unlikes exactly when that post's heart is drawn filled |
| `RealHomePage.LikeAfterRefresh` | src/components/RealHomePage.tsx:51-141 | right after a refresh, a click deletes exactly when the fetched reaction rows hold one by this user on this post, and inserts a "like" otherwise |
| `RealHomePage.TimeAgo` | src/components/RealHomePage.tsx:155-163 | the text is "now" or a number followed by "h" or "d"; a creation time not before the current time gives "now" |
| `RealHomePage.TimeAgoBuckets` | src/components/RealHomePage.tsx:155-163 | under one hour, or in the future, gives "now"; 1 to 23 whole hours gives "{h}h" and from 24 hours "{d}d"; the number read back from the text is the floored count of hours or days of the elapsed time |
| `RealHomePage.TimeAgoExamples` | src/components/RealHomePage.tsx:158-162 | 30 minutes gives "now", 3 hours "3h", 50 hours "2d", one second in the future "now" |
| `RealHomePage.FeedState.constructor` | src/components/RealHomePage.tsx:14-15 | the feed starts with an empty list and in the loading state |
| `RealHomePage.FeedState.FetchPosts` | src/components/RealHomePage.tsx:19-72 | the list is replaced wholesale by the merge when the post query returned data and the reaction query did not throw, and is left unchanged otherwise; loading always ends |
| `RealHomePage.FeedState.HandleLike` | src/components/RealHomePage.tsx:109-153 | no session: no mutation, sign-in notice, state unchanged; otherwise the mutation chosen from the cached list, then a failure notice if it threw, else a refetch |
| `Likes.ToggledCountMoves` | src/components/HomePage.tsx:123 | a click moves the counter one step toward the new liked state, and two clicks restore it |
| `HomePage.ToggleLike` | src/components/HomePage.tsx:118-128 | the list keeps its length and its ids in order, and every post with the clicked id has its flag negated |
| `HomePage.ToggleLikeEffect` | src/components/HomePage.tsx:118-128 | the list keeps its length and order; posts with another id are identical; a matching post has its flag negated, its likes one higher if it was unliked and one lower if it was liked, and all other fields unchanged |
| `HomePage.ToggleAbsentId` | src/components/HomePage.tsx:119-127 | a click on an id no post carries leaves the list unchanged |
| `HomePage.ToggleTwiceRestores` | src/components/HomePage.tsx:123-124 | two clicks on the same id restore the original list |
| `HomePage.ToggleCommutes` | src/components/HomePage.tsx:118-128 | clicks on two ids give the same list in either order |
| `HomePage.HomePageState.constructor` | src/components/HomePage.tsx:114 | the list starts as the given initial posts |
| `HomePage.HomePageState.HandleLike` | src/components/HomePage.tsx:116-129 | the list is replaced by the toggled list |
| `PostDetail.CommentDisabled` | src/components/PostDetail.tsx:154 | the Post (and the older screen's Send) button is disabled exactly when every character of the comment is white space |
| `PostDetail.PostDetailState.constructor` | src/components/PostDetail.tsx:56-58 | an empty comment, not liked, the counter at the post's likes; the invariant likeCount == likes + (liked ? 1 : 0) holds |
| `PostDetail.PostDetailState.HandleLike` | src/components/PostDetail.tsx:61-64 | the flag is negated, the counter falls by one if it was liked and rises by one otherwise; the invariant is kept, so it holds across any sequence of clicks |
| `PostDetail.PostDetailState.SetComment` | src/components/PostDetail.tsx:144 | typing replaces the comment and nothing else |
| `PostDetail.PostDetailState.HandleComment` | src/components/PostDetail.tsx:66-75 | a blank comment is not posted and stays as it is; any other is posted and the box is cleared; the like state is untouched |
| `LegacyPostDetail.LegacyPostDetailState.constructor` | src/components/LegacyPostDetail.tsx:57-59 | the flag starts as the post's own, false when absent; the counter at the post's likes; the invariant likeCount - likes == (liked?1:0) - (initially liked?1:0) holds |
| `LegacyPostDetail.LegacyPostDetailState.HandleLike` | src/components/LegacyPostDetail.tsx:61-64 | the flag is negated and the counter moves one step toward it; the invariant is kept |
| `LegacyPostDetail.LegacyPostDetailState.SetComment` | src/components/LegacyPostDetail.tsx:148 | typing replaces the comment and nothing else |
| `LegacyPostDetail.LegacyPostDetailState.HandleComment` | src/components/LegacyPostDetail.tsx:66-71 | a blank comment leaves the box as it is; any other is sent and the box reset to "" |
| `IndexPage.PageScreen` | src/pages/Index.tsx:95-104 | "notifications" and "profile" draw their screens; every other page, unknown ones included, draws the map |
| `IndexPage.SelectScreen` | src/pages/Index.tsx:75-105 | the create screen is drawn exactly when it is shown; a post's detail exactly when no create screen covers a selected post; a university's feed only on page "feed" with a university selected |
| `IndexPage.SelectScreenPriority` | src/pages/Index.tsx:75-105 | the create screen wins over everything, then a selected post, then the feed (only on page "feed" with a university); "feed" without a university draws the map |
| `IndexPage.IndexState.RenderContent` | src/pages/Index.tsx:75-105 | under the state's invariant (a university stays selected only on page "feed"), a selected university's feed is drawn whenever neither the create screen nor a post covers it |
| `IndexPage.IndexState.constructor` | src/pages/Index.tsx:32-35 | page "map", no university, no post, create screen hidden, so the map is drawn |
| `IndexPage.IndexState.HandleNavigate` | src/pages/Index.tsx:37-42 | the page becomes the target and the university, post and create flag are cleared, so the target's own screen is drawn |
| `IndexPage.IndexState.HandleSelectUniversity` | src/pages/Index.tsx:44-47 | the university is selected and the page becomes "feed", so its feed is drawn when nothing covers it |
| `IndexPage.IndexState.HandleBackToMap` | src/pages/Index.tsx:49-52 | the university is cleared and the page becomes "map" |
| `IndexPage.IndexState.HandleCreatePost` | src/pages/Index.tsx:54-56 | the create screen is shown over whatever was drawn, nothing else changes |
| `IndexPage.IndexState.HideCreatePost` | src/pages/Index.tsx:58-61 | submitting or leaving the create screen only hides it (also lines 71-73), so the screen underneath returns |
| `IndexPage.IndexState.HandlePostClick` | src/pages/Index.tsx:63-65 | the post is selected and its detail drawn unless the create screen is up |
| `IndexPage.IndexState.HandleBackFromPost` | src/pages/Index.tsx:67-69 | only the selected post is cleared; page and university stay |
| `UniversityMap.SearchIn` | src/components/UniversityMap.tsx:153-156 | the result is no longer than the table and holds only universities of the table that match the term |
| `UniversityMap.SearchSoundAndComplete` | src/components/UniversityMap.tsx:153-156 | the result is an order-preserving subsequence of the table containing a university exactly when its lower-cased name or state includes the lower-cased term; a matching university appears as many times as in the table |
| `UniversityMap.SearchEmptyTermIn` | src/components/UniversityMap.tsx:153-156 | an empty term keeps every university of the table, in order |
| `UniversityMap.SearchEmptyTerm` | src/components/UniversityMap.tsx:20-156 | on the fixed table an empty term lists all fourteen universities |
| `UniversityMap.SearchIgnoresCase` | src/components/UniversityMap.tsx:154-155 | terms that differ only in letter case give the same result |
| `UniversityMap.SearchNarrows` | src/components/UniversityMap.tsx:154-155 | appending characters to the term never adds a university: the result shrinks to a subsequence |
| `UniversityMap.SearchStateUpperCase` | src/components/UniversityMap.tsx:20-156 | searching "PLATEAU" lists every university, since all are in Plateau |
| `UniversityMap.NoResultsIffNothingMatches` | src/components/UniversityMap.tsx:238 | "No universities found" shows exactly when the term is non-empty and no university of the table matches it |
| `CreatePost.AcceptsImage` | src/components/CreatePost.tsx:21 | a file is accepted exactly when its size is at most 5 MiB (5 * 1024 * 1024 bytes) |
| `CreatePost.AcceptsImageBoundary` | src/components/CreatePost.tsx:21 | a file of exactly 5 MiB is accepted and one of 5 MiB plus one byte is refused |
| `CreatePost.ShareDisabled` | src/components/CreatePost.tsx:79 | the Share button is disabled exactly when every character of the text is white space |
| `CreatePost.CounterWarns` | src/components/CreatePost.tsx:102 | the counter warns on every text of more than 250 characters, never on one of at most 125, and, for text without characters above U+FFFF, exactly past 250 characters |
| `CreatePost.CounterWarningBand` | src/components/CreatePost.tsx:97-102 | within the cap of 280 UTF-16 code units the counter warns exactly for lengths 251 to 280, which is 126 to 280 characters |
| `CreatePost.CreatePostForm.constructor` | src/components/CreatePost.tsx:13-15 | the form starts with empty text, no image and no preview |
| `CreatePost.CreatePostForm.SetText` | src/components/CreatePost.tsx:95-97 | typing replaces the text, which the box keeps within 280 UTF-16 code units |
| `CreatePost.CreatePostForm.HandleImageChange` | src/components/CreatePost.tsx:18-37 | no file changes nothing; a file over 5 MiB is refused with a notice and image and preview stay; a file of at most 5 MiB becomes the image |
| `CreatePost.CreatePostForm.PreviewLoaded` | src/components/CreatePost.tsx:32-34 | the reader's data URL becomes the preview |
| `CreatePost.CreatePostForm.RemoveImage` | src/components/CreatePost.tsx:118-121 | the image and the preview are cleared and the text is kept |
| `CreatePost.CreatePostForm.HandleSubmit` | src/components/CreatePost.tsx:39-58 | blank text submits nothing, shows a notice and changes nothing; otherwise the text and the image (if any) are submitted and text, image and preview are cleared |
| `Notifications.IconFor` | src/components/Notifications.tsx:64-75 | like draws the heart, comment the speech bubble, follow the user-plus, and every other kind, "mention" included, the bell |
| `Notifications.UnreadCount` | src/components/Notifications.tsx:78 | the count equals the number of notifications not yet read, never exceeds the list length, and is zero exactly when all are read |
| `Notifications.MockUnreadCount` | src/components/Notifications.tsx:13-78 | two of the six fixed notifications are unread |
| `Notifications.UnreadSubtitle` | src/components/Notifications.tsx:88-92 | the subtitle shows exactly when the count is positive, writes the count in decimal, and ends in the plural "s" exactly when the count is above one |
| `Notifications.HeaderConsistency` | src/components/Notifications.tsx:88-144 | "Mark all read" shows exactly when the subtitle does, exactly when some notification is unread; the empty state never shows with them |
| `Text.Trim` | src/components/CreatePost.tsx:40 | `trim` returns a contiguous slice of the string, with only white space cut from either end, that neither starts nor ends with white space, and is empty exactly when the string is blank |
| `Text.Utf16Length` | src/components/CreatePost.tsx:97-102 | `length` is at least the number of characters and at most twice it, and equals it exactly when no character is above U+FFFF |
| `Text.ParseNatToString` | src/components/RealHomePage.tsx:161-162 | the decimal rendering of a count reads back as the same count |
| `Text.ContainsPrefix` | src/components/UniversityMap.tsx:154-155 | a string that includes a term followed by more characters includes the term |

## Left out

- The hosted store: the post and reaction queries, the reaction insert and delete, and the
  realtime channel with its subscribe-while-signed-in lifecycle. Their answers are
  parameters; the mutation is returned as a value.
- Ordering and races between overlapping refetches and change notifications: the code has
  no sequence guard, and the model has no concurrency.
- `RealHomePage.FeedState.HandleLike`: the refetch the source starts without awaiting is
  modelled as finishing before the method returns.
- Parsing of the creation timestamp and the clock read in `getTimeAgo`: the model takes both
  as integer milliseconds; an unparsable date (which yields "NaNd") is not modelled.
- JavaScript numbers are modelled as unbounded integers (no floating point, no precision
  loss above 2^53).
- `toLowerCase` beyond ASCII: `Text.LowerChar` only folds A-Z.
- The file reader and the hidden file input's `click()`: the preview arrives through
  `PreviewLoaded`, which, as in the source, may be delivered at any time, even after the
  image was removed or the post submitted.
- Rendering: markup, styles, hover state, the map coordinates of universities, the loading
  skeleton and the display fallbacks ("Unknown University", "Anonymous"); toasts become
  `Notice` values and icons the `Icon` enumeration.
- The home feed's eight mock posts: the list is a constructor parameter, and every lemma
  holds for any list.
- "Mark all read" has no handler in the source, so only when it is drawn is modelled.
- The sign-in and sign-up screen, the profile screen and the per-university feed screen:
  form wiring and static data without logic.
