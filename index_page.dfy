/** The page shell (src/pages/Index.tsx): four pieces of state, the handlers that move
    between screens, and `renderContent`, which picks the screen to draw. */
module IndexPage {
  import opened Common
  import UniversityMap
  import PostDetail

  /** What `renderContent` draws. */
  datatype Screen =
    | CreatePostScreen
    | PostDetailScreen(post: PostDetail.DetailPost)
    | UniversityFeedScreen(universityName: string)
    | MapScreen
    | NotificationsScreen
    | ProfileScreen

  /** The `switch (currentPage)` at the end of `renderContent`; any other page draws the map. */
  function PageScreen(page: string): (s: Screen)
    ensures s == MapScreen || s == NotificationsScreen || s == ProfileScreen
    ensures s == NotificationsScreen <==> page == "notifications"
    ensures s == ProfileScreen <==> page == "profile"
  {
    if page == "map" then MapScreen
    else if page == "notifications" then NotificationsScreen
    else if page == "profile" then ProfileScreen
    else MapScreen
  }

  /** `renderContent` over the four state values, checked in priority order: the create
      screen, then the selected post, then the feed of the selected university, then the page. */
  function SelectScreen(page: string, university: Option<UniversityMap.University>,
                        post: Option<PostDetail.DetailPost>, creating: bool): (s: Screen)
    ensures s == CreatePostScreen <==> creating
    ensures s.PostDetailScreen? <==> !creating && post.Some?
    ensures s.UniversityFeedScreen? ==> page == "feed" && university.Some?
  {
    if creating then CreatePostScreen
    else if post.Some? then PostDetailScreen(post.value)
    else if page == "feed" && university.Some? then UniversityFeedScreen(university.value.name)
    else PageScreen(page)
  }

  /** The create screen hides everything; a selected post hides the feed and the page;
      "feed" without a university, and any page other than notifications or profile, draw the map. */
  lemma SelectScreenPriority(page: string, university: Option<UniversityMap.University>,
                             post: Option<PostDetail.DetailPost>, creating: bool)
    ensures creating ==> SelectScreen(page, university, post, creating) == CreatePostScreen
    ensures !creating && post.Some? ==>
      SelectScreen(page, university, post, creating) == PostDetailScreen(post.value)
    ensures SelectScreen(page, university, post, creating).UniversityFeedScreen? <==>
      !creating && post.None? && page == "feed" && university.Some?
    ensures SelectScreen(page, university, post, creating) == MapScreen <==>
      !creating && post.None? && page != "notifications" && page != "profile" &&
      (page == "feed" ==> university.None?)
  {
  }

  /** The component's state: `currentPage`, `selectedUniversity`, `selectedPost`, `showCreatePost`. */
  class IndexState {
    var currentPage: string
    var selectedUniversity: Option<UniversityMap.University>
    var selectedPost: Option<PostDetail.DetailPost>
    var showCreatePost: bool

    /** Every handler keeps this: a university stays selected only on the feed page. */
    ghost predicate Valid()
      reads this
    {
      selectedUniversity.Some? ==> currentPage == "feed"
    }

    /** The screen `renderContent` draws for the current state. */
    function RenderContent(): (s: Screen)
      reads this
      ensures Valid() && !showCreatePost && selectedPost.None? && selectedUniversity.Some? ==>
        s == UniversityFeedScreen(selectedUniversity.value.name)
    {
      SelectScreen(currentPage, selectedUniversity, selectedPost, showCreatePost)
    }

    /** The first render: the map page, nothing selected, the create screen hidden. */
    constructor ()
      ensures Valid()
      ensures currentPage == "map" && selectedUniversity.None? && selectedPost.None? && !showCreatePost
      ensures RenderContent() == MapScreen
    {
      currentPage := "map";
      selectedUniversity := None;
      selectedPost := None;
      showCreatePost := false;
    }

    /** `handleNavigate(page)`: goes to `page` and clears the university, the post and the create flag. */
    method HandleNavigate(page: string)
      requires Valid()
      modifies this
      ensures Valid()
      ensures currentPage == page && selectedUniversity.None? && selectedPost.None? && !showCreatePost
      ensures RenderContent() == PageScreen(page)
    {
      currentPage := page;
      selectedUniversity := None;
      selectedPost := None;
      showCreatePost := false;
    }

    /** `handleSelectUniversity(u)`: selects `u` and goes to the feed page. */
    method HandleSelectUniversity(u: UniversityMap.University)
      requires Valid()
      modifies this
      ensures Valid()
      ensures selectedUniversity == Some(u) && currentPage == "feed"
      ensures selectedPost == old(selectedPost) && showCreatePost == old(showCreatePost)
      ensures selectedPost.None? && !showCreatePost ==> RenderContent() == UniversityFeedScreen(u.name)
    {
      selectedUniversity := Some(u);
      currentPage := "feed";
    }

    /** `handleBackToMap`: clears the university and goes to the map page. */
    method HandleBackToMap()
      requires Valid()
      modifies this
      ensures Valid()
      ensures selectedUniversity.None? && currentPage == "map"
      ensures selectedPost == old(selectedPost) && showCreatePost == old(showCreatePost)
      ensures selectedPost.None? && !showCreatePost ==> RenderContent() == MapScreen
    {
      selectedUniversity := None;
      currentPage := "map";
    }

    /** `handleCreatePost`: shows the create screen over whatever was drawn. */
    method HandleCreatePost()
      requires Valid()
      modifies this
      ensures Valid()
      ensures showCreatePost
      ensures currentPage == old(currentPage) && selectedUniversity == old(selectedUniversity)
      ensures selectedPost == old(selectedPost)
      ensures RenderContent() == CreatePostScreen
    {
      showCreatePost := true;
    }

    /** `handlePostSubmit` and `handleBackFromCreate`: only hide the create screen, so the
        screen underneath comes back. */
    method HideCreatePost()
      requires Valid()
      modifies this
      ensures Valid()
      ensures !showCreatePost
      ensures currentPage == old(currentPage) && selectedUniversity == old(selectedUniversity)
      ensures selectedPost == old(selectedPost)
      ensures RenderContent() == SelectScreen(currentPage, selectedUniversity, selectedPost, false)
    {
      showCreatePost := false;
    }

    /** `handlePostClick(post)`: selects the post; its detail shows unless the create screen is up. */
    method HandlePostClick(post: PostDetail.DetailPost)
      requires Valid()
      modifies this
      ensures Valid()
      ensures selectedPost == Some(post)
      ensures currentPage == old(currentPage) && selectedUniversity == old(selectedUniversity)
      ensures showCreatePost == old(showCreatePost)
      ensures !showCreatePost ==> RenderContent() == PostDetailScreen(post)
    {
      selectedPost := Some(post);
    }

    /** `handleBackFromPost`: clears only the post, so the page and the university stay. */
    method HandleBackFromPost()
      requires Valid()
      modifies this
      ensures Valid()
      ensures selectedPost.None?
      ensures currentPage == old(currentPage) && selectedUniversity == old(selectedUniversity)
      ensures showCreatePost == old(showCreatePost)
      ensures RenderContent() == SelectScreen(currentPage, selectedUniversity, None, showCreatePost)
    {
      selectedPost := None;
    }
  }
}
