/** The community page's feed: posts shared by members, a draft box that refuses blank posts,
    and a search over the feed. */
module Community {
  import opened Wrappers
  import opened Seqs
  import opened Text

  datatype Post = Post(
    id: string,
    author: string,
    avatarUrl: string,
    content: string,
    timestamp: string,
    likes: int,
    comments: int)

  /** `initialPosts`, newest first. */
  const InitialPosts: seq<Post> := [
    Post("1", "EcoWarriorJane", "https://avatar.vercel.sh/jane.png",
         "Just turned my old jeans into a cool tote bag! So happy with how it turned out. #DIYReuse",
         "2h ago", 15, 3),
    Post("2", "GreenThumbMike", "https://avatar.vercel.sh/mike.png",
         "Any tips for composting in a small apartment? Trying to reduce my food waste.",
         "5h ago", 8, 5),
    Post("3", "RecycleRita", "https://avatar.vercel.sh/rita.png",
         "Found a new drop-off point for e-waste in the North District! Check EcoMap for details.",
         "1d ago", 22, 2)
  ]

  const CurrentUser: string := "CurrentUser"
  const CurrentUserAvatar: string := "https://avatar.vercel.sh/current.png"
  const JustNow: string := "Just now"

  /** The post the timer callback builds from the captured draft, untrimmed. */
  function NewPost(id: string, content: string): Post
  {
    Post(id, CurrentUser, CurrentUserAvatar, content, JustNow, 0, 0)
  }

  /** `posts.find(p => p.id === id)` found something. */
  predicate HasPostId(posts: seq<Post>, id: string)
  {
    exists i :: 0 <= i < |posts| && posts[i].id == id
  }

  predicate UniqueIds(posts: seq<Post>)
  {
    forall i, j :: 0 <= i < j < |posts| ==> posts[i].id != posts[j].id
  }

  // ---------------------------------------------------------------------------
  // The feed search
  // ---------------------------------------------------------------------------

  /** Case-insensitive search on the content or the author. */
  predicate MatchesSearch(post: Post, term: string)
  {
    Contains(ToLower(post.content), ToLower(term)) || Contains(ToLower(post.author), ToLower(term))
  }

  function SearchFilter(term: string): Post -> bool
  {
    (post: Post) => MatchesSearch(post, term)
  }

  /** `filteredPosts`: the posts that match, in feed order. Unlike the other pages, an empty
      term is not special-cased; it matches every post because every string includes "". */
  function FilteredPosts(posts: seq<Post>, term: string): seq<Post>
  {
    Filter(posts, SearchFilter(term))
  }

  /** A post is listed iff it is in the feed and its content or author contains the term,
      ignoring case. */
  lemma FilteredPostsMembership(posts: seq<Post>, term: string, post: Post)
    ensures post in FilteredPosts(posts, term) <==> post in posts && MatchesSearch(post, term)
  {
    FilterMembership(posts, SearchFilter(term), post);
  }

  /** An empty search lists the whole feed, in order. */
  lemma EmptySearchListsAll(posts: seq<Post>)
    ensures FilteredPosts(posts, "") == posts
  {
    forall i | 0 <= i < |posts|
      ensures SearchFilter("")(posts[i])
    {
      ContainsFacts(ToLower(posts[i].content), "");
    }
    FilterKeepsAll(posts, SearchFilter(""));
  }

  /** Prepending a post to the feed shows it at the top of the search results when it matches,
      above the previous results in their order. */
  lemma FilteredAfterPrepend(post: Post, posts: seq<Post>, term: string)
    ensures FilteredPosts([post] + posts, term)
         == (if MatchesSearch(post, term) then [post] else []) + FilteredPosts(posts, term)
  {
    FilterAppend([post], posts, SearchFilter(term));
    assert [post][1..] == [];
  }

  /** Prepending a post with a new id keeps the ids unique. */
  lemma PrependKeepsIdsUnique(post: Post, posts: seq<Post>)
    requires UniqueIds(posts) && !HasPostId(posts, post.id)
    ensures UniqueIds([post] + posts)
  {
    var r := [post] + posts;
    forall i, j | 0 <= i < j < |r|
      ensures r[i].id != r[j].id
    {
      if i == 0 {
        assert r[j] == posts[j - 1];
      } else {
        assert r[i] == posts[i - 1] && r[j] == posts[j - 1];
      }
    }
  }

  // ---------------------------------------------------------------------------
  // Posting
  // ---------------------------------------------------------------------------

  /** The notification `handlePostSubmit` shows at once. */
  datatype SubmitOutcome = EmptyPost | Posting

  /** The feed's state. `pending` is the draft the one-second timer captured; it is there
      exactly while `isPosting` is set. */
  class CommunityPage {
    var posts: seq<Post>
    var newPostContent: string
    var isPosting: bool
    var searchTerm: string
    var pending: Option<string>

    /** Post ids stay unique, and a pending post is never blank. */
    ghost predicate Valid()
      reads this
    {
      UniqueIds(posts) &&
      (isPosting <==> pending.Some?) &&
      (pending.Some? ==> !IsBlank(pending.value))
    }

    /** The page as mounted: the seed posts, an empty draft, no search. */
    constructor ()
      ensures Valid()
      ensures posts == InitialPosts && newPostContent == "" && searchTerm == ""
      ensures !isPosting && pending == None
    {
      posts := InitialPosts;
      newPostContent := "";
      isPosting := false;
      searchTerm := "";
      pending := None;
    }

    /** Typing in the draft box, which stays possible while a post is pending. */
    method SetNewPostContent(text: string)
      modifies this`newPostContent
      ensures newPostContent == text
    {
      newPostContent := text;
    }

    /** Typing in the search box. */
    method SetSearchTerm(term: string)
      modifies this`searchTerm
      ensures searchTerm == term
    {
      searchTerm := term;
    }

    /** `handlePostSubmit` up to the timer: a draft of only whitespace is refused and nothing
        changes; any other draft is captured and the page is marked as posting. The submit
        button is disabled while posting, so a submit only happens when no post is pending. */
    method SubmitPost() returns (outcome: SubmitOutcome)
      requires Valid() && !isPosting
      modifies this`isPosting, this`pending
      ensures Valid()
      ensures outcome == EmptyPost <==> IsBlank(newPostContent)
      ensures outcome == EmptyPost ==> !isPosting && pending == None
      ensures outcome == Posting ==> isPosting && pending == Some(newPostContent)
    {
      if IsBlank(newPostContent) {
        outcome := EmptyPost;
        return;
      }
      isPosting := true;
      pending := Some(newPostContent);
      outcome := Posting;
    }

    /** The timer callback: the captured draft, untrimmed, becomes a new post by the current
        user with no likes or comments, placed above the previous posts; the draft box is
        emptied and posting ends. `id` is the fresh identifier the browser generates. */
    method FinishPost(id: string)
      requires Valid() && pending.Some?
      requires !HasPostId(posts, id)
      modifies this`posts, this`newPostContent, this`isPosting, this`pending
      ensures Valid()
      ensures posts == [NewPost(id, old(pending).value)] + old(posts)
      ensures !IsBlank(posts[0].content)
      ensures newPostContent == "" && !isPosting && pending == None
    {
      PrependKeepsIdsUnique(NewPost(id, pending.value), posts);
      posts := [NewPost(id, pending.value)] + posts;
      newPostContent := "";
      isPosting := false;
      pending := None;
    }
  }

  /** A post that is accepted holds at least one character that is not whitespace. */
  lemma AcceptedPostHasText(draft: string)
    requires !IsBlank(draft)
    ensures exists i :: 0 <= i < |draft| && !IsWhitespace(draft[i])
  {
    BlankIffAllWhitespace(draft);
  }
}
