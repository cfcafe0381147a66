/** The public blog listing (Blog.js): fetching, searching and excerpts. */
module Blog {
  import opened Wrappers
  import opened Text
  import opened Seqs
  import opened Api

  const FetchError := "Failed to fetch blog posts"

  /** The excerpt length `truncateText` uses when none is given. */
  const DefaultMaxLength: nat := 150

  /**
   * Evaluating the search callback on a post throws: the title does not
   * match, so `post.description.toLowerCase()` runs on a `null` description.
   */
  predicate ThrowsOn(p: Post, term: string) {
    !TitleMatches(p, term) && p.description.None?
  }

  /** The search callback, for a post on which it does not throw. */
  predicate BlogMatches(p: Post, term: string) {
    TitleMatches(p, term) || (p.description.Some? && Includes(Lower(p.description.value), Lower(term)))
  }

  /** `BlogMatches` for a fixed term, as the callback handed to `filter`. */
  function MatchesTerm(term: string): Post -> bool {
    p => BlogMatches(p, term)
  }

  /**
   * `filteredPosts`: `None` when the render throws on some post, otherwise
   * exactly the posts the search callback keeps, in order.
   */
  function FilterPosts(posts: seq<Post>, term: string): (r: Option<seq<Post>>)
    ensures r.None? <==> exists i :: 0 <= i < |posts| && ThrowsOn(posts[i], term)
    ensures r.Some? ==> r.value == Filter(posts, MatchesTerm(term))
    decreases |posts|
  {
    if posts == [] then Some([])
    else
      var rest := FilterPosts(posts[1..], term);
      assert forall i :: 1 <= i < |posts| ==> posts[i] == posts[1..][i - 1];
      if ThrowsOn(posts[0], term) || rest.None? then None
      else if BlogMatches(posts[0], term) then Some([posts[0]] + rest.value)
      else rest
  }

  /** With an empty search every post is listed, whatever its description. */
  lemma EmptySearchListsAll(posts: seq<Post>)
    ensures FilterPosts(posts, "") == Some(posts)
  {
    forall i | 0 <= i < |posts|
      ensures MatchesTerm("")(posts[i])
    {
      IncludesEmpty(Lower(posts[i].title));
    }
    FilterKeepsAll(posts, MatchesTerm(""));
  }

  /** A post is listed exactly when it is one of the posts and matches the search. */
  lemma ListedIffMatches(posts: seq<Post>, term: string, p: Post)
    requires FilterPosts(posts, term).Some?
    ensures p in FilterPosts(posts, term).value <==> p in posts && BlogMatches(p, term)
  {
    FilterMembership(posts, MatchesTerm(term), p);
  }

  /** The listing keeps the fetched order. */
  lemma ListingKeepsOrder(posts: seq<Post>, term: string)
    requires FilterPosts(posts, term).Some?
    ensures IsSubsequence(FilterPosts(posts, term).value, posts)
  {
    FilterIsSubsequence(posts, MatchesTerm(term));
  }

  /** The search ignores the case of the term. */
  lemma {:induction false} SearchIgnoresTermCase(posts: seq<Post>, term: string)
    ensures FilterPosts(posts, term) == FilterPosts(posts, Lower(term))
    decreases |posts|
  {
    LowerIdempotent(term);
    if posts != [] {
      SearchIgnoresTermCase(posts[1..], term);
    }
  }

  /**
   * `truncateText` after its `stripHtml`: text within the limit is kept,
   * longer text is cut to its first `maxLength` characters followed by an ellipsis.
   */
  function Truncate(stripped: string, maxLength: nat): (r: string)
    ensures |stripped| <= maxLength ==> r == stripped
    ensures |stripped| > maxLength ==> |r| == maxLength + 3 && stripped[..maxLength] <= r && r[maxLength..] == "..."
    ensures |r| <= maxLength + 3
  {
    if |stripped| <= maxLength then stripped else stripped[..maxLength] + "..."
  }

  /**
   * `truncateText(post.description)`, the excerpt under each listed post:
   * `stripHtml` sets the description as a `div`'s markup and takes its text,
   * which `textOf` stands for; that text is then truncated. A `null`
   * description sets empty markup.
   */
  function Excerpt(description: Option<string>, textOf: string -> string): (r: string)
    ensures var t := textOf(OrEmpty(description)); |t| <= DefaultMaxLength ==> r == t
    ensures var t := textOf(OrEmpty(description)); |t| > DefaultMaxLength ==> r == t[..DefaultMaxLength] + "..."
    ensures |r| <= DefaultMaxLength + 3
    ensures description.None? && textOf("") == "" ==> r == ""
  {
    Truncate(textOf(OrEmpty(description)), DefaultMaxLength)
  }

  class BlogPage {
    var posts: seq<Post>
    var loading: bool
    var error: Option<string>
    var searchTerm: string

    /** The initial state: no posts, loading, no error and no search. */
    constructor ()
      ensures posts == [] && loading && error == None && searchTerm == ""
    {
      posts := [];
      loading := true;
      error := None;
      searchTerm := "";
    }

    /**
     * `fetchPosts`: a reply whose body carries a `data` list replaces the
     * posts; a body without one leaves them; a failed call or a `null` body
     * (reading `.data` of it throws) sets the error. Loading ends either way.
     */
    method FetchPosts(reply: HttpReply)
      modifies this
      ensures !loading && searchTerm == old(searchTerm)
      ensures GetAllPosts(reply).Success? && GetAllPosts(reply).value.Some? ==>
        error == old(error)
        && posts == (if reply.body.value.data.Some? then reply.body.value.data.value else old(posts))
      ensures !(GetAllPosts(reply).Success? && GetAllPosts(reply).value.Some?) ==>
        error == Some(FetchError) && posts == old(posts)
    {
      loading := true;
      var r := GetAllPosts(reply);
      if r.Success? && r.value.Some? {
        if r.value.value.data.Some? {
          posts := r.value.value.data.value;
        }
      } else {
        error := Some(FetchError);
      }
      loading := false;
    }

    /** The search input's change handler. */
    method SetSearchTerm(term: string)
      modifies this
      ensures searchTerm == term && posts == old(posts) && loading == old(loading) && error == old(error)
    {
      searchTerm := term;
    }
  }
}
