/** A single post page (BlogPost.js): fetching it and choosing the English or Burmese text. */
module BlogPost {
  import opened Wrappers
  import opened Text
  import opened Api

  const NotFound := "Post not found"
  const FetchError := "Failed to fetch blog post"

  /** The `language` state, `'english'` or `'burmese'`. */
  datatype Language = English | Burmese

  /** What `getPostBySlug` delivers: the response body (`None` when it is falsy), or a thrown call. */
  datatype SingleReply = Body(post: Option<Post>) | SingleThrew

  /** `toggleLanguage`'s update. */
  function Toggle(l: Language): (t: Language)
    ensures t != l
  {
    if l == English then Burmese else English
  }

  /** Toggling twice restores the language. */
  lemma ToggleInvolution(l: Language)
    ensures Toggle(Toggle(l)) == l
  {
  }

  /** The post has Burmese text that is not blank. */
  predicate HasBurmeseText(p: Post) {
    Truthy(p.contentBurmese) && Trim(p.contentBurmese.value) != ""
  }

  /** `hasBurmeseContent`: there is a post and it has non-blank Burmese text. */
  predicate HasBurmeseContent(post: Option<Post>) {
    post.Some? && HasBurmeseText(post.value)
  }

  /** A post's Burmese text counts exactly when it is present and not entirely whitespace. */
  lemma HasBurmeseContentIff(post: Option<Post>)
    ensures HasBurmeseContent(post) <==>
      post.Some? && post.value.contentBurmese.Some? && !IsBlank(post.value.contentBurmese.value)
  {
    if post.Some? && post.value.contentBurmese.Some? {
      TrimEmptyIffBlank(post.value.contentBurmese.value);
    }
  }

  /** `getCurrentContent`: the Burmese text in Burmese mode when there is some, the description otherwise. */
  function CurrentContent(p: Post, l: Language): (c: Option<string>)
    ensures c == p.contentBurmese && c != p.description ==> l == Burmese && HasBurmeseText(p)
    ensures l == Burmese && HasBurmeseText(p) ==> c == p.contentBurmese
    ensures !(l == Burmese && HasBurmeseText(p)) ==> c == p.description
  {
    if l == Burmese && Truthy(p.contentBurmese) && Trim(p.contentBurmese.value) != "" then
      p.contentBurmese
    else
      p.description
  }

  /** In English mode the description is always shown. */
  lemma EnglishShowsDescription(p: Post)
    ensures CurrentContent(p, English) == p.description
  {
  }

  /** For a post with Burmese text, the toggle switches between exactly the two texts. */
  lemma ToggleSwitchesText(p: Post, l: Language)
    requires HasBurmeseText(p)
    ensures {CurrentContent(p, l), CurrentContent(p, Toggle(l))} == {p.description, p.contentBurmese}
  {
  }

  /** What the page renders. */
  datatype Screen = Loading | ErrorScreen(message: string) | Article(content: Option<string>, languageToggle: bool)

  class BlogPostPage {
    var post: Option<Post>
    var loading: bool
    var error: Option<string>
    var language: Language

    /** The initial state: no post, loading, no error, English. */
    constructor ()
      ensures post == None && loading && error == None && language == English
    {
      post := None;
      loading := true;
      error := None;
      language := English;
    }

    /**
     * The page for the current state: the spinner while loading, the error
     * (or "Post not found") when there is an error or no post, and otherwise
     * the current text, with the language toggle only for posts with Burmese text.
     */
    function View(): (s: Screen)
      reads this
      ensures s.Loading? <==> loading
      ensures s.ErrorScreen? <==> !loading && (error.Some? || post.None?)
      ensures s.ErrorScreen? ==> s.message == (if error.Some? then error.value else NotFound)
      ensures s.Article? ==> s.content == CurrentContent(post.value, language) && (s.languageToggle <==> HasBurmeseContent(post))
    {
      if loading then Loading
      else if error.Some? || post.None? then ErrorScreen(if error.Some? then error.value else NotFound)
      else Article(CurrentContent(post.value, language), HasBurmeseContent(post))
    }

    /**
     * `fetchPost`: a truthy body becomes the post; a falsy one sets
     * "Post not found" and a thrown call "Failed to fetch blog post", each
     * leaving the post as it was. Loading ends false.
     */
    method FetchPost(reply: SingleReply)
      modifies this
      ensures !loading && language == old(language)
      ensures reply.Body? && reply.post.Some? ==> post == reply.post && error == old(error)
      ensures reply.Body? && reply.post.None? ==> post == old(post) && error == Some(NotFound)
      ensures reply.SingleThrew? ==> post == old(post) && error == Some(FetchError)
    {
      loading := true;
      match reply {
        case Body(body) =>
          if body.Some? {
            post := body;
          } else {
            error := Some(NotFound);
          }
        case SingleThrew =>
          error := Some(FetchError);
      }
      loading := false;
    }

    /** `toggleLanguage`. */
    method ToggleLanguage()
      modifies this
      ensures language == Toggle(old(language))
      ensures post == old(post) && loading == old(loading) && error == old(error)
    {
      language := if language == English then Burmese else English;
    }
  }
}
