/** The admin dashboard (Admin.js): its listing, inline post form and search. */
module Admin {
  import opened Wrappers
  import opened Text
  import opened Seqs
  import opened Api

  /** The inline form; `handleEdit` copies a post's image and description, which may be `null`. */
  datatype AdminForm = AdminForm(title: string, image: Option<string>, description: Option<string>)

  const EmptyForm := AdminForm("", Some(""), Some(""))

  /** The call `handleSubmit` makes: `createPost(formData)` or `updatePost({ ...formData, id })`. */
  datatype SaveRequest = CreateRequest(form: AdminForm) | UpdateRequest(form: AdminForm, id: int)

  /** The admin search callback for a fixed term: the title only. */
  function TitleTerm(term: string): Post -> bool {
    p => TitleMatches(p, term)
  }

  /** `filteredPosts` of the dashboard. */
  function AdminFilter(posts: seq<Post>, term: string): (r: seq<Post>)
    ensures |r| <= |posts|
    ensures forall k :: 0 <= k < |r| ==> Includes(Lower(r[k].title), Lower(term))
  {
    Filter(posts, TitleTerm(term))
  }

  /** A post is listed exactly when it is one of the posts and its lowercased title contains the lowercased term. */
  lemma AdminListedIffTitleMatches(posts: seq<Post>, term: string, p: Post)
    ensures p in AdminFilter(posts, term) <==> p in posts && Includes(Lower(p.title), Lower(term))
  {
    FilterMembership(posts, TitleTerm(term), p);
  }

  /** The descriptions play no part: posts that differ only there are listed alike. */
  lemma AdminIgnoresDescription(p: Post, d: Option<string>, term: string)
    ensures p in AdminFilter([p], term) <==> p.(description := d) in AdminFilter([p.(description := d)], term)
  {
    AdminListedIffTitleMatches([p], term, p);
    AdminListedIffTitleMatches([p.(description := d)], term, p.(description := d));
  }

  /** With an empty search every post is listed, in order. */
  lemma AdminEmptySearchListsAll(posts: seq<Post>)
    ensures AdminFilter(posts, "") == posts
  {
    forall i | 0 <= i < |posts|
      ensures TitleTerm("")(posts[i])
    {
      IncludesEmpty(Lower(posts[i].title));
    }
    FilterKeepsAll(posts, TitleTerm(""));
  }

  /** The listing keeps the fetched order. */
  lemma AdminKeepsOrder(posts: seq<Post>, term: string)
    ensures IsSubsequence(AdminFilter(posts, term), posts)
  {
    FilterIsSubsequence(posts, TitleTerm(term));
  }

  /** The call a submit makes from a form and the post being edited, if any. */
  function SaveRequestFor(form: AdminForm, editing: Option<Post>): (q: SaveRequest)
    ensures q.form == form
    ensures q.UpdateRequest? <==> editing.Some?
    ensures q.UpdateRequest? ==> q.id == editing.value.id
  {
    if editing.Some? then UpdateRequest(form, editing.value.id) else CreateRequest(form)
  }

  /** The posts `fetchPosts` shows for a reply: the `data` list when there is one, and none otherwise. */
  function FetchedPosts(reply: HttpReply): (posts: seq<Post>)
    ensures reply.Response? && IsOk(reply.status) && reply.body.Some? && reply.body.value.data.Some? ==>
      posts == reply.body.value.data.value
    ensures !(reply.Response? && IsOk(reply.status) && reply.body.Some? && reply.body.value.data.Some?) ==>
      posts == []
  {
    match GetAllPosts(reply)
    case Success(Some(PostsBody(Some(data), _))) => data
    case _ => []
  }

  class AdminPage {
    var posts: seq<Post>
    var loading: bool
    var showForm: bool
    var editingPost: Option<Post>
    var searchTerm: string
    var formData: AdminForm

    /** The initial state: no posts, nothing loading, the form hidden and empty. */
    constructor ()
      ensures posts == [] && !loading && !showForm && editingPost == None
      ensures searchTerm == "" && formData == EmptyForm
    {
      posts := [];
      loading := false;
      showForm := false;
      editingPost := None;
      searchTerm := "";
      formData := EmptyForm;
    }

    /**
     * `fetchPosts`: the reply's `data` list when present; an empty list for a
     * `message` body, any other body and a thrown call alike. Loading ends false.
     */
    method FetchPosts(reply: HttpReply)
      modifies this
      ensures posts == FetchedPosts(reply) && !loading
      ensures showForm == old(showForm) && editingPost == old(editingPost)
      ensures searchTerm == old(searchTerm) && formData == old(formData)
    {
      loading := true;
      var r := GetAllPosts(reply);
      if r.Success? && r.value.Some? && r.value.value.data.Some? {
        posts := r.value.value.data.value;
      } else if r.Success? && r.value.Some? && r.value.value.message.Some? {
        posts := [];
      } else {
        posts := [];
      }
      loading := false;
    }

    /**
     * `handleSubmit`: updates the post being edited, or creates one. A
     * completed call resets and hides the form, clears the edited post and
     * asks for a refresh; a thrown call leaves the form as it is.
     */
    method HandleSubmit(outcome: CallOutcome) returns (sent: SaveRequest, refresh: bool)
      modifies this
      ensures sent == SaveRequestFor(old(formData), old(editingPost))
      ensures refresh <==> outcome == Completed
      ensures outcome == Completed ==> formData == EmptyForm && !showForm && editingPost == None
      ensures outcome == Threw ==>
        formData == old(formData) && showForm == old(showForm) && editingPost == old(editingPost)
      ensures !loading && posts == old(posts) && searchTerm == old(searchTerm)
    {
      loading := true;
      if editingPost.Some? {
        sent := UpdateRequest(formData, editingPost.value.id);
      } else {
        sent := CreateRequest(formData);
      }
      refresh := false;
      if outcome == Completed {
        formData := EmptyForm;
        showForm := false;
        editingPost := None;
        refresh := true;
      }
      loading := false;
    }

    /** `handleEdit`: remembers the post, copies its title, image and description, and shows the form. */
    method HandleEdit(post: Post)
      modifies this
      ensures editingPost == Some(post) && showForm
      ensures formData == AdminForm(post.title, post.image, post.description)
      ensures posts == old(posts) && loading == old(loading) && searchTerm == old(searchTerm)
    {
      editingPost := Some(post);
      formData := AdminForm(post.title, post.image, post.description);
      showForm := true;
    }
  }
}
