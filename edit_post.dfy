/** The edit-post page (EditPost.js): loading a post, the featured-image editor and the update. */
module EditPost {
  import opened Wrappers
  import opened Text
  import opened Seqs
  import opened Api
  import opened PostForm

  /** Where stored post images are served from for the preview. */
  const ServeImageBase := "http://sheinhtutoo-backend.infinityfree.me/serve-image.php?file="

  /** The form state; `id` is `None` until a post is loaded. */
  datatype EditForm = EditForm(
    id: Option<int>, title: string, description: Option<string>, content: string,
    contentBurmese: string, image: string)

  /** `posts.find(p => p.id === n)` as an index; `NaN` (`None`) equals no id. */
  function FindPost(posts: seq<Post>, n: Option<int>): (k: Option<nat>)
    ensures k.Some? ==> k.value < |posts| && Some(posts[k.value].id) == n
    ensures k.Some? ==> forall j :: 0 <= j < k.value ==> Some(posts[j].id) != n
    ensures k.None? ==> forall j :: 0 <= j < |posts| ==> Some(posts[j].id) != n
    decreases |posts|
  {
    if posts == [] then None
    else if Some(posts[0].id) == n then Some(0)
    else
      var k := FindPost(posts[1..], n);
      if k.Some? then Some(k.value + 1) else None
  }

  /** The form `loadPost` fills in from a post: the description is also the editable content. */
  function FormFromPost(p: Post): (f: EditForm)
    ensures f.id == Some(p.id) && f.title == p.title && f.description == p.description
    ensures f.content == OrEmpty(p.description) && f.contentBurmese == OrEmpty(p.contentBurmese)
    ensures f.image == OrEmpty(p.image)
  {
    EditForm(Some(p.id), p.title, p.description, OrEmpty(p.description),
      OrEmpty(p.contentBurmese), OrEmpty(p.image))
  }

  /** The preview URL of a loaded post: the served image, or none. */
  function PreviewFor(p: Post): (url: string)
    ensures Truthy(p.image) ==> url == ServeImageBase + p.image.value
    ensures !Truthy(p.image) ==> url == ""
  {
    if p.image.Some? && p.image.value != "" then ServeImageBase + p.image.value else ""
  }

  /** `postData` of the update: the loaded id, and the rich content as the description. */
  function UpdatePayload(form: EditForm): (p: PostPayload)
    ensures p.id == form.id && p.title == form.title && p.slug == Slugify(form.title)
    ensures p.description == form.content
    ensures p.contentBurmese == form.contentBurmese && p.image == form.image
  {
    PostPayload(form.id, form.title, Slugify(form.title), form.content, form.contentBurmese, form.image)
  }

  /** `response.data.data || []`. */
  function PostsOf(body: PostsBody): (posts: seq<Post>)
    ensures body.data.Some? ==> posts == body.data.value
    ensures body.data.None? ==> posts == []
  {
    if body.data.Some? then body.data.value else []
  }

  /** The body `loadPost` reads posts from, or `None` when reading it throws (a failed call or a `null` body). */
  function LoadedBody(reply: HttpReply): (b: Option<PostsBody>)
    ensures b.Some? <==> reply.Response? && IsOk(reply.status) && reply.body.Some?
    ensures b.Some? ==> b == reply.body
  {
    match GetAllPosts(reply)
    case Failure(_) => None
    case Success(body) => body
  }

  /**
   * The edit route of a post with a non-negative id, written in decimal,
   * finds a post with that id: the first one carrying it.
   */
  lemma RouteFindsPost(posts: seq<Post>, k: nat)
    requires k < |posts| && posts[k].id >= 0
    ensures var found := FindPost(posts, ParseInt(DecimalString(posts[k].id)));
      found.Some? && found.value <= k && posts[found.value].id == posts[k].id
  {
    ParseIntDecimal(posts[k].id);
  }

  class EditPostPage {
    var form: EditForm
    var loading: bool
    var loadingPost: bool
    var imagePreview: string
    var showImageEditor: bool
    var originalImageFile: Option<File>
    var originalImageUrl: string

    constructor ()
      ensures form == EditForm(None, "", Some(""), "", "", "") && !loading && loadingPost
      ensures imagePreview == "" && !showImageEditor
      ensures originalImageFile == None && originalImageUrl == ""
    {
      form := EditForm(None, "", Some(""), "", "", "");
      loading := false;
      loadingPost := true;
      imagePreview := "";
      showImageEditor := false;
      originalImageFile := None;
      originalImageUrl := "";
    }

    /**
     * The mount effect: with a route id, `loadPost` looks for the post whose
     * id is `parseInt(id)` in `getAllPosts`' reply and fills the form and the
     * preview from it; when no post matches or the call throws, the form is
     * left as it is and the page navigates back to the admin list. Without a
     * route id nothing is loaded.
     */
    method LoadOnMount(routeId: string, reply: HttpReply) returns (navigatedAway: bool)
      modifies this
      ensures routeId == "" ==>
        !navigatedAway && form == old(form) && loadingPost == old(loadingPost) && imagePreview == old(imagePreview)
      ensures routeId != "" ==> !loadingPost
      ensures routeId != "" && LoadedBody(reply).Some? ==>
        var posts := PostsOf(LoadedBody(reply).value);
        var k := FindPost(posts, ParseInt(routeId));
        && (k.Some? ==> form == FormFromPost(posts[k.value]) && imagePreview == PreviewFor(posts[k.value]) && !navigatedAway)
        && (k.None? ==> form == old(form) && imagePreview == old(imagePreview) && navigatedAway)
      ensures routeId != "" && LoadedBody(reply).None? ==>
        form == old(form) && imagePreview == old(imagePreview) && navigatedAway
      ensures loading == old(loading) && showImageEditor == old(showImageEditor)
      ensures originalImageFile == old(originalImageFile) && originalImageUrl == old(originalImageUrl)
    {
      navigatedAway := false;
      if routeId == "" {
        return;
      }
      var body := LoadedBody(reply);
      if body.None? {
        // A failed call throws, and so does reading `.data` of a null body.
        navigatedAway := true;
      } else {
        var posts := PostsOf(body.value);
        var k := FindPost(posts, ParseInt(routeId));
        if k.Some? {
          var post := posts[k.value];
          form := FormFromPost(post);
          imagePreview := PreviewFor(post);
        } else {
          navigatedAway := true;
        }
      }
      loadingPost := false;
    }

    /** `handleImageUpload`: keeps the chosen file and opens the editor on its data URL. */
    method HandleImageUpload(file: Option<File>, dataUrl: string)
      modifies this
      ensures file.None? ==>
        originalImageFile == old(originalImageFile) && originalImageUrl == old(originalImageUrl)
        && showImageEditor == old(showImageEditor)
      ensures file.Some? ==> originalImageFile == file && originalImageUrl == dataUrl && showImageEditor
      ensures form == old(form) && imagePreview == old(imagePreview)
      ensures loading == old(loading) && loadingPost == old(loadingPost)
    {
      if file.Some? {
        originalImageFile := file;
        originalImageUrl := dataUrl;
        showImageEditor := true;
      }
    }

    /**
     * `handleImageEditSave`: when the upload reply names a file, the form
     * image and the preview become its URL and the editor closes; otherwise
     * (no filename, or the upload threw) nothing changes and the editor stays open.
     */
    method HandleImageEditSave(reply: UploadReply)
      modifies this
      ensures HasFilename(reply) ==>
        form == old(form).(image := UploadedImageUrl(reply.filename.value))
        && imagePreview == UploadedImageUrl(reply.filename.value) && !showImageEditor
      ensures !HasFilename(reply) ==>
        form == old(form) && imagePreview == old(imagePreview) && showImageEditor == old(showImageEditor)
      ensures originalImageFile == old(originalImageFile) && originalImageUrl == old(originalImageUrl)
      ensures loading == old(loading) && loadingPost == old(loadingPost)
    {
      if reply.Replied? && reply.filename.Some? && reply.filename.value != "" {
        var imageUrl := UploadsBase + reply.filename.value;
        form := form.(image := imageUrl);
        imagePreview := imageUrl;
        showImageEditor := false;
      }
    }

    /** `handleImageEditCancel`: closes the editor and forgets the original image. */
    method HandleImageEditCancel()
      modifies this
      ensures !showImageEditor && originalImageFile == None && originalImageUrl == ""
      ensures form == old(form) && imagePreview == old(imagePreview)
      ensures loading == old(loading) && loadingPost == old(loadingPost)
    {
      showImageEditor := false;
      originalImageFile := None;
      originalImageUrl := "";
    }

    /** `handleEditExistingImage`: opens the editor on the current preview, if there is one. */
    method HandleEditExistingImage()
      modifies this
      ensures imagePreview != "" ==> originalImageUrl == imagePreview && showImageEditor
      ensures imagePreview == "" ==> originalImageUrl == old(originalImageUrl) && showImageEditor == old(showImageEditor)
      ensures form == old(form) && imagePreview == old(imagePreview) && originalImageFile == old(originalImageFile)
      ensures loading == old(loading) && loadingPost == old(loadingPost)
    {
      if imagePreview != "" {
        originalImageUrl := imagePreview;
        showImageEditor := true;
      }
    }

    /**
     * `handleSubmit`: a blank title or content is refused before any call;
     * otherwise `updatePost` is sent the payload, a completed call navigates
     * back, and `loading` ends false either way.
     */
    method HandleSubmit(outcome: CallOutcome) returns (sent: Option<PostPayload>, navigated: bool)
      modifies this
      ensures sent.None? <==> !RequiredFilled(old(form).title, old(form).content)
      ensures sent.Some? ==> sent.value == UpdatePayload(old(form))
      ensures navigated <==> sent.Some? && outcome == Completed
      ensures form == old(form) && imagePreview == old(imagePreview) && loadingPost == old(loadingPost)
      ensures showImageEditor == old(showImageEditor)
      ensures originalImageFile == old(originalImageFile) && originalImageUrl == old(originalImageUrl)
      ensures loading == if sent.None? then old(loading) else false
    {
      sent, navigated := None, false;
      if !RequiredFilled(form.title, form.content) {
        return;
      }
      loading := true;
      sent := Some(UpdatePayload(form));
      navigated := outcome == Completed;
      loading := false;
    }
  }
}
