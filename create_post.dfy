/** The create-post page (CreatePost.js): image checks, upload and submission. */
module CreatePost {
  import opened Wrappers
  import opened Text
  import opened Seqs
  import opened Api
  import opened PostForm

  /** The largest accepted image: 5 MB. */
  const MaxImageBytes: nat := 5 * 1024 * 1024

  /** The verdict of the two checks `handleImageUpload` makes before uploading. */
  datatype FileCheck = Accepted | WrongType | TooLarge

  /** The type is checked first, then the size; a file of exactly 5 MB passes. */
  function CheckImageFile(f: File): (r: FileCheck)
    ensures r == WrongType <==> !IsImageType(f)
    ensures r == TooLarge <==> IsImageType(f) && f.size > MaxImageBytes
    ensures r == Accepted <==> IsImageType(f) && f.size <= 5242880
  {
    if !IsImageType(f) then WrongType
    else if f.size > MaxImageBytes then TooLarge
    else Accepted
  }

  /** The size boundary: 5 MB exactly is accepted, one byte more is refused. */
  lemma SizeBoundary(name: string, mime: string)
    requires StartsWith(mime, "image/")
    ensures CheckImageFile(File(name, mime, 5242880)) == Accepted
    ensures CheckImageFile(File(name, mime, 5242881)) == TooLarge
  {
  }

  /** The form state of the page. */
  datatype CreateForm = CreateForm(
    title: string, description: string, content: string, contentBurmese: string, image: string)

  /** `postData`: the rich content is the description unless it is empty. */
  function CreatePayload(form: CreateForm): (p: PostPayload)
    ensures p.id == None && p.title == form.title && p.slug == Slugify(form.title)
    ensures p.description == if form.content != "" then form.content else form.description
    ensures p.contentBurmese == form.contentBurmese && p.image == form.image
  {
    PostPayload(None, form.title, Slugify(form.title),
      if form.content != "" then form.content else form.description,
      form.contentBurmese, form.image)
  }

  /** The created post's slug is well formed. */
  lemma CreatePayloadSlug(form: CreateForm)
    ensures IsSlug(CreatePayload(form).slug)
  {
    SlugifyIsSlug(form.title);
  }

  class CreatePostPage {
    var form: CreateForm
    var loading: bool
    var imagePreview: string
    var uploadingImage: bool

    /** The initial state: an empty form, nothing loading, no preview. */
    constructor ()
      ensures form == CreateForm("", "", "", "", "") && !loading
      ensures imagePreview == "" && !uploadingImage
    {
      form := CreateForm("", "", "", "", "");
      loading := false;
      imagePreview := "";
      uploadingImage := false;
    }

    /**
     * `handleImageUpload`: with no file nothing happens; a file that fails the
     * checks is refused before any upload; otherwise the upload runs and, when
     * the reply names a file, the form image and the preview both become its
     * `uploads/` URL.
     */
    method HandleImageUpload(file: Option<File>, reply: UploadReply) returns (uploaded: bool)
      modifies this
      ensures uploaded <==> file.Some? && CheckImageFile(file.value) == Accepted
      ensures loading == old(loading)
      ensures uploaded && HasFilename(reply) ==>
        form == old(form).(image := UploadedImageUrl(reply.filename.value))
        && imagePreview == UploadedImageUrl(reply.filename.value)
        && form.image == imagePreview
      ensures !(uploaded && HasFilename(reply)) ==> form == old(form) && imagePreview == old(imagePreview)
      ensures uploadingImage == if uploaded then false else old(uploadingImage)
    {
      uploaded := false;
      if file.None? {
        return;
      }
      if !StartsWith(file.value.mime, "image/") {
        return;
      }
      if file.value.size > 5 * 1024 * 1024 {
        return;
      }
      uploaded := true;
      uploadingImage := true;
      if reply.Replied? && reply.filename.Some? && reply.filename.value != "" {
        var imageUrl := UploadsBase + reply.filename.value;
        form := form.(image := imageUrl);
        imagePreview := imageUrl;
      }
      uploadingImage := false;
    }

    /**
     * `handleSubmit`: a blank title or content is refused before any call;
     * otherwise `createPost` is sent the payload, a completed call navigates
     * back to the admin page, and `loading` ends false either way.
     */
    method HandleSubmit(outcome: CallOutcome) returns (sent: Option<PostPayload>, navigated: bool)
      modifies this
      ensures sent.None? <==> !RequiredFilled(old(form).title, old(form).content)
      ensures sent.Some? ==> sent.value == CreatePayload(old(form))
      ensures navigated <==> sent.Some? && outcome == Completed
      ensures form == old(form) && imagePreview == old(imagePreview)
      ensures uploadingImage == old(uploadingImage)
      ensures loading == if sent.None? then old(loading) else false
    {
      sent, navigated := None, false;
      if !RequiredFilled(form.title, form.content) {
        return;
      }
      loading := true;
      sent := Some(CreatePayload(form));
      navigated := outcome == Completed;
      loading := false;
    }
  }
}
