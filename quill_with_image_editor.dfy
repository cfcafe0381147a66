/**
 * The rich-text editor with its image-edit modal (QuillWithImageEditor.js):
 * the pending image-edit request and the handler it was created with.
 */
module QuillWithImageEditor {
  import opened Wrappers
  import opened Api
  import opened Seqs
  import opened QuillImageHandler

  class QuillHost {
    /** `imageHandlerRef.current`. */
    var handler: Option<ImageHandler>
    var showImageEditor: bool
    var currentImageData: Option<EditRequest>

    /** Before mounting: no handler, no modal and no pending request. */
    constructor ()
      ensures handler == None && !showImageEditor && currentImageData == None
    {
      handler := None;
      showImageEditor := false;
      currentImageData := None;
    }

    /** The objects saving the pending request may change: its handler and that handler's editor. */
    function Pending(): (s: set<object>)
      reads this
      ensures currentImageData.None? ==> s == {}
    {
      if currentImageData.Some? then
        {currentImageData.value.onImageProcessed as object, currentImageData.value.onImageProcessed.editor as object}
      else {}
    }

    /** The mount effect: a fresh image handler on the editor. */
    method Mount(editor: Editor)
      modifies this
      ensures handler.Some? && fresh(handler.value) && handler.value.editor == editor
      ensures handler.value.currentRange == None && handler.value.inputAttached
      ensures showImageEditor == old(showImageEditor) && currentImageData == old(currentImageData)
    {
      var h := new ImageHandler(editor);
      handler := Some(h);
    }

    /** `handleImageEdit`: a new request replaces any pending one and opens the modal. */
    method HandleImageEdit(request: EditRequest)
      modifies this
      ensures currentImageData == Some(request) && showImageEditor && handler == old(handler)
    {
      currentImageData := Some(request);
      showImageEditor := true;
    }

    /**
     * The file input's change event: the handler checks the file, and an
     * image reaches `handleImageEdit` as a request naming this handler.
     */
    method SelectFile(file: Option<File>, dataUrl: string)
      modifies this
      ensures handler == old(handler)
      ensures handler.Some? && file.Some? && IsImageType(file.value) ==>
        currentImageData == Some(EditRequest(file.value, dataUrl, handler.value)) && showImageEditor
      ensures !(handler.Some? && file.Some? && IsImageType(file.value)) ==>
        currentImageData == old(currentImageData) && showImageEditor == old(showImageEditor)
    {
      if handler.Some? {
        var request := handler.value.HandleFileSelect(file, dataUrl);
        if request.Some? {
          HandleImageEdit(request.value);
        }
      }
    }

    /**
     * `handleImageEditSave`: the pending request's `insertImage` runs at most
     * once, and the modal closes and the request is dropped whatever happens.
     */
    method HandleImageEditSave(reply: UploadReply) returns (processed: bool)
      requires currentImageData.Some? ==> currentImageData.value.onImageProcessed.editor.Valid()
      modifies this, Pending()
      ensures processed <==> old(currentImageData).Some?
      ensures processed ==>
        old(currentImageData).value.onImageProcessed.currentRange == None
        && old(currentImageData).value.onImageProcessed.editor.Valid()
      ensures processed ==>
        var h := old(currentImageData).value.onImageProcessed;
        var e := h.editor;
        var d := old(e.doc);
        var i := InsertIndex(old(h.currentRange), old(e.selection), |d|);
        i <= |d| ==>
          && (HasFilename(reply) ==>
                e.doc == d[..i] + [Embed(UploadedImageUrl(reply.filename.value)), Unit(10)] + d[i..]
                && e.selection == Some(i + 2))
          && (reply.Replied? && !HasFilename(reply) ==> e.doc == d && e.selection == Some(i))
          && (reply.UploadThrew? && old(h.currentRange).Some? ==> e.doc == d && e.selection == Some(i))
          && (reply.UploadThrew? && old(h.currentRange).None? ==>
                var placed := d[..i] + Placeholder + d[i..];
                var at := i + |Placeholder|;
                e.doc == (if Includes(GetText(placed, at, CleanupWindow), Placeholder) then Cut(placed, at, |Placeholder|) else placed))
      ensures !showImageEditor && currentImageData == None && handler == old(handler)
    {
      processed := false;
      if currentImageData.Some? {
        var h := currentImageData.value.onImageProcessed;
        var _, _ := h.InsertImage(reply);
        processed := true;
      }
      showImageEditor := false;
      currentImageData := None;
    }

    /** `handleImageEditCancel`: the modal closes and the request is dropped, nothing inserted. */
    method HandleImageEditCancel()
      modifies this
      ensures !showImageEditor && currentImageData == None && handler == old(handler)
    {
      showImageEditor := false;
      currentImageData := None;
    }

    /** The modal's `src` when it is rendered: only with the flag set and a request pending. */
    function ModalSource(): (src: Option<string>)
      reads this
      ensures src.Some? <==> showImageEditor && currentImageData.Some?
      ensures src.Some? ==> src.value == currentImageData.value.imageUrl
    {
      if showImageEditor && currentImageData.Some? then Some(currentImageData.value.imageUrl) else None
    }

    /** The unmount cleanup: the handler, if one was made, is destroyed. */
    method Unmount() returns (removed: bool)
      modifies if handler.Some? then {handler.value} else {}
      ensures removed <==> handler.Some? && old(handler.value.inputAttached)
      ensures handler.Some? ==> !handler.value.inputAttached
    {
      removed := false;
      if handler.Some? {
        removed := handler.value.Destroy();
      }
    }
  }
}
