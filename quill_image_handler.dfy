/**
 * The rich-text editor's image button (QuillImageHandler.js): it remembers
 * the cursor, hands a picked image to the image editor, and inserts the
 * edited image behind an "uploading" placeholder.
 */
module QuillImageHandler {
  import opened Wrappers
  import opened Text
  import opened Seqs
  import opened Api

  /**
   * One position of a Quill document: a UTF-16 code unit of text, or an
   * embedded image, which takes one position.
   */
  datatype Item = Unit(code: nat) | Embed(url: string)

  predicate IsUnit(x: Item) {
    x.Unit?
  }

  /** The UTF-16 code units of one character: one unit, or a surrogate pair above U+FFFF. */
  function CharUnits(c: char): (r: seq<Item>)
    ensures |r| == if c as int < 0x10000 then 1 else 2
    ensures forall k :: 0 <= k < |r| ==> r[k].Unit?
  {
    var v := c as int;
    if v < 0x10000 then [Unit(v)]
    else [Unit(0xD800 + (v - 0x10000) / 0x400), Unit(0xDC00 + (v - 0x10000) % 0x400)]
  }

  /** A string as Quill stores it: its UTF-16 code units. */
  function Utf16(s: string): (r: seq<Item>)
    ensures forall k :: 0 <= k < |r| ==> r[k].Unit?
    decreases |s|
  {
    if s == [] then [] else CharUnits(s[0]) + Utf16(s[1..])
  }

  lemma {:induction false} Utf16Append(a: string, b: string)
    ensures Utf16(a + b) == Utf16(a) + Utf16(b)
    decreases |a|
  {
    if a == [] {
      assert a + b == b;
    } else {
      Utf16Append(a[1..], b);
      assert (a + b)[1..] == a[1..] + b;
    }
  }

  /** The code units of text without characters above U+FFFF: one per character. */
  function BmpUnits(s: string): (r: seq<Item>)
    ensures |r| == |s| && forall k :: 0 <= k < |r| ==> r[k] == Unit(s[k] as int)
  {
    seq(|s|, k requires 0 <= k < |s| => Unit(s[k] as int))
  }

  lemma {:induction false} Utf16Bmp(s: string)
    requires forall k :: 0 <= k < |s| ==> s[k] as int < 0x10000
    ensures Utf16(s) == BmpUnits(s)
    decreases |s|
  {
    if s != [] {
      Utf16Bmp(s[1..]);
      assert BmpUnits(s) == [Unit(s[0] as int)] + BmpUnits(s[1..]);
    }
  }

  const LoadingText := "[\U{1F4F7} Uploading image...]"

  /** The placeholder shown while an image uploads, position by position: the camera emoji is a surrogate pair. */
  const Placeholder: seq<Item> := [Unit(0x5B), Unit(0xD83D), Unit(0xDCF7)] + BmpUnits(" Uploading image...]")

  lemma LoadingHead()
    ensures Utf16("[\U{1F4F7}") == [Unit(0x5B), Unit(0xD83D), Unit(0xDCF7)]
  {
    var h := "[\U{1F4F7}";
    assert h[1..] == "\U{1F4F7}";
    assert Utf16(h[1..][1..]) == [];
  }

  lemma LoadingTail()
    ensures Utf16(" Uploading image...]") == BmpUnits(" Uploading image...]")
  {
    var tail := " Uploading image...]";
    assert forall k :: 0 <= k < |tail| ==> tail[k] as int < 0x80;
    Utf16Bmp(tail);
  }

  /** The placeholder is the loading text as Quill stores it. */
  lemma PlaceholderIsLoadingText()
    ensures Utf16(LoadingText) == Placeholder
  {
    assert LoadingText == "[\U{1F4F7}" + " Uploading image...]";
    Utf16Append("[\U{1F4F7}", " Uploading image...]");
    LoadingHead();
    LoadingTail();
  }

  /** `loadingText.length`: 22 characters take 23 positions. */
  lemma PlaceholderLength()
    ensures |Placeholder| == 23 && |LoadingText| == 22
    ensures forall k :: 0 <= k < |Placeholder| ==> Placeholder[k].Unit?
  {
  }

  /** How many positions of text `getText(index, 25)` reads when looking for the placeholder. */
  const CleanupWindow: nat := 25

  /** The cursor shift of an insertion made with source `'user'`: only a cursor after the index moves. */
  function ShiftForInsert(sel: Option<nat>, index: nat, n: nat): (r: Option<nat>)
    ensures r.None? <==> sel.None?
    ensures sel.Some? && sel.value <= index ==> r == sel
    ensures sel.Some? && sel.value > index ==> r == Some(sel.value + n)
  {
    if sel.Some? && sel.value > index then Some(sel.value + n) else sel
  }

  /** The cursor shift of a deletion: a cursor inside the deleted span moves to its start. */
  function ShiftForDelete(sel: Option<nat>, index: nat, n: nat): (r: Option<nat>)
    ensures r.None? <==> sel.None?
    ensures sel.Some? && sel.value < index ==> r == sel
    ensures sel.Some? && index <= sel.value <= index + n ==> r == Some(index)
    ensures sel.Some? && sel.value > index + n ==> r == Some(sel.value - n)
  {
    if sel.Some? && sel.value >= index then Some(if sel.value - n > index then sel.value - n else index) else sel
  }

  /** `insertText`/`insertEmbed` on a document: at the index, or at the end past it. */
  function Splice(doc: seq<Item>, index: nat, xs: seq<Item>): (r: seq<Item>)
    ensures |r| == |doc| + |xs|
    ensures index <= |doc| ==> r[..index] == doc[..index] && r[index..index + |xs|] == xs && r[index + |xs|..] == doc[index..]
    ensures index > |doc| ==> r == doc + xs
  {
    var c := if index <= |doc| then index else |doc|;
    doc[..c] + xs + doc[c..]
  }

  /** `deleteText` on a document: the positions of `[index, index + n)` that exist are removed. */
  function Cut(doc: seq<Item>, index: nat, n: nat): (r: seq<Item>)
    ensures index + n <= |doc| ==> r == doc[..index] + doc[index + n..]
    ensures index >= |doc| ==> r == doc
  {
    var c := if index <= |doc| then index else |doc|;
    var e := if c + n <= |doc| then c + n else |doc|;
    doc[..c] + doc[e..]
  }

  /** `getText(index, n)`: the text of those positions, embeds left out. */
  function GetText(doc: seq<Item>, index: nat, n: nat): (r: seq<Item>)
    ensures forall k :: 0 <= k < |r| ==> r[k].Unit?
    ensures |r| <= n
  {
    var c := if index <= |doc| then index else |doc|;
    var e := if c + n <= |doc| then c + n else |doc|;
    Filter(doc[c..e], IsUnit)
  }

  /** Deleting what was just inserted restores the document. */
  lemma CutSplice(doc: seq<Item>, index: nat, xs: seq<Item>)
    requires index <= |doc|
    ensures Cut(Splice(doc, index, xs), index, |xs|) == doc
  {
    var s := Splice(doc, index, xs);
    assert s[..index] + s[index + |xs|..] == doc[..index] + doc[index..];
    assert doc == doc[..index] + doc[index..];
  }

  /** A placeholder at the cleanup index is found by the cleanup's `getText`. */
  lemma CleanupFindsPlaceholder(doc: seq<Item>, index: nat)
    requires index <= |doc|
    ensures Includes(GetText(Splice(doc, index, Placeholder), index, CleanupWindow), Placeholder)
  {
    PlaceholderLength();
    var s := Splice(doc, index, Placeholder);
    var e := if index + CleanupWindow <= |s| then index + CleanupWindow else |s|;
    assert s[index..e] == Placeholder + s[index + 23..e];
    FilterAppend(Placeholder, s[index + 23..e], IsUnit);
    FilterKeepsAll(Placeholder, IsUnit);
  }

  /** Replacing the placeholder by the image and a line break. */
  lemma ImageReplacesPlaceholder(doc: seq<Item>, index: nat, url: string)
    requires index <= |doc|
    ensures Splice(Splice(Cut(Splice(doc, index, Placeholder), index, |Placeholder|), index, [Embed(url)]), index + 1, [Unit(10)])
      == doc[..index] + [Embed(url), Unit(10)] + doc[index..]
  {
    CutSplice(doc, index, Placeholder);
    var s := Splice(doc, index, [Embed(url)]);
    assert s == doc[..index] + [Embed(url)] + doc[index..];
    var t := Splice(s, index + 1, [Unit(10)]);
    assert t == s[..index + 1] + [Unit(10)] + s[index + 1..];
    assert s[..index + 1] == doc[..index] + [Embed(url)];
    assert s[index + 1..] == doc[index..];
  }

  /** The Quill instance, reduced to its document and its cursor. */
  class Editor {
    var doc: seq<Item>
    var selection: Option<nat>

    /** The cursor lies within the document. */
    predicate Valid()
      reads this
    {
      selection.Some? ==> selection.value <= |doc|
    }

    constructor (initial: seq<Item>)
      ensures doc == initial && selection == None && Valid()
    {
      doc := initial;
      selection := None;
    }

    /** `insertText(index, text, 'user')`. */
    method InsertText(index: nat, text: seq<Item>)
      requires Valid()
      modifies this
      ensures Valid()
      ensures doc == Splice(old(doc), index, text) && selection == ShiftForInsert(old(selection), index, |text|)
    {
      doc := Splice(doc, index, text);
      selection := ShiftForInsert(selection, index, |text|);
    }

    /** `insertEmbed(index, 'image', url, 'user')`. */
    method InsertEmbed(index: nat, url: string)
      requires Valid()
      modifies this
      ensures Valid()
      ensures doc == Splice(old(doc), index, [Embed(url)]) && selection == ShiftForInsert(old(selection), index, 1)
    {
      doc := Splice(doc, index, [Embed(url)]);
      selection := ShiftForInsert(selection, index, 1);
    }

    /** `deleteText(index, n)`. */
    method DeleteText(index: nat, n: nat)
      requires Valid()
      modifies this
      ensures Valid()
      ensures doc == Cut(old(doc), index, n) && selection == ShiftForDelete(old(selection), index, n)
    {
      doc := Cut(doc, index, n);
      selection := ShiftForDelete(selection, index, n);
    }

    /** `setSelection(index)`: the cursor, kept within the document. */
    method SetSelection(index: nat)
      requires Valid()
      modifies this
      ensures Valid()
      ensures doc == old(doc) && selection == Some(if index <= |doc| then index else |doc|)
    {
      selection := Some(if index <= |doc| then index else |doc|);
    }
  }

  /** `this.currentRange || this.quill.getSelection(true) || { index: this.quill.getLength() }`. */
  function InsertIndex(currentRange: Option<nat>, selection: Option<nat>, length: nat): (i: nat)
    ensures currentRange.Some? ==> i == currentRange.value
    ensures currentRange.None? && selection.Some? ==> i == selection.value
    ensures currentRange.None? && selection.None? ==> i == length
  {
    if currentRange.Some? then currentRange.value
    else if selection.Some? then selection.value
    else length
  }

  /** What `onImageEdit` receives: the file, its data URL and the handler whose `insertImage` finishes the job. */
  datatype EditRequest = EditRequest(file: File, imageUrl: string, onImageProcessed: ImageHandler)

  class ImageHandler {
    const editor: Editor
    var currentRange: Option<nat>
    /** The hidden file input is still attached to the page. */
    var inputAttached: bool

    /** The handler of an editor: no stored range, and its file input attached. */
    constructor (editor: Editor)
      ensures this.editor == editor && currentRange == None && inputAttached
    {
      this.editor := editor;
      currentRange := None;
      inputAttached := true;
    }

    /** `imageHandler`: the toolbar button stores the cursor before the file picker opens. */
    method ImageButton()
      modifies this
      ensures currentRange == editor.selection && inputAttached == old(inputAttached)
    {
      currentRange := editor.selection;
    }

    /**
     * `handleFileSelect`: with no file, or a file whose type does not start
     * with `image/`, the image editor is never asked; otherwise it is asked
     * with the file, its data URL and this handler.
     */
    method HandleFileSelect(file: Option<File>, dataUrl: string) returns (request: Option<EditRequest>)
      ensures request.Some? <==> file.Some? && IsImageType(file.value)
      ensures request.Some? ==> request.value == EditRequest(file.value, dataUrl, this)
    {
      request := None;
      if file.None? {
        return;
      }
      if !StartsWith(file.value.mime, "image/") {
        return;
      }
      request := Some(EditRequest(file.value, dataUrl, this));
    }

    /** The placeholder is inserted at `i` and the cursor put after it. */
    method ShowPlaceholder(i: nat)
      requires editor.Valid()
      modifies editor
      ensures editor.Valid() && editor.doc == Splice(old(editor.doc), i, Placeholder)
      ensures i <= |old(editor.doc)| ==>
        editor.doc == old(editor.doc)[..i] + Placeholder + old(editor.doc)[i..] && editor.selection == Some(i + |Placeholder|)
    {
      editor.InsertText(i, Placeholder);
      editor.SetSelection(i + |Placeholder|);
    }

    /** A reply naming a file: the placeholder at `i` gives way to the image and a line break, the cursor after both. */
    method ShowUploaded(i: nat, imageUrl: string, ghost doc0: seq<Item>)
      requires editor.Valid()
      modifies editor
      ensures editor.Valid()
      ensures i <= |doc0| && old(editor.doc) == Splice(doc0, i, Placeholder) ==>
        editor.doc == doc0[..i] + [Embed(imageUrl), Unit(10)] + doc0[i..] && editor.selection == Some(i + 2)
    {
      PlaceholderLength();
      editor.DeleteText(i, |Placeholder|);
      editor.InsertEmbed(i, imageUrl);
      editor.InsertText(i + 1, [Unit(10)]);
      editor.SetSelection(i + 2);
      if i <= |doc0| && old(editor.doc) == Splice(doc0, i, Placeholder) {
        ImageReplacesPlaceholder(doc0, i, imageUrl);
      }
    }

    /**
     * The catch path: the placeholder is looked for in the 25 positions at
     * the stored range or, without one, at the cursor, and deleted only if
     * found there.
     */
    method CleanUpPlaceholder()
      requires editor.Valid()
      modifies editor
      ensures editor.Valid()
      ensures var range := if currentRange.Some? then currentRange else old(editor.selection);
        var found := range.Some? && Includes(GetText(old(editor.doc), range.value, CleanupWindow), Placeholder);
        && editor.doc == (if found then Cut(old(editor.doc), range.value, |Placeholder|) else old(editor.doc))
        && editor.selection == (if found then ShiftForDelete(old(editor.selection), range.value, |Placeholder|) else old(editor.selection))
    {
      var range := if currentRange.Some? then currentRange else editor.selection;
      if range.Some? {
        var text := GetText(editor.doc, range.value, CleanupWindow);
        if Includes(text, Placeholder) {
          editor.DeleteText(range.value, |Placeholder|);
        }
      }
    }

    /**
     * `insertImage`. At index `i` (the stored range, else the cursor, else
     * the end) the placeholder is inserted and the cursor put after it
     * (`placed`, `placedCursor`). A reply naming a file replaces the
     * placeholder by the image and a line break, with the cursor after both;
     * a reply without one removes it again. When the upload throws, the
     * cleanup looks for the placeholder in the 25 positions at the stored
     * range or, without one, at the cursor, which then lies after the
     * placeholder; it is deleted only if found there. The stored range is
     * cleared on every path.
     */
    method InsertImage(reply: UploadReply) returns (ghost placed: seq<Item>, ghost placedCursor: Option<nat>)
      requires editor.Valid()
      modifies this, editor
      ensures editor.Valid() && currentRange == None && inputAttached == old(inputAttached)
      ensures var i := InsertIndex(old(currentRange), old(editor.selection), |old(editor.doc)|);
        i <= |old(editor.doc)| ==>
        && placed == old(editor.doc)[..i] + Placeholder + old(editor.doc)[i..]
        && placedCursor == Some(i + |Placeholder|)
        && (HasFilename(reply) ==>
              editor.doc == old(editor.doc)[..i] + [Embed(UploadedImageUrl(reply.filename.value)), Unit(10)] + old(editor.doc)[i..]
              && editor.selection == Some(i + 2))
        && (reply.Replied? && !HasFilename(reply) ==> editor.doc == old(editor.doc) && editor.selection == Some(i))
        && (reply.UploadThrew? && old(currentRange).Some? ==> editor.doc == old(editor.doc) && editor.selection == Some(i))
        && (reply.UploadThrew? && old(currentRange).None? ==>
              var at := i + |Placeholder|;
              editor.doc == (if Includes(GetText(placed, at, CleanupWindow), Placeholder) then Cut(placed, at, |Placeholder|) else placed))
    {
      var i := InsertIndex(currentRange, editor.selection, |editor.doc|);
      ghost var doc0 := editor.doc;
      ShowPlaceholder(i);
      placed, placedCursor := editor.doc, editor.selection;
      if i <= |doc0| {
        CutSplice(doc0, i, Placeholder);
      }
      match reply {
        case Replied(filename) =>
          if filename.Some? && filename.value != "" {
            ShowUploaded(i, UploadsBase + filename.value, doc0);
          } else {
            editor.DeleteText(i, |Placeholder|);
          }
        case UploadThrew =>
          CleanUpPlaceholder();
          if i <= |doc0| && currentRange.Some? {
            CleanupFindsPlaceholder(doc0, i);
          }
      }
      currentRange := None;
    }

    /** `destroy`: the file input is removed only while it is attached, so a second call does nothing. */
    method Destroy() returns (removed: bool)
      modifies this
      ensures removed <==> old(inputAttached)
      ensures !inputAttached && currentRange == old(currentRange)
    {
      removed := inputAttached;
      inputAttached := false;
    }
  }
}
