/**
 * The crop editor (ImageEditor.js): its crop, scale and rotation state, and
 * the geometry `generateDownload` draws the cropped image with.
 */
module ImageEditor {
  import opened Wrappers

  /** A crop's unit: `'%'` of the displayed image, or displayed pixels. */
  datatype CropUnit = Percent | Pixels

  /** A crop rectangle as the crop widget reports it. */
  datatype Crop = Crop(unit: CropUnit, x: real, y: real, width: real, height: real)

  /** A rectangle in pixels. */
  datatype Rect = Rect(x: real, y: real, width: real, height: real)

  /** The `<img>`'s intrinsic size and its laid-out size. */
  datatype ImageMetrics = ImageMetrics(naturalWidth: real, naturalHeight: real, width: real, height: real)

  /** The crop the editor opens with, and the one `resetCrop` restores: 90% of each side, centred. */
  const InitialCrop := Crop(Percent, 5.0, 5.0, 90.0, 90.0)

  /** The crop `fitToScreen` sets: the whole image. */
  const FitCrop := Crop(Percent, 0.0, 0.0, 100.0, 100.0)

  /** `handleRotate`'s update. */
  function Rotate(r: nat): (s: nat)
    ensures s < 360
    ensures r % 90 == 0 ==> s % 90 == 0
    ensures r < 270 ==> s == r + 90
  {
    (r + 90) % 360
  }

  /** From a right angle below a full turn, four rotations come back to it, through the other three. */
  lemma FourRotationsReturn(r: nat)
    requires r < 360 && r % 90 == 0
    ensures Rotate(Rotate(Rotate(Rotate(r)))) == r
    ensures {r, Rotate(r), Rotate(Rotate(r)), Rotate(Rotate(Rotate(r)))} == {0, 90, 180, 270}
  {
    assert r == 0 || r == 90 || r == 180 || r == 270;
  }

  /** Rotation from the initial 0 stays a right angle below a full turn after any number of steps. */
  function Rotations(n: nat): (r: nat)
    ensures r == 0 || r == 90 || r == 180 || r == 270
    ensures r == 90 * (n % 4)
  {
    if n == 0 then 0
    else
      var p := Rotations(n - 1);
      assert (n - 1) % 4 == 3 ==> n % 4 == 0;
      assert (n - 1) % 4 < 3 ==> n % 4 == (n - 1) % 4 + 1;
      Rotate(p)
  }

  /**
   * WebIDL's `unsigned long` conversion of a finite number assigned to a
   * canvas dimension: truncating toward zero and wrapping modulo 2^32.
   */
  function CanvasDim(v: real): (n: nat)
    ensures n < 0x1_0000_0000
    ensures 0.0 <= v < 0x1_0000_0000 as real ==> n == v.Floor
  {
    var t := if v >= 0.0 then v.Floor else -((-v).Floor);
    t % 0x1_0000_0000
  }

  /** A crop in displayed pixels: a `'%'` crop scaled by the displayed size. */
  function DisplayedRect(c: Crop, m: ImageMetrics): (r: Rect)
    ensures c.unit == Pixels ==> r == Rect(c.x, c.y, c.width, c.height)
  {
    match c.unit
    case Pixels => Rect(c.x, c.y, c.width, c.height)
    case Percent => Rect(c.x / 100.0 * m.width, c.y / 100.0 * m.height, c.width / 100.0 * m.width, c.height / 100.0 * m.height)
  }

  /** A displayed-pixel rectangle scaled to the image's intrinsic pixels. */
  function ToNatural(d: Rect, m: ImageMetrics): Rect
    requires m.width != 0.0 && m.height != 0.0
  {
    var sx := m.naturalWidth / m.width;
    var sy := m.naturalHeight / m.height;
    Rect(d.x * sx, d.y * sy, d.width * sx, d.height * sy)
  }

  /** The part of the intrinsic image a crop selects. */
  function SourceRect(c: Crop, m: ImageMetrics): (r: Rect)
    requires m.width != 0.0 && m.height != 0.0
    ensures c.unit == Pixels ==> r == SourceRectAsWritten(c, m)
  {
    ToNatural(DisplayedRect(c, m), m)
  }

  /** `drawImage`'s source rectangle as written: the crop's numbers times the scale, whatever its unit. */
  function SourceRectAsWritten(c: Crop, m: ImageMetrics): (r: Rect)
    requires m.width != 0.0 && m.height != 0.0
    ensures r.width * m.width == c.width * m.naturalWidth && r.height * m.height == c.height * m.naturalHeight
  {
    var sx := m.naturalWidth / m.width;
    var sy := m.naturalHeight / m.height;
    Rect(c.x * sx, c.y * sy, c.width * sx, c.height * sy)
  }

  /** 800×600 shown at 400×300 with the pixel crop (50, 50, 100, 100) draws (100, 100, 200, 200) of the source. */
  lemma HalfSizeExample()
    ensures SourceRect(Crop(Pixels, 50.0, 50.0, 100.0, 100.0), ImageMetrics(800.0, 600.0, 400.0, 300.0))
      == Rect(100.0, 100.0, 200.0, 200.0)
  {
    var m := ImageMetrics(800.0, 600.0, 400.0, 300.0);
    assert m.naturalWidth / m.width == 2.0;
    assert m.naturalHeight / m.height == 2.0;
  }

  /** A crop within the displayed image selects a part of the intrinsic image. */
  lemma SourceWithinImage(c: Crop, m: ImageMetrics)
    requires m.width > 0.0 && m.height > 0.0 && m.naturalWidth >= 0.0 && m.naturalHeight >= 0.0
    requires var d := DisplayedRect(c, m);
      0.0 <= d.x && 0.0 <= d.width && d.x + d.width <= m.width
      && 0.0 <= d.y && 0.0 <= d.height && d.y + d.height <= m.height
    ensures var r := SourceRect(c, m);
      0.0 <= r.x && r.x + r.width <= m.naturalWidth && 0.0 <= r.y && r.y + r.height <= m.naturalHeight
  {
    var d := DisplayedRect(c, m);
    var sx := m.naturalWidth / m.width;
    var sy := m.naturalHeight / m.height;
    assert m.width * sx == m.naturalWidth;
    assert m.height * sy == m.naturalHeight;
    assert (d.x + d.width) * sx <= m.width * sx;
    assert (d.y + d.height) * sy <= m.height * sy;
  }

  /** `fitToScreen`'s crop selects the whole intrinsic image. */
  lemma FitSelectsWholeImage(m: ImageMetrics)
    requires m.width != 0.0 && m.height != 0.0
    ensures SourceRect(FitCrop, m) == Rect(0.0, 0.0, m.naturalWidth, m.naturalHeight)
  {
    var sx := m.naturalWidth / m.width;
    var sy := m.naturalHeight / m.height;
    assert 100.0 / 100.0 * m.width * sx == m.naturalWidth;
    assert 100.0 / 100.0 * m.height * sy == m.naturalHeight;
  }

  /** The initial crop selects the centred 90% of the intrinsic image. */
  lemma InitialSelectsCentre(m: ImageMetrics)
    requires m.width != 0.0 && m.height != 0.0
    ensures SourceRect(InitialCrop, m)
      == Rect(m.naturalWidth / 20.0, m.naturalHeight / 20.0, m.naturalWidth * 9.0 / 10.0, m.naturalHeight * 9.0 / 10.0)
  {
    var sx := m.naturalWidth / m.width;
    var sy := m.naturalHeight / m.height;
    assert m.width * sx == m.naturalWidth;
    assert m.height * sy == m.naturalHeight;
  }

  /**
   * As written, the initial `'%'` crop of an 800×600 image shown at 400×300
   * is drawn from (10, 10, 180, 180) of the source instead of its centred
   * 90%, (40, 30, 720, 540).
   */
  lemma AsWrittenMisreadsPercent()
    ensures SourceRectAsWritten(InitialCrop, ImageMetrics(800.0, 600.0, 400.0, 300.0)) == Rect(10.0, 10.0, 180.0, 180.0)
    ensures SourceRect(InitialCrop, ImageMetrics(800.0, 600.0, 400.0, 300.0)) == Rect(40.0, 30.0, 720.0, 540.0)
  {
    InitialSelectsCentre(ImageMetrics(800.0, 600.0, 400.0, 300.0));
  }

  /**
   * What `generateDownload` does: it stops without a canvas or an image
   * handle, refuses a crop of zero width or height, and otherwise sizes the
   * canvas and draws the source rectangle onto (0, 0) at the same size. An
   * image laid out with zero width or height makes the scale infinite or
   * undefined, which leaves the canvas without pixels.
   */
  datatype Download =
    | MissingHandle
    | InvalidCrop
    | DegenerateImage
    | Drawn(canvasWidth: real, canvasHeight: real, source: Rect)

  /** `canvas.toBlob` delivers a blob only for a canvas with pixels, after the assigned sizes are converted. */
  predicate HasBlob(d: Download) {
    d.Drawn? && CanvasDim(d.canvasWidth) > 0 && CanvasDim(d.canvasHeight) > 0
  }

  /**
   * `generateDownload` as written, for the crop in use, the image (if its
   * handle is set), the canvas handle and the pixel ratio: the crop's numbers
   * are scaled by intrinsic over displayed size whatever their unit.
   */
  function GenerateDownloadAsWritten(image: Option<ImageMetrics>, canvasPresent: bool, c: Crop, pixelRatio: real): (d: Download)
    ensures d.MissingHandle? <==> !canvasPresent || image.None?
    ensures d.InvalidCrop? <==> canvasPresent && image.Some? && (c.width == 0.0 || c.height == 0.0)
    ensures d.DegenerateImage? <==>
      canvasPresent && image.Some? && c.width != 0.0 && c.height != 0.0 && (image.value.width == 0.0 || image.value.height == 0.0)
    ensures d.Drawn? ==> d.source == SourceRectAsWritten(c, image.value)
    ensures d.Drawn? ==> d.canvasWidth == d.source.width * pixelRatio && d.canvasHeight == d.source.height * pixelRatio
  {
    if !canvasPresent || image.None? then MissingHandle
    else if c.width == 0.0 || c.height == 0.0 then InvalidCrop
    else
      var m := image.value;
      if m.width == 0.0 || m.height == 0.0 then DegenerateImage
      else
        var sx := m.naturalWidth / m.width;
        var sy := m.naturalHeight / m.height;
        assert c.width * pixelRatio * sx == c.width * sx * pixelRatio;
        assert c.height * pixelRatio * sy == c.height * sy * pixelRatio;
        Drawn(c.width * pixelRatio * sx, c.height * pixelRatio * sy, SourceRectAsWritten(c, m))
  }

  /**
   * `generateDownload` corrected: the same checks, but the crop is first
   * converted to displayed pixels, so a `'%'` crop selects its share of the
   * image.
   */
  function GenerateDownload(image: Option<ImageMetrics>, canvasPresent: bool, c: Crop, pixelRatio: real): (d: Download)
    ensures d.MissingHandle? <==> !canvasPresent || image.None?
    ensures d.InvalidCrop? <==> canvasPresent && image.Some? && (c.width == 0.0 || c.height == 0.0)
    ensures d.DegenerateImage? <==>
      canvasPresent && image.Some? && c.width != 0.0 && c.height != 0.0 && (image.value.width == 0.0 || image.value.height == 0.0)
    ensures d.Drawn? ==> d.source == SourceRect(c, image.value)
    ensures d.Drawn? ==> d.canvasWidth == d.source.width * pixelRatio && d.canvasHeight == d.source.height * pixelRatio
  {
    if !canvasPresent || image.None? then MissingHandle
    else if c.width == 0.0 || c.height == 0.0 then InvalidCrop
    else
      var m := image.value;
      if m.width == 0.0 || m.height == 0.0 then DegenerateImage
      else
        var src := SourceRect(c, m);
        Drawn(src.width * pixelRatio, src.height * pixelRatio, src)
  }

  /** For a pixel crop the code's drawing and the corrected one coincide. */
  lemma PixelCropsAgree(image: Option<ImageMetrics>, canvasPresent: bool, c: Crop, pixelRatio: real)
    requires c.unit == Pixels
    ensures GenerateDownloadAsWritten(image, canvasPresent, c, pixelRatio) == GenerateDownload(image, canvasPresent, c, pixelRatio)
  {
    var a := GenerateDownloadAsWritten(image, canvasPresent, c, pixelRatio);
    var b := GenerateDownload(image, canvasPresent, c, pixelRatio);
    if a.Drawn? {
      assert b.Drawn?;
      assert a.source == b.source;
    }
  }

  /** A crop of zero area never yields a blob, as written or corrected. */
  lemma ZeroAreaNoBlob(image: Option<ImageMetrics>, canvasPresent: bool, c: Crop, pixelRatio: real)
    requires c.width == 0.0 || c.height == 0.0
    ensures !HasBlob(GenerateDownloadAsWritten(image, canvasPresent, c, pixelRatio))
    ensures !HasBlob(GenerateDownload(image, canvasPresent, c, pixelRatio))
  {
  }

  /** Corrected, on a 2× screen the whole of an 800×600 image gives a 1600×1200 canvas, which yields a blob. */
  lemma FitCanvasSize()
    ensures GenerateDownload(Some(ImageMetrics(800.0, 600.0, 400.0, 300.0)), true, FitCrop, 2.0)
      == Drawn(1600.0, 1200.0, Rect(0.0, 0.0, 800.0, 600.0))
    ensures HasBlob(GenerateDownload(Some(ImageMetrics(800.0, 600.0, 400.0, 300.0)), true, FitCrop, 2.0))
  {
    FitSelectsWholeImage(ImageMetrics(800.0, 600.0, 400.0, 300.0));
    assert CanvasDim(1600.0) == 1600 && CanvasDim(1200.0) == 1200;
  }

  /**
   * As written, the same fit crop reads 100 as displayed pixels: a 400×400
   * canvas drawn from the top-left 200×200 of the image.
   */
  lemma FitCanvasAsWritten()
    ensures GenerateDownloadAsWritten(Some(ImageMetrics(800.0, 600.0, 400.0, 300.0)), true, FitCrop, 2.0)
      == Drawn(400.0, 400.0, Rect(0.0, 0.0, 200.0, 200.0))
  {
    var m := ImageMetrics(800.0, 600.0, 400.0, 300.0);
    assert m.naturalWidth / m.width == 2.0;
    assert m.naturalHeight / m.height == 2.0;
  }

  class ImageEditorState {
    var crop: Crop
    var completedCrop: Option<Crop>
    var scale: real
    var rotate: nat

    /** The editor opens with the initial crop, nothing completed, scale 1 and no rotation. */
    constructor ()
      ensures crop == InitialCrop && completedCrop == None && scale == 1.0 && rotate == 0
    {
      crop := InitialCrop;
      completedCrop := None;
      scale := 1.0;
      rotate := 0;
    }

    /** `completedCrop || crop`. */
    function CropToUse(): (c: Crop)
      reads this
      ensures completedCrop.Some? ==> c == completedCrop.value
      ensures completedCrop.None? ==> c == crop
    {
      if completedCrop.Some? then completedCrop.value else crop
    }

    /** The crop widget's `onChange`. */
    method OnCropChange(c: Crop)
      modifies this
      ensures crop == c && completedCrop == old(completedCrop) && scale == old(scale) && rotate == old(rotate)
    {
      crop := c;
    }

    /** The crop widget's `onComplete`. */
    method OnCropComplete(c: Crop)
      modifies this
      ensures completedCrop == Some(c) && crop == old(crop) && scale == old(scale) && rotate == old(rotate)
    {
      completedCrop := Some(c);
    }

    /** `handleRotate`. */
    method HandleRotate()
      modifies this
      ensures rotate == Rotate(old(rotate))
      ensures crop == old(crop) && completedCrop == old(completedCrop) && scale == old(scale)
    {
      rotate := (rotate + 90) % 360;
    }

    /** `handleScaleChange`, with the slider's value already parsed. */
    method HandleScaleChange(value: real)
      modifies this
      ensures scale == value && crop == old(crop) && completedCrop == old(completedCrop) && rotate == old(rotate)
    {
      scale := value;
    }

    /** `resetCrop`: the initial crop again; a completed crop is kept and still wins. */
    method ResetCrop()
      modifies this
      ensures crop == InitialCrop
      ensures completedCrop == old(completedCrop) && scale == old(scale) && rotate == old(rotate)
    {
      crop := Crop(Percent, 5.0, 5.0, 90.0, 90.0);
    }

    /** `fitToScreen`: the whole image; a completed crop is kept and still wins. */
    method FitToScreen()
      modifies this
      ensures crop == FitCrop
      ensures completedCrop == old(completedCrop) && scale == old(scale) && rotate == old(rotate)
    {
      crop := Crop(Percent, 0.0, 0.0, 100.0, 100.0);
    }

    /**
     * `handleSave` with the corrected drawing: draws the crop in use and calls
     * `onSave` only when a blob comes out. Scale and rotation play no part in
     * the drawing.
     */
    method HandleSave(image: Option<ImageMetrics>, canvasPresent: bool, pixelRatio: real)
      returns (download: Download, onSaveCalled: bool)
      ensures download == GenerateDownload(image, canvasPresent, CropToUse(), pixelRatio)
      ensures onSaveCalled <==> HasBlob(download)
      ensures onSaveCalled ==> canvasPresent && image.Some? && CropToUse().width != 0.0 && CropToUse().height != 0.0
    {
      var c := if completedCrop.Some? then completedCrop.value else crop;
      download := GenerateDownload(image, canvasPresent, c, pixelRatio);
      onSaveCalled := download.Drawn? && CanvasDim(download.canvasWidth) > 0 && CanvasDim(download.canvasHeight) > 0;
    }
  }
}
