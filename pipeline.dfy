// What one pass of `processImage` computes, as a function of the captured
// frame, the processing flags and the external OpenCV capabilities.

module Pipeline {
  import opened Geometry
  import opened Masking

  /** A decoded bitmap or an OpenCV `Mat`; the control logic never inspects its pixels. */
  type Image(==)

  /** The OpenCV calls the preview makes, as opaque capabilities. */
  datatype OpenCv = OpenCv(
    bitmapToMat: Image -> Image,              // Utils.bitmapToMat
    transposeFlip: Image -> Image,            // Core.flip(mat.t(), mat, 0)
    detectFaces: Image -> seq<PixelRect>,     // detectMultiScale of the face cascade
    detectBodies: Image -> seq<PixelRect>,    // detectMultiScale of the full-body cascade
    ellipse: Rasterizer,                      // the pixels of Imgproc.ellipse
    bgraToBgr: Image -> Image,                // Imgproc.cvtColor(.., COLOR_BGRA2BGR)
    inpaint: (Image, Mask) -> Image)          // Photo.inpaint(.., 1, INPAINT_TELEA)

  /** The four processing switches of the preview. */
  datatype FlagKind = FaceDetection | BodyDetection | Sight | Inpainting

  datatype Flags = Flags(face: bool, body: bool, sight: bool, inpainting: bool)
  {
    /** `isSomeProcessingEnable`. */
    predicate SomeProcessing() {
      face || body || sight || inpainting
    }

    function Get(k: FlagKind): bool {
      match k
      case FaceDetection => face
      case BodyDetection => body
      case Sight => sight
      case Inpainting => inpainting
    }

    function With(k: FlagKind, b: bool): (f: Flags)
      ensures f.Get(k) == b
      ensures forall j :: j != k ==> f.Get(j) == Get(j)
    {
      match k
      case FaceDetection => this.(face := b)
      case BodyDetection => this.(body := b)
      case Sight => this.(sight := b)
      case Inpainting => this.(inpainting := b)
    }
  }

  const AllOff := Flags(false, false, false, false)

  lemma AllOffHasNoProcessing(f: Flags)
    ensures !f.SomeProcessing() <==> f == AllOff
    ensures forall k :: !AllOff.Get(k)
  {
  }

  /** Two flag sets agreeing on every kind are the same. */
  lemma FlagsExtensional(f: Flags, g: Flags)
    requires forall k :: f.Get(k) == g.Get(k)
    ensures f == g
  {
    assert f.Get(FaceDetection) == g.Get(FaceDetection);
    assert f.Get(BodyDetection) == g.Get(BodyDetection);
    assert f.Get(Sight) == g.Get(Sight);
    assert f.Get(Inpainting) == g.Get(Inpainting);
  }

  /** An `android.graphics.Bitmap` of a given size holding an image. */
  datatype Bitmap = Bitmap(width: int, height: int, content: Image)

  /** Everything one pass produces. `width` and `height` are the logical
      (orientation-corrected) frame size. */
  datatype Pass = Pass(
    width: Dimension, height: Dimension,
    image: Image,
    faces: seq<PixelRect>, bodies: seq<PixelRect>,
    targets: seq<Target>,
    mask: Mask,
    redacted: bool,
    output: Bitmap,
    detectorRuns: seq<TargetKind>)

  /** One target per rectangle, in order, all of kind `kind`. */
  function Targets(kind: TargetKind, w: Dimension, h: Dimension, rs: seq<PixelRect>): seq<Target>
  {
    if rs == [] then [] else Targets(kind, w, h, rs[..|rs| - 1]) + [Target(kind, ToUnitRect(w, h, rs[|rs| - 1]))]
  }

  lemma {:induction false} TargetsAt(kind: TargetKind, w: Dimension, h: Dimension, rs: seq<PixelRect>)
    ensures |Targets(kind, w, h, rs)| == |rs|
    ensures forall i :: 0 <= i < |rs| ==> Targets(kind, w, h, rs)[i] == Target(kind, ToUnitRect(w, h, rs[i]))
  {
    if rs != [] {
      TargetsAt(kind, w, h, rs[..|rs| - 1]);
    }
  }

  /** The working image: the frame converted to a `Mat`, transposed and flipped
      when the orientation swaps width and height. */
  function Normalize(cv: OpenCv, orientation: int, original: Image): Image {
    var mat := cv.bitmapToMat(original);
    if SwapsDimensions(orientation) then cv.transposeFlip(mat) else mat
  }

  /** A detector is invoked only when its kind is enabled. */
  function Detect(detector: Image -> seq<PixelRect>, enabled: bool, image: Image): seq<PixelRect> {
    if enabled then detector(image) else []
  }

  function TargetList(w: Dimension, h: Dimension, faces: seq<PixelRect>, bodies: seq<PixelRect>): seq<Target> {
    if |faces| > 0 || |bodies| > 0 then Targets(Face, w, h, faces) + Targets(Body, w, h, bodies) else []
  }

  /** The faces' targets first, then the bodies', each in detector order. */
  lemma TargetListOrder(w: Dimension, h: Dimension, faces: seq<PixelRect>, bodies: seq<PixelRect>)
    ensures |TargetList(w, h, faces, bodies)| == |faces| + |bodies|
    ensures forall i :: 0 <= i < |faces| ==>
      TargetList(w, h, faces, bodies)[i] == Target(Face, ToUnitRect(w, h, faces[i]))
    ensures forall j :: 0 <= j < |bodies| ==>
      TargetList(w, h, faces, bodies)[|faces| + j] == Target(Body, ToUnitRect(w, h, bodies[j]))
  {
    TargetsAt(Face, w, h, faces);
    TargetsAt(Body, w, h, bodies);
  }

  function RedactionMask(raster: Rasterizer, w: Dimension, h: Dimension, redacted: bool,
                         faces: seq<PixelRect>, bodies: seq<PixelRect>): Mask {
    var zero := Zeros(h, w);
    if redacted then PaintAll(raster, PaintAll(raster, zero, faces), bodies) else zero
  }

  function DetectorRuns(flags: Flags): seq<TargetKind> {
    (if flags.face then [Face] else []) + (if flags.body then [Body] else [])
  }

  /** A pass of `processImage` over the captured frame `original`. `pvWidth` and
      `pvHeight` are the camera's preview size; the bitmap it writes into has the
      size the preview was created with. */
  function ProcessFrame(cv: OpenCv, orientation: int, previewWidth: int, previewHeight: int,
                        pvWidth: Dimension, pvHeight: Dimension, flags: Flags, original: Image): Pass
  {
    var size := LogicalSize(pvWidth, pvHeight, orientation);
    var image := Normalize(cv, orientation, original);
    var faces := Detect(cv.detectFaces, flags.face, image);
    var bodies := Detect(cv.detectBodies, flags.body, image);
    var redacted := flags.inpainting && (|faces| > 0 || |bodies| > 0);
    var mask := RedactionMask(cv.ellipse, size.0, size.1, redacted, faces, bodies);
    var content := if redacted then cv.inpaint(cv.bgraToBgr(image), mask) else image;
    Pass(size.0, size.1, image, faces, bodies, TargetList(size.0, size.1, faces, bodies), mask, redacted,
         Bitmap(previewWidth, previewHeight, content), DetectorRuns(flags))
  }

  /** `ProcessFrame` assembled from the results of its stages. */
  lemma PassFromStages(cv: OpenCv, orientation: int, previewWidth: int, previewHeight: int,
                       pvWidth: Dimension, pvHeight: Dimension, flags: Flags, original: Image,
                       w: Dimension, h: Dimension, image: Image, faces: seq<PixelRect>, bodies: seq<PixelRect>)
    requires (w, h) == LogicalSize(pvWidth, pvHeight, orientation)
    requires image == Normalize(cv, orientation, original)
    requires faces == Detect(cv.detectFaces, flags.face, image)
    requires bodies == Detect(cv.detectBodies, flags.body, image)
    ensures var redacted := flags.inpainting && (|faces| > 0 || |bodies| > 0);
            var mask := RedactionMask(cv.ellipse, w, h, redacted, faces, bodies);
            (ProcessFrame(cv, orientation, previewWidth, previewHeight, pvWidth, pvHeight, flags, original)
             == Pass(w, h, image, faces, bodies, TargetList(w, h, faces, bodies), mask, redacted,
                     Bitmap(previewWidth, previewHeight,
                            if redacted then cv.inpaint(cv.bgraToBgr(image), mask) else image),
                     DetectorRuns(flags)))
  {
  }

  /** A disabled detector is never run and contributes nothing; an enabled one
      is run once, on the normalised image, and all its rectangles are kept. */
  lemma DetectorGating(cv: OpenCv, orientation: int, previewWidth: int, previewHeight: int,
                       pvWidth: Dimension, pvHeight: Dimension, flags: Flags, original: Image)
    ensures var p := ProcessFrame(cv, orientation, previewWidth, previewHeight, pvWidth, pvHeight, flags, original);
      && (Face in p.detectorRuns <==> flags.face)
      && (Body in p.detectorRuns <==> flags.body)
      && |p.detectorRuns| <= 2
      && p.faces == (if flags.face then cv.detectFaces(p.image) else [])
      && p.bodies == (if flags.body then cv.detectBodies(p.image) else [])
  {
  }

  /** The target list is rebuilt from scratch: one entry per face rectangle, then
      one per body rectangle, each in detector order, in logical-size unit coordinates. */
  lemma TargetOrder(cv: OpenCv, orientation: int, previewWidth: int, previewHeight: int,
                    pvWidth: Dimension, pvHeight: Dimension, flags: Flags, original: Image)
    ensures var p := ProcessFrame(cv, orientation, previewWidth, previewHeight, pvWidth, pvHeight, flags, original);
      && (p.width, p.height) == LogicalSize(pvWidth, pvHeight, orientation)
      && |p.targets| == |p.faces| + |p.bodies|
      && (forall i :: 0 <= i < |p.faces| ==>
            p.targets[i] == Target(Face, ToUnitRect(p.width, p.height, p.faces[i])))
      && (forall j :: 0 <= j < |p.bodies| ==>
            p.targets[|p.faces| + j] == Target(Body, ToUnitRect(p.width, p.height, p.bodies[j])))
  {
    var p := ProcessFrame(cv, orientation, previewWidth, previewHeight, pvWidth, pvHeight, flags, original);
    assert p.targets == TargetList(p.width, p.height, p.faces, p.bodies);
    TargetListOrder(p.width, p.height, p.faces, p.bodies);
  }

  /** Rectangles that lie inside the logical frame give unit rectangles inside [0,1]^2. */
  lemma TargetsInUnitSquare(cv: OpenCv, orientation: int, previewWidth: int, previewHeight: int,
                            pvWidth: Dimension, pvHeight: Dimension, flags: Flags, original: Image)
    requires var p := ProcessFrame(cv, orientation, previewWidth, previewHeight, pvWidth, pvHeight, flags, original);
      forall r :: r in p.faces + p.bodies ==> WithinFrame(r, p.width, p.height)
    ensures var p := ProcessFrame(cv, orientation, previewWidth, previewHeight, pvWidth, pvHeight, flags, original);
      forall t :: t in p.targets ==> WithinUnitSquare(t.box)
  {
    var p := ProcessFrame(cv, orientation, previewWidth, previewHeight, pvWidth, pvHeight, flags, original);
    TargetOrder(cv, orientation, previewWidth, previewHeight, pvWidth, pvHeight, flags, original);
    forall t | t in p.targets ensures WithinUnitSquare(t.box) {
      var i :| 0 <= i < |p.targets| && p.targets[i] == t;
      if i < |p.faces| {
        assert p.faces[i] in p.faces + p.bodies;
      } else {
        assert p.bodies[i - |p.faces|] == (p.faces + p.bodies)[i];
        assert p.targets[|p.faces| + (i - |p.faces|)] == t;
      }
    }
  }

  /** The mask is freshly zeroed at the logical size (height rows, width columns)
      and painted only when inpainting is on and something was detected; then it
      holds one ellipse per face and per body rectangle, in any order. */
  lemma MaskOfPass(cv: OpenCv, orientation: int, previewWidth: int, previewHeight: int,
                   pvWidth: Dimension, pvHeight: Dimension, flags: Flags, original: Image)
    ensures var p := ProcessFrame(cv, orientation, previewWidth, previewHeight, pvWidth, pvHeight, flags, original);
      && p.mask.rows == p.height && p.mask.cols == p.width
      && (p.redacted <==> flags.inpainting && (|p.faces| > 0 || |p.bodies| > 0))
      && (!p.redacted ==> p.mask.painted == {})
      && (p.redacted ==>
            && p.mask == PaintAll(cv.ellipse, Zeros(p.height, p.width), p.faces + p.bodies)
            && p.mask == PaintAll(cv.ellipse, Zeros(p.height, p.width), p.bodies + p.faces))
  {
    var p := ProcessFrame(cv, orientation, previewWidth, previewHeight, pvWidth, pvHeight, flags, original);
    var zero := Zeros(p.height, p.width);
    PaintAllCovers(cv.ellipse, PaintAll(cv.ellipse, zero, p.faces), p.bodies, (0, 0));
    PaintAllCovers(cv.ellipse, zero, p.faces, (0, 0));
    if p.redacted {
      PaintAllAppend(cv.ellipse, zero, p.faces, p.bodies);
      PaintOrderIrrelevant(cv.ellipse, zero, p.faces + p.bodies, p.bodies + p.faces);
    }
  }

  /** With both detectors off: no detector runs, no targets, an all-zero mask and
      the normalised frame passed through. */
  lemma DisabledDetectorsDoNothing(cv: OpenCv, orientation: int, previewWidth: int, previewHeight: int,
                                   pvWidth: Dimension, pvHeight: Dimension, flags: Flags, original: Image)
    requires !flags.face && !flags.body
    ensures var p := ProcessFrame(cv, orientation, previewWidth, previewHeight, pvWidth, pvHeight, flags, original);
      p.detectorRuns == [] && p.targets == [] && p.mask.painted == {} && !p.redacted && p.output.content == p.image
  {
  }

  /** When nothing is detected, turning inpainting on or off gives the very same pass:
      redaction with no targets is the passthrough. */
  lemma NothingDetectedIsPassthrough(cv: OpenCv, orientation: int, previewWidth: int, previewHeight: int,
                                     pvWidth: Dimension, pvHeight: Dimension, flags: Flags, original: Image)
    requires var p := ProcessFrame(cv, orientation, previewWidth, previewHeight, pvWidth, pvHeight, flags, original);
      p.faces == [] && p.bodies == []
    ensures ProcessFrame(cv, orientation, previewWidth, previewHeight, pvWidth, pvHeight, flags.(inpainting := true), original)
         == ProcessFrame(cv, orientation, previewWidth, previewHeight, pvWidth, pvHeight, flags.(inpainting := false), original)
    ensures ProcessFrame(cv, orientation, previewWidth, previewHeight, pvWidth, pvHeight, flags, original).output.content
         == ProcessFrame(cv, orientation, previewWidth, previewHeight, pvWidth, pvHeight, flags, original).image
  {
  }

  /** The processed bitmap keeps the un-swapped preview size while the mask takes
      the swapped one: under a 90 or 270 degree orientation of a non-square frame
      the two disagree. */
  lemma BitmapAndMaskSizesDisagree(cv: OpenCv, orientation: int, pvWidth: Dimension, pvHeight: Dimension,
                                   flags: Flags, original: Image)
    requires SwapsDimensions(orientation) && pvWidth != pvHeight
    ensures var p := ProcessFrame(cv, orientation, pvWidth, pvHeight, pvWidth, pvHeight, flags, original);
      p.output.width == p.mask.rows && p.output.height == p.mask.cols && p.output.width != p.mask.cols
  {
    MaskOfPass(cv, orientation, pvWidth, pvHeight, pvWidth, pvHeight, flags, original);
  }

  /** At orientation 0 nothing is swapped or transposed. */
  lemma UprightFrameIsNotRotated(cv: OpenCv, previewWidth: int, previewHeight: int,
                                 pvWidth: Dimension, pvHeight: Dimension, flags: Flags, original: Image)
    ensures var p := ProcessFrame(cv, 0, previewWidth, previewHeight, pvWidth, pvHeight, flags, original);
      p.width == pvWidth && p.height == pvHeight && p.image == cv.bitmapToMat(original)
  {
    SwapsAtOddQuarterTurns();
  }
}
