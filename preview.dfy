// HumanDetectionCameraPreview: the processing flags, the bound camera, and the
// per-frame bookkeeping of `processImage`.

module CameraPreview {
  import opened Wrappers
  import JavaInt
  import opened Geometry
  import opened Masking
  import opened Pipeline

  /** A bound `android.hardware.Camera`: its id and negotiated preview size. */
  datatype CameraSession = CameraSession(id: int, width: Dimension, height: Dimension)

  // ---------------------------------------------------------------------
  // Binding the camera in `surfaceCreated`

  /** The guard as written: `mCameraInfo <= Camera.getNumberOfCameras()`. */
  predicate BindGuardAsWritten(cameraId: int, numberOfCameras: int) {
    cameraId <= numberOfCameras
  }

  /** Camera ids run from 0 to `numberOfCameras - 1`; only those can be opened. */
  predicate CanOpenCamera(cameraId: int, numberOfCameras: int) {
    0 <= cameraId < numberOfCameras
  }

  /** The front-facing id 1 on a device with a single camera passes the guard
      as written, and `Camera.open(1)` then has no camera to open. */
  lemma AsWrittenGuardAdmitsMissingCamera()
    ensures BindGuardAsWritten(1, 1) && !CanOpenCamera(1, 1)
  {
  }

  /** For the non-negative ids the activity uses, the corrected guard agrees with
      the written one everywhere except at `cameraId == numberOfCameras`. */
  lemma CorrectedGuardDiffersOnlyAtCount(cameraId: int, numberOfCameras: int)
    requires cameraId >= 0
    ensures CanOpenCamera(cameraId, numberOfCameras) ==> BindGuardAsWritten(cameraId, numberOfCameras)
    ensures BindGuardAsWritten(cameraId, numberOfCameras) && !CanOpenCamera(cameraId, numberOfCameras)
        <==> cameraId == numberOfCameras
  {
  }

  // ---------------------------------------------------------------------

  class HumanDetectionCameraPreview {
    const previewWidth: Dimension
    const previewHeight: Dimension
    const displayOrientation: int
    const cv: OpenCv
    var cameraInfo: int
    var faceDetectionEnable: bool
    var bodyDetectionEnable: bool
    var sightOn: bool
    var inpaintingOn: bool
    var previewWorking: bool
    var camera: Option<CameraSession>
    var targets: seq<Target>
    var originalBitmap: Option<Image>
    var processedBitmap: Option<Bitmap>
    var imageMat: Option<Image>
    var maskMat: Option<Mask>
    /** Every detector invocation, in order (the model's record of calls into OpenCV). */
    ghost var detectorCalls: seq<TargetKind>

    /** The preview only runs on a bound camera, and the processed bitmap always
        has the size the preview was created with. */
    ghost predicate Valid()
      reads this`previewWorking, this`camera, this`processedBitmap
    {
      (previewWorking ==> camera.Some?) && BitmapSized()
    }

    ghost predicate BitmapSized()
      reads this`processedBitmap
    {
      processedBitmap.Some? ==>
        processedBitmap.value.width == previewWidth && processedBitmap.value.height == previewHeight
    }

    /** What `processImage` publishes: the targets, the working image, the mask,
        the output bitmap, and the log of detector calls. */
    ghost function Published(): (seq<Target>, Option<Image>, Option<Mask>, Option<Bitmap>, seq<TargetKind>)
      reads this`targets, this`imageMat, this`maskMat, this`processedBitmap, this`detectorCalls
    {
      (targets, imageMat, maskMat, processedBitmap, detectorCalls)
    }

    function CurrentFlags(): Flags
      reads this`faceDetectionEnable, this`bodyDetectionEnable, this`sightOn, this`inpaintingOn
    {
      Flags(faceDetectionEnable, bodyDetectionEnable, sightOn, inpaintingOn)
    }

    /** The published pipeline state is that of pass `p`. */
    ghost predicate Displays(p: Pass)
      reads this`imageMat, this`targets, this`maskMat, this`processedBitmap
    {
      imageMat == Some(p.image) && targets == p.targets && maskMat == Some(p.mask) && processedBitmap == Some(p.output)
    }

    /** The pass over the last captured frame at the bound camera's preview size. */
    ghost function CurrentPass(): Pass
      requires camera.Some? && originalBitmap.Some?
      reads this
    {
      ProcessFrame(cv, displayOrientation, previewWidth, previewHeight,
                   camera.value.width, camera.value.height, CurrentFlags(), originalBitmap.value)
    }

    ghost predicate ShowsCurrentFrame()
      reads this
    {
      camera.Some? && originalBitmap.Some? ==> Displays(CurrentPass())
    }

    constructor (previewWidth: Dimension, previewHeight: Dimension, displayOrientation: int, cameraInfo: int,
                 faceDetectionEnable: bool, bodyDetectionEnable: bool, sightOn: bool, inpaintingOn: bool,
                 cv: OpenCv)
      ensures Valid()
      ensures this.previewWidth == previewWidth && this.previewHeight == previewHeight
      ensures this.displayOrientation == displayOrientation && this.cameraInfo == cameraInfo && this.cv == cv
      ensures CurrentFlags() == Flags(faceDetectionEnable, bodyDetectionEnable, sightOn, inpaintingOn)
      ensures !previewWorking && camera.None? && targets == []
      ensures originalBitmap.None? && processedBitmap.None? && imageMat.None? && maskMat.None?
      ensures detectorCalls == []
    {
      this.previewWidth := previewWidth;
      this.previewHeight := previewHeight;
      this.displayOrientation := displayOrientation;
      this.cv := cv;
      this.cameraInfo := cameraInfo;
      this.faceDetectionEnable := faceDetectionEnable;
      this.bodyDetectionEnable := bodyDetectionEnable;
      this.sightOn := sightOn;
      this.inpaintingOn := inpaintingOn;
      previewWorking := false;
      camera := None;
      targets := [];
      originalBitmap := None;
      processedBitmap := None;
      imageMat := None;
      maskMat := None;
      detectorCalls := [];
    }

    /** `isSomeProcessingEnable`: some processing flag is on. */
    function IsSomeProcessingEnable(): (b: bool)
      reads this`faceDetectionEnable, this`bodyDetectionEnable, this`sightOn, this`inpaintingOn
      ensures b == CurrentFlags().SomeProcessing()
    {
      faceDetectionEnable || bodyDetectionEnable || sightOn || inpaintingOn
    }

    method SetFaceDetectionEnable(b: bool)
      requires Valid()
      modifies this`faceDetectionEnable
      ensures Valid() && CurrentFlags() == old(CurrentFlags()).With(FaceDetection, b)
    {
      faceDetectionEnable := b;
    }

    method SetBodyDetectionEnable(b: bool)
      requires Valid()
      modifies this`bodyDetectionEnable
      ensures Valid() && CurrentFlags() == old(CurrentFlags()).With(BodyDetection, b)
    {
      bodyDetectionEnable := b;
    }

    method SetSightOn(b: bool)
      requires Valid()
      modifies this`sightOn
      ensures Valid() && CurrentFlags() == old(CurrentFlags()).With(Sight, b)
    {
      sightOn := b;
    }

    method SetInpaintingOn(b: bool)
      requires Valid()
      modifies this`inpaintingOn
      ensures Valid() && CurrentFlags() == old(CurrentFlags()).With(Inpainting, b)
    {
      inpaintingOn := b;
    }

    /** Clears the four processing flags in one step; nothing else changes. */
    method UnsetAll()
      requires Valid()
      modifies this`faceDetectionEnable, this`bodyDetectionEnable, this`sightOn, this`inpaintingOn
      ensures Valid() && CurrentFlags() == AllOff && !IsSomeProcessingEnable()
    {
      faceDetectionEnable, bodyDetectionEnable, sightOn, inpaintingOn := false, false, false, false;
    }

    /** Starts the camera's preview if a camera is bound; otherwise does nothing. */
    method StartPreview()
      requires Valid()
      modifies this`previewWorking
      ensures Valid()
      ensures previewWorking == (camera.Some? || old(previewWorking))
      ensures camera.None? ==> previewWorking == old(previewWorking)
    {
      if camera.Some? {
        previewWorking := true;
      }
    }

    /** Stops the camera's preview if a camera is bound; otherwise does nothing. */
    method StopPreview()
      requires Valid()
      modifies this`previewWorking
      ensures Valid()
      ensures !previewWorking
      ensures camera.None? ==> previewWorking == old(previewWorking)
    {
      if camera.Some? {
        previewWorking := false;
      }
    }

    /** Stops and releases the bound camera, if any. */
    method CloseCamera()
      requires Valid()
      modifies this`camera, this`previewWorking
      ensures Valid()
      ensures camera.None? && !previewWorking
      ensures old(camera).None? ==> previewWorking == old(previewWorking)
    {
      if camera.Some? {
        StopPreview();
        camera := None;
      }
    }

    /** `surfaceCreated` with the camera-id guard corrected: the camera is opened
        (at the preview size) only when its id names an existing camera. */
    method SurfaceCreated(numberOfCameras: int)
      requires Valid()
      modifies this`camera
      ensures Valid()
      ensures camera == if CanOpenCamera(cameraInfo, numberOfCameras)
                        then Some(CameraSession(cameraInfo, previewWidth, previewHeight))
                        else old(camera)
      ensures camera.Some? && camera != old(camera) ==> 0 <= camera.value.id < numberOfCameras
    {
      if CanOpenCamera(cameraInfo, numberOfCameras) {
        camera := Some(CameraSession(cameraInfo, previewWidth, previewHeight));
      }
    }

    /** Releases the per-session buffers and empties the target list. */
    method CvCleanUp()
      requires Valid()
      modifies this`imageMat, this`maskMat, this`processedBitmap, this`targets
      ensures Valid()
      ensures imageMat.None? && maskMat.None? && processedBitmap.None? && targets == []
    {
      imageMat := None;
      maskMat := None;
      processedBitmap := None;
      targets := [];
    }

    method SurfaceChanged()
      requires Valid()
      modifies this`imageMat, this`maskMat, this`processedBitmap, this`targets, this`previewWorking
      ensures Valid()
      ensures imageMat.None? && maskMat.None? && processedBitmap.None? && targets == []
      ensures previewWorking == (camera.Some? || old(previewWorking))
    {
      CvCleanUp();
      StartPreview();
    }

    method SurfaceDestroyed()
      requires Valid()
      modifies this`imageMat, this`maskMat, this`processedBitmap, this`targets, this`camera, this`previewWorking
      ensures Valid()
      ensures imageMat.None? && maskMat.None? && processedBitmap.None? && targets == []
      ensures camera.None? && !previewWorking
    {
      CvCleanUp();
      CloseCamera();
    }

    /** `onPreviewFrame`: the bound camera delivers a frame, `None` when decoding
        it to a bitmap failed. It replaces the kept frame and is processed at the
        camera's preview size; a failed decode leaves the published state alone. */
    method OnPreviewFrame(frame: Option<Image>)
      requires Valid() && camera.Some?
      modifies this`originalBitmap, this`imageMat, this`maskMat, this`processedBitmap, this`targets, this`detectorCalls
      ensures Valid() && originalBitmap == frame
      ensures ShowsCurrentFrame()
      ensures frame.Some? ==> detectorCalls == old(detectorCalls) + CurrentPass().detectorRuns
      ensures frame.None? ==> Published() == old(Published())
    {
      originalBitmap := frame;
      ProcessImage(camera.value.width, camera.value.height);
    }

    /** `reprocess`: runs a pass at the bound camera's preview size. With no
        camera bound the source dereferences null; the model reports `ok == false`
        and changes nothing. */
    method Reprocess() returns (ok: bool)
      requires Valid()
      modifies this`imageMat, this`maskMat, this`processedBitmap, this`targets, this`detectorCalls
      ensures Valid() && ok == camera.Some?
      ensures ok ==> ShowsCurrentFrame()
      ensures !ok || originalBitmap.None? ==>
        && imageMat == old(imageMat) && maskMat == old(maskMat) && processedBitmap == old(processedBitmap)
        && targets == old(targets) && detectorCalls == old(detectorCalls)
    {
      ok := camera.Some?;
      if ok {
        ProcessImage(camera.value.width, camera.value.height);
      }
    }

    /** `processImage`: with no captured frame nothing changes; otherwise the
        published state becomes that of one pass over the frame. */
    method ProcessImage(pvWidth: Dimension, pvHeight: Dimension)
      requires BitmapSized()
      modifies this`imageMat, this`maskMat, this`processedBitmap, this`targets, this`detectorCalls
      ensures BitmapSized()
      ensures originalBitmap.None? ==>
        && imageMat == old(imageMat) && maskMat == old(maskMat) && processedBitmap == old(processedBitmap)
        && targets == old(targets) && detectorCalls == old(detectorCalls)
      ensures originalBitmap.Some? ==>
        var p := ProcessFrame(cv, displayOrientation, previewWidth, previewHeight,
                              pvWidth, pvHeight, CurrentFlags(), originalBitmap.value);
        Displays(p) && detectorCalls == old(detectorCalls) + p.detectorRuns
    {
      if originalBitmap.None? {
        return;
      }
      var w, h, image := NormalizeFrame(pvWidth, pvHeight);
      var faceRects, bodyRects := RunDetectors(image);
      var somethingDetected := |faceRects| > 0 || |bodyRects| > 0;
      PublishTargets(w, h, faceRects, bodyRects);
      var redacted := inpaintingOn && somethingDetected;
      BuildMask(w, h, redacted, faceRects, bodyRects);
      PublishBitmap(image, redacted);
      PassFromStages(cv, displayOrientation, previewWidth, previewHeight, pvWidth, pvHeight,
                     CurrentFlags(), originalBitmap.value, w, h, image, faceRects, bodyRects);
    }

    /** The first stage of `processImage`: the captured frame as a `Mat`, turned
        upright, with the logical size it then has. */
    method NormalizeFrame(pvWidth: Dimension, pvHeight: Dimension) returns (w: Dimension, h: Dimension, image: Image)
      requires originalBitmap.Some?
      modifies this`imageMat
      ensures imageMat == Some(image)
      ensures image == Normalize(cv, displayOrientation, originalBitmap.value)
      ensures (w, h) == LogicalSize(pvWidth, pvHeight, displayOrientation)
    {
      imageMat := Some(cv.bitmapToMat(originalBitmap.value));
      w, h := pvWidth, pvHeight;
      if JavaInt.Rem(displayOrientation - 90, 180) == 0 {
        w, h := pvHeight, pvWidth;
        imageMat := Some(cv.transposeFlip(imageMat.value));
      }
      image := imageMat.value;
    }

    /** The detection stage of `processImage`: each enabled cascade runs once. */
    method RunDetectors(image: Image) returns (faceRects: seq<PixelRect>, bodyRects: seq<PixelRect>)
      modifies this`detectorCalls
      ensures faceRects == Detect(cv.detectFaces, faceDetectionEnable, image)
      ensures bodyRects == Detect(cv.detectBodies, bodyDetectionEnable, image)
      ensures detectorCalls == old(detectorCalls) + DetectorRuns(CurrentFlags())
    {
      faceRects := [];
      if faceDetectionEnable {
        faceRects := cv.detectFaces(image);
        detectorCalls := detectorCalls + [Face];
      }
      bodyRects := [];
      if bodyDetectionEnable {
        bodyRects := cv.detectBodies(image);
        detectorCalls := detectorCalls + [Body];
      }
    }

    /** The target list of a pass: cleared, then filled only when something was detected. */
    method PublishTargets(w: Dimension, h: Dimension, faceRects: seq<PixelRect>, bodyRects: seq<PixelRect>)
      modifies this`targets
      ensures targets == TargetList(w, h, faceRects, bodyRects)
    {
      targets := [];
      if |faceRects| > 0 || |bodyRects| > 0 {
        AddTargets(w, h, faceRects, bodyRects);
        assert [] + Targets(Face, w, h, faceRects) == Targets(Face, w, h, faceRects);
      }
    }

    /** The mask of a pass: a zero mask of the logical size, painted only when redacting. */
    method BuildMask(w: Dimension, h: Dimension, redacted: bool, faceRects: seq<PixelRect>, bodyRects: seq<PixelRect>)
      modifies this`maskMat
      ensures maskMat == Some(RedactionMask(cv.ellipse, w, h, redacted, faceRects, bodyRects))
    {
      maskMat := Some(Zeros(h, w));
      if redacted {
        AddMasks(faceRects, bodyRects);
      }
    }

    /** The last stage of `processImage`: the inpainted image when redacting,
        otherwise the working image, written into a bitmap of the preview size. */
    method PublishBitmap(image: Image, redacted: bool)
      requires maskMat.Some? && BitmapSized()
      modifies this`processedBitmap
      ensures processedBitmap == Some(Bitmap(previewWidth, previewHeight,
                                            if redacted then cv.inpaint(cv.bgraToBgr(image), maskMat.value) else image))
    {
      var content := image;
      if redacted {
        content := cv.inpaint(cv.bgraToBgr(image), maskMat.value);
      }
      var bitmapWidth, bitmapHeight := previewWidth as int, previewHeight as int;
      if processedBitmap.Some? {
        bitmapWidth, bitmapHeight := processedBitmap.value.width, processedBitmap.value.height;
      }
      processedBitmap := Some(Bitmap(bitmapWidth, bitmapHeight, content));
    }

    /** The two loops of `processImage` that append the face targets, then the body targets. */
    method AddTargets(w: Dimension, h: Dimension, faceRects: seq<PixelRect>, bodyRects: seq<PixelRect>)
      modifies this`targets
      ensures targets == old(targets) + Targets(Face, w, h, faceRects) + Targets(Body, w, h, bodyRects)
    {
      for i := 0 to |faceRects|
        invariant targets == old(targets) + Targets(Face, w, h, faceRects[..i])
      {
        AddTarget(w, h, faceRects[i], Face);
        assert faceRects[..i + 1][..i] == faceRects[..i];
      }
      assert faceRects[..|faceRects|] == faceRects;
      for i := 0 to |bodyRects|
        invariant targets == old(targets) + Targets(Face, w, h, faceRects) + Targets(Body, w, h, bodyRects[..i])
      {
        AddTarget(w, h, bodyRects[i], Body);
        assert bodyRects[..i + 1][..i] == bodyRects[..i];
      }
      assert bodyRects[..|bodyRects|] == bodyRects;
    }

    /** The two loops of `processImage` that paint an ellipse per face, then per body. */
    method AddMasks(faceRects: seq<PixelRect>, bodyRects: seq<PixelRect>)
      requires maskMat.Some?
      modifies this`maskMat
      ensures maskMat == Some(PaintAll(cv.ellipse, PaintAll(cv.ellipse, old(maskMat).value, faceRects), bodyRects))
    {
      ghost var start := maskMat.value;
      for i := 0 to |faceRects|
        invariant maskMat == Some(PaintAll(cv.ellipse, start, faceRects[..i]))
      {
        AddMask(faceRects[i]);
        assert faceRects[..i + 1][..i] == faceRects[..i];
      }
      assert faceRects[..|faceRects|] == faceRects;
      for i := 0 to |bodyRects|
        invariant maskMat == Some(PaintAll(cv.ellipse, PaintAll(cv.ellipse, start, faceRects), bodyRects[..i]))
      {
        AddMask(bodyRects[i]);
        assert bodyRects[..i + 1][..i] == bodyRects[..i];
      }
      assert bodyRects[..|bodyRects|] == bodyRects;
    }

    /** `addTarget`: appends the rectangle in unit coordinates of the logical size. */
    method AddTarget(w: Dimension, h: Dimension, r: PixelRect, kind: TargetKind)
      modifies this`targets
      ensures targets == old(targets) + [Target(kind, ToUnitRect(w, h, r))]
    {
      var left := r.x as real / w as real;
      var top := r.y as real / h as real;
      var right := left + r.width as real / w as real;
      var bottom := top + r.height as real / h as real;
      targets := targets + [Target(kind, UnitRect(left, top, right, bottom))];
    }

    /** `addMask`: paints the rectangle's ellipse into the current mask. */
    method AddMask(r: PixelRect)
      requires maskMat.Some?
      modifies this`maskMat
      ensures maskMat == Some(Paint(cv.ellipse, old(maskMat).value, r))
    {
      maskMat := Some(Paint(cv.ellipse, maskMat.value, r));
    }
  }
}
