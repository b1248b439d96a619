// MainActivity: the check boxes and buttons that drive the preview, the camera
// facing and resolution it is rebuilt with, and the resolution spinner's index.

module Activity {
  import opened Wrappers
  import opened Geometry
  import opened Pipeline
  import opened Confirm
  import opened CameraPreview

  /** `Camera.CameraInfo.CAMERA_FACING_BACK` and `CAMERA_FACING_FRONT`. */
  const CAMERA_FACING_BACK: int := 0
  const CAMERA_FACING_FRONT: int := 1

  /** The camera switch: back-facing becomes front-facing, anything else back-facing. */
  function ToggledFacing(cameraInfo: int): (r: int)
    ensures r == CAMERA_FACING_BACK || r == CAMERA_FACING_FRONT
    ensures r == CAMERA_FACING_FRONT <==> cameraInfo == CAMERA_FACING_BACK
  {
    if cameraInfo == CAMERA_FACING_BACK then CAMERA_FACING_FRONT else CAMERA_FACING_BACK
  }

  /** Two presses of the switch come back to a facing the activity can hold. */
  lemma ToggleTwiceRestores(cameraInfo: int)
    requires cameraInfo == CAMERA_FACING_BACK || cameraInfo == CAMERA_FACING_FRONT
    ensures ToggledFacing(ToggledFacing(cameraInfo)) == cameraInfo
  {
  }

  /** A `Camera.Size` the camera supports. */
  datatype CameraSize = CameraSize(width: Dimension, height: Dimension)

  /** The resolution spinner's selection guard: a size is taken only from a
      known list and a position inside it. */
  function ResolutionChoice(sizes: Option<seq<CameraSize>>, position: nat): (r: Option<CameraSize>)
    ensures r.Some? <==> sizes.Some? && position < |sizes.value|
    ensures r.Some? ==> r.value in sizes.value && r.value == sizes.value[position]
  {
    if sizes.Some? && position < |sizes.value| then Some(sizes.value[position]) else None
  }

  /** The spinner position of the current size: the last entry equal to it, and
      0 when there is none or the current size is unknown. */
  function MatchIndex(sizes: seq<CameraSize>, current: Option<CameraSize>): (i: nat)
    ensures (exists j :: 0 <= j < |sizes| && Some(sizes[j]) == current) ==>
      i < |sizes| && Some(sizes[i]) == current && forall j :: i < j < |sizes| ==> Some(sizes[j]) != current
    ensures (forall j :: 0 <= j < |sizes| ==> Some(sizes[j]) != current) ==> i == 0
  {
    if sizes == [] then 0
    else if Some(sizes[|sizes| - 1]) == current then |sizes| - 1
    else
      var init := sizes[..|sizes| - 1];
      assert forall j :: 0 <= j < |init| ==> init[j] == sizes[j];
      MatchIndex(init, current)
  }

  /** The loop in the size-list callback that walks the supported sizes and
      keeps the position of each one equal to the current size. */
  method SpinnerIndex(sizes: Option<seq<CameraSize>>, current: Option<CameraSize>) returns (index: nat)
    ensures index == if sizes.Some? then MatchIndex(sizes.value, current) else 0
  {
    index := 0;
    if sizes.Some? {
      var list := sizes.value;
      var i := 0;
      while i < |list|
        invariant 0 <= i <= |list|
        invariant index == MatchIndex(list[..i], current)
      {
        var size := list[i];
        if current.Some? && size.width == current.value.width && size.height == current.value.height {
          index := i;
        }
        assert list[..i + 1][..i] == list[..i];
        i := i + 1;
      }
      assert list[..i] == list;
    }
  }

  /** Selecting the position the callback computed picks the current size again. */
  lemma SpinnerIndexSelectsCurrent(sizes: seq<CameraSize>, current: CameraSize)
    requires current in sizes
    ensures ResolutionChoice(Some(sizes), MatchIndex(sizes, Some(current))) == Some(current)
  {
    var j :| 0 <= j < |sizes| && sizes[j] == current;
    assert Some(sizes[j]) == Some(current);
  }

  /** The adapter holds one entry per size, or the single "cannot change" entry
      when the list is unknown; the spinner is set only to a position it holds. */
  function AdapterCount(sizes: Option<seq<CameraSize>>): nat {
    if sizes.Some? then |sizes.value| else 1
  }

  // ---------------------------------------------------------------------

  class MainActivity {
    const cv: OpenCv
    var preview: HumanDetectionCameraPreview
    var cameraInfo: int
    var cameraWidth: Dimension
    var cameraHeight: Dimension
    var supportedCameraSizes: Option<seq<CameraSize>>
    var confirmPassed: bool
    /** The states of the face and body check boxes and the sight and inpaint toggles. */
    var checks: Flags
    /** The snapshot toggle button's checked state (checked = preview stopped). */
    var snapshotChecked: bool

    /** The preview always has the activity's camera, size and orientation 0. */
    ghost predicate Valid()
      reads this, preview
    {
      && preview.Valid()
      && preview.previewWidth == cameraWidth && preview.previewHeight == cameraHeight
      && preview.displayOrientation == 0 && preview.cameraInfo == cameraInfo && preview.cv == cv
    }

    /** `onCreate`: back camera at 640 x 480, confirmation not yet given, and the
        preview built from the initial states of the flag controls. */
    constructor (cv: OpenCv, initialChecks: Flags)
      ensures Valid() && fresh(preview)
      ensures cameraInfo == CAMERA_FACING_BACK && cameraWidth == 640 && cameraHeight == 480
      ensures !confirmPassed && supportedCameraSizes.None? && checks == initialChecks
      ensures preview.CurrentFlags() == initialChecks && !preview.previewWorking
    {
      this.cv := cv;
      cameraInfo := CAMERA_FACING_BACK;
      cameraWidth := 640;
      cameraHeight := 480;
      supportedCameraSizes := None;
      confirmPassed := false;
      checks := initialChecks;
      snapshotChecked := false;
      preview := new HumanDetectionCameraPreview(640, 480, 0, CAMERA_FACING_BACK, initialChecks.face,
                                                 initialChecks.body, initialChecks.sight, initialChecks.inpainting, cv);
    }

    /** `onContinuousUpdate`: decides which action runs and records an OK. */
    method OnContinuousUpdate(alwaysOk: bool, hasCancel: bool, answer: Answer) returns (d: Outcome)
      modifies this`confirmPassed
      ensures d == Decide(alwaysOk, old(confirmPassed), hasCancel, answer)
      ensures confirmPassed == PassedAfter(old(confirmPassed), alwaysOk, answer)
    {
      if alwaysOk || confirmPassed {
        d := RunOk;
        return;
      }
      match answer {
        case Ok =>
          confirmPassed := true;
          d := RunOk;
        case Cancel =>
          d := if hasCancel then RunCancel else NoAction;
        case Dismissed =>
          d := NoAction;
      }
    }

    /** Passes one flag change to the preview's setter of that flag; only that
        flag field of the preview is written. */
    method SetPreviewFlag(k: FlagKind, b: bool)
      requires Valid()
      modifies preview`faceDetectionEnable, preview`bodyDetectionEnable, preview`sightOn, preview`inpaintingOn
      ensures Valid() && unchanged(this)
      ensures preview.CurrentFlags() == old(preview.CurrentFlags()).With(k, b)
    {
      match k {
        case FaceDetection => preview.SetFaceDetectionEnable(b);
        case BodyDetection => preview.SetBodyDetectionEnable(b);
        case Sight => preview.SetSightOn(b);
        case Inpainting => preview.SetInpaintingOn(b);
      }
    }

    /** The OK action of a flag listener: apply the flag, and redraw the last
        frame when the preview is stopped. A running preview, or one with no
        camera or no frame, keeps its published state. */
    method ApplyFlag(k: FlagKind, b: bool)
      requires Valid()
      modifies preview`faceDetectionEnable, preview`bodyDetectionEnable, preview`sightOn, preview`inpaintingOn,
               preview`imageMat, preview`maskMat, preview`processedBitmap, preview`targets, preview`detectorCalls
      ensures Valid() && unchanged(this)
      ensures preview.CurrentFlags() == old(preview.CurrentFlags()).With(k, b)
      ensures preview.previewWorking == old(preview.previewWorking) && preview.camera == old(preview.camera)
      ensures preview.originalBitmap == old(preview.originalBitmap)
      ensures !preview.previewWorking && preview.camera.Some? ==> preview.ShowsCurrentFrame()
      ensures preview.previewWorking || preview.camera.None? || preview.originalBitmap.None? ==>
        preview.Published() == old(preview.Published())
    {
      SetPreviewFlag(k, b);
      if !preview.previewWorking {
        var _ := preview.Reprocess();
      }
    }

    /** `setChecked(false)` on one flag control. The listener fires only if the
        control was checked, and unchecking never asks, so the flag is cleared
        and a stopped preview redraws; an unchecked control changes nothing. */
    method Uncheck(k: FlagKind)
      requires Valid()
      modifies this`checks,
               preview`faceDetectionEnable, preview`bodyDetectionEnable, preview`sightOn, preview`inpaintingOn,
               preview`imageMat, preview`maskMat, preview`processedBitmap, preview`targets, preview`detectorCalls
      ensures Valid() && checks == old(checks).With(k, false)
      ensures preview == old(preview) && confirmPassed == old(confirmPassed)
      ensures preview.previewWorking == old(preview.previewWorking) && preview.camera == old(preview.camera)
      ensures preview.originalBitmap == old(preview.originalBitmap)
      ensures old(checks).Get(k) ==>
        && preview.CurrentFlags() == old(preview.CurrentFlags()).With(k, false)
        && (!preview.previewWorking && preview.camera.Some? ==> preview.ShowsCurrentFrame())
      ensures !old(checks).Get(k) ==> unchanged(preview)
      ensures preview.previewWorking || preview.camera.None? || preview.originalBitmap.None? ==>
        preview.Published() == old(preview.Published())
    {
      if checks.Get(k) {
        checks := checks.With(k, false);
        // An unchecking call of `onContinuousUpdate` is waived: it runs the OK
        // action and leaves the confirm flag alone (Confirm.UncheckingNeverAsks).
        ApplyFlag(k, false);
      }
    }

    /** The loop `for (cb : flagCompoundButtons) cb.setChecked(false)`: every
        checked control clears its flag, and a stopped preview ends up showing
        the last frame under the cleared flags. */
    method UncheckAll()
      requires Valid()
      modifies this`checks,
               preview`faceDetectionEnable, preview`bodyDetectionEnable, preview`sightOn, preview`inpaintingOn,
               preview`imageMat, preview`maskMat, preview`processedBitmap, preview`targets, preview`detectorCalls
      ensures Valid() && checks == AllOff
      ensures forall k :: old(checks).Get(k) ==> !preview.CurrentFlags().Get(k)
      ensures forall k :: !old(checks).Get(k) ==> preview.CurrentFlags().Get(k) == old(preview.CurrentFlags()).Get(k)
      ensures preview == old(preview) && confirmPassed == old(confirmPassed)
      ensures preview.previewWorking == old(preview.previewWorking) && preview.camera == old(preview.camera)
      ensures preview.originalBitmap == old(preview.originalBitmap)
      ensures !old(checks).SomeProcessing() ==> unchanged(preview)
      ensures old(checks).SomeProcessing() && !preview.previewWorking && preview.camera.Some? ==>
        preview.ShowsCurrentFrame()
      ensures preview.previewWorking || preview.camera.None? || preview.originalBitmap.None? ==>
        preview.Published() == old(preview.Published())
    {
      Uncheck(FaceDetection);
      Uncheck(BodyDetection);
      Uncheck(Sight);
      Uncheck(Inpainting);
      FlagsExtensional(checks, AllOff);
    }

    /** A user toggles flag control `k` to `isChecked`; `answer` is what they
        would press if the warning dialog appears. */
    method OnFlagToggled(k: FlagKind, isChecked: bool, answer: Answer) returns (d: Outcome)
      requires Valid()
      modifies this`checks, this`confirmPassed,
               preview`faceDetectionEnable, preview`bodyDetectionEnable, preview`sightOn, preview`inpaintingOn,
               preview`imageMat, preview`maskMat, preview`processedBitmap, preview`targets, preview`detectorCalls
      ensures Valid() && preview == old(preview)
      ensures d == Decide(FlagChangeWaiver(isChecked, old(preview.previewWorking)), old(confirmPassed), true, answer)
      ensures confirmPassed == PassedAfter(old(confirmPassed), FlagChangeWaiver(isChecked, old(preview.previewWorking)), answer)
      ensures d == RunOk ==>
        checks == old(checks).With(k, isChecked) && preview.CurrentFlags() == old(preview.CurrentFlags()).With(k, isChecked)
      ensures d == RunCancel ==>
        checks == old(checks).With(k, false) && preview.CurrentFlags() == old(preview.CurrentFlags()).With(k, false)
      ensures d == NoAction ==> checks == old(checks).With(k, isChecked) && unchanged(preview)
      ensures preview.previewWorking == old(preview.previewWorking) && preview.camera == old(preview.camera)
      ensures preview.originalBitmap == old(preview.originalBitmap)
      ensures d == RunOk && !preview.previewWorking && preview.camera.Some? ==> preview.ShowsCurrentFrame()
      ensures d != RunOk || preview.previewWorking || preview.camera.None? || preview.originalBitmap.None? ==>
        preview.Published() == old(preview.Published())
    {
      checks := checks.With(k, isChecked);
      d := OnContinuousUpdate(FlagChangeWaiver(isChecked, preview.previewWorking), true, answer);
      if d == RunOk {
        ApplyFlag(k, isChecked);
      } else if d == RunCancel {
        Uncheck(k);
      }
    }

    /** The snapshot button: stop a running preview; otherwise start it, asking
        first when some processing is enabled. */
    method OnSnapshotClick(answer: Answer) returns (d: Outcome)
      requires Valid()
      modifies this`confirmPassed, this`snapshotChecked, preview`previewWorking
      ensures Valid()
      ensures old(preview.previewWorking) ==> !preview.previewWorking && snapshotChecked && d == NoAction
      ensures old(preview.previewWorking) ==> confirmPassed == old(confirmPassed)
      ensures !old(preview.previewWorking) ==>
        && d == Decide(StartPreviewWaiver(preview.IsSomeProcessingEnable()), old(confirmPassed), true, answer)
        && confirmPassed == PassedAfter(old(confirmPassed), StartPreviewWaiver(preview.IsSomeProcessingEnable()), answer)
        && (d == RunOk ==> preview.previewWorking == preview.camera.Some? && !snapshotChecked)
        && (d == RunCancel ==> !preview.previewWorking && snapshotChecked)
        && (d == NoAction ==> !preview.previewWorking && snapshotChecked == old(snapshotChecked))
    {
      if preview.previewWorking {
        preview.StopPreview();
        snapshotChecked := true;
        d := NoAction;
      } else {
        d := OnContinuousUpdate(StartPreviewWaiver(preview.IsSomeProcessingEnable()), true, answer);
        if d == RunOk {
          preview.StartPreview();
          snapshotChecked := false;
        } else if d == RunCancel {
          snapshotChecked := true;
        }
      }
    }

    /** The unset button: clear the preview's flags and the controls, and redraw
        the last frame when the preview is stopped. */
    method OnUnsetClick()
      requires Valid()
      modifies this`checks,
               preview`faceDetectionEnable, preview`bodyDetectionEnable, preview`sightOn, preview`inpaintingOn,
               preview`imageMat, preview`maskMat, preview`processedBitmap, preview`targets, preview`detectorCalls
      ensures Valid() && preview == old(preview) && confirmPassed == old(confirmPassed)
      ensures checks == AllOff && preview.CurrentFlags() == AllOff && !preview.IsSomeProcessingEnable()
      ensures preview.previewWorking == old(preview.previewWorking) && preview.camera == old(preview.camera)
      ensures preview.originalBitmap == old(preview.originalBitmap)
      ensures !preview.previewWorking && preview.camera.Some? ==> preview.ShowsCurrentFrame()
      ensures preview.previewWorking || preview.camera.None? || preview.originalBitmap.None? ==>
        preview.Published() == old(preview.Published())
    {
      preview.UnsetAll();
      UncheckAll();
      FlagsExtensional(preview.CurrentFlags(), AllOff);
      if !preview.previewWorking {
        var _ := preview.Reprocess();
      }
    }

    /** Closes the current preview and builds a new one from the activity's
        camera, size and the (cleared) flag controls; the snapshot button is
        unchecked. */
    method RebuildPreview()
      requires preview.Valid() && preview.cv == cv && checks == AllOff
      modifies this`preview, this`snapshotChecked, preview`camera, preview`previewWorking
      ensures Valid() && fresh(preview) && !snapshotChecked
      ensures old(preview).camera.None? && !old(preview).previewWorking
      ensures preview.CurrentFlags() == AllOff && !preview.previewWorking && preview.camera.None?
      ensures preview.originalBitmap.None? && preview.Published() == ([], None, None, None, [])
    {
      preview.CloseCamera();
      preview := new HumanDetectionCameraPreview(cameraWidth, cameraHeight, 0, cameraInfo, checks.face,
                                                 checks.body, checks.sight, checks.inpainting, cv);
      snapshotChecked := false;
    }

    /** The camera switch button: clear the controls, flip the facing, and
        rebuild the preview on the other camera. */
    method OnCameraSwitchClick()
      requires Valid()
      modifies this`checks, this`cameraInfo, this`preview, this`snapshotChecked,
               preview`faceDetectionEnable, preview`bodyDetectionEnable, preview`sightOn, preview`inpaintingOn,
               preview`imageMat, preview`maskMat, preview`processedBitmap, preview`targets, preview`detectorCalls,
               preview`camera, preview`previewWorking
      ensures Valid() && fresh(preview) && confirmPassed == old(confirmPassed)
      ensures cameraInfo == ToggledFacing(old(cameraInfo))
      ensures cameraWidth == old(cameraWidth) && cameraHeight == old(cameraHeight)
      ensures checks == AllOff && preview.CurrentFlags() == AllOff
      ensures !snapshotChecked && !preview.previewWorking && preview.camera.None?
      ensures preview.originalBitmap.None? && preview.Published() == ([], None, None, None, [])
      ensures old(preview).camera.None? && !old(preview).previewWorking
    {
      UncheckAll();
      var current := preview.cameraInfo;
      if current == CAMERA_FACING_BACK {
        cameraInfo := CAMERA_FACING_FRONT;
      } else {
        cameraInfo := CAMERA_FACING_BACK;
      }
      RebuildPreview();
    }

    /** The resolution spinner: a valid position switches to that size and
        rebuilds the preview; any other selection changes nothing. */
    method OnResolutionSelected(position: nat)
      requires Valid()
      modifies this`checks, this`cameraWidth, this`cameraHeight, this`preview, this`snapshotChecked,
               preview`faceDetectionEnable, preview`bodyDetectionEnable, preview`sightOn, preview`inpaintingOn,
               preview`imageMat, preview`maskMat, preview`processedBitmap, preview`targets, preview`detectorCalls,
               preview`camera, preview`previewWorking
      ensures Valid() && confirmPassed == old(confirmPassed) && cameraInfo == old(cameraInfo)
      ensures ResolutionChoice(supportedCameraSizes, position) == None ==>
        && preview == old(preview) && unchanged(preview) && checks == old(checks)
        && snapshotChecked == old(snapshotChecked)
        && cameraWidth == old(cameraWidth) && cameraHeight == old(cameraHeight)
      ensures ResolutionChoice(supportedCameraSizes, position) == Some(CameraSize(cameraWidth, cameraHeight)) ==>
        && fresh(preview) && checks == AllOff && preview.CurrentFlags() == AllOff
        && !snapshotChecked && !preview.previewWorking && preview.camera.None?
        && preview.originalBitmap.None? && preview.Published() == ([], None, None, None, [])
        && old(preview).camera.None? && !old(preview).previewWorking
      ensures ResolutionChoice(supportedCameraSizes, position).Some? ==>
        ResolutionChoice(supportedCameraSizes, position) == Some(CameraSize(cameraWidth, cameraHeight))
    {
      if supportedCameraSizes.Some? && position < |supportedCameraSizes.value| {
        UncheckAll();
        var newSize := supportedCameraSizes.value[position];
        cameraWidth, cameraHeight := newSize.width, newSize.height;
        RebuildPreview();
      }
    }

    /** The callback the preview runs once its camera is configured: record the
        supported sizes and select the current size in the spinner (`None`: the
        spinner's selection is left alone). */
    method OnCameraConfigured(sizes: Option<seq<CameraSize>>, current: Option<CameraSize>)
      returns (selection: Option<nat>)
      modifies this`supportedCameraSizes
      ensures supportedCameraSizes == sizes
      ensures selection.Some? <==> (sizes.None? || |sizes.value| > 0)
      ensures selection.Some? ==> selection.value < AdapterCount(sizes)
      ensures selection.Some? && sizes.Some? ==> selection.value == MatchIndex(sizes.value, current)
      ensures selection.Some? && sizes.None? ==> selection.value == 0
    {
      supportedCameraSizes := sizes;
      var index := SpinnerIndex(sizes, current);
      selection := None;
      if index < AdapterCount(sizes) {
        selection := Some(index);
      }
    }
  }
}
