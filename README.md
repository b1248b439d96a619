# Human detection camera: a verified model of its control core

An Android camera preview runs OpenCV Haar-cascade detectors for faces and
full bodies on every frame. It can outline the detections ("sight") and
inpaint them away ("inpainting"). The activity around it holds four check
controls, a snapshot button that stops and restarts the preview, a camera
switch, a resolution spinner, and a one-time warning before heavy processing
starts on a running preview.

This project models that control core in Dafny:

- `geometry.dfy`: Java's truncating `/` and `%` (`JavaInt`); the orientation
  swap test; the pixel-to-unit rectangle of `addTarget`; the ellipse of
  `addMask`.
- `mask.dfy`: the single-channel mask as the set of pixels set to 255, and
  painting filled ellipses into it.
- `pipeline.dfy`: the OpenCV calls as opaque capabilities (`OpenCv`), the
  processing flags, and `ProcessFrame`. That function defines what one pass
  of `processImage` produces. The lemmas here state the properties of a
  pass.
- `preview.dfy`: the class `HumanDetectionCameraPreview` with the source's
  fields. Its methods update them in place. `processImage` is proved to
  publish exactly `ProcessFrame` of the captured frame. A ghost log of
  detector calls shows that a disabled detector is never invoked.
- `confirm.dfy`: the confirmation gate of `onContinuousUpdate` as a function
  and its sticky "confirm passed" flag, plus the waivers each caller passes.
- `activity.dfy`: the class `MainActivity`: listeners, camera facing toggle,
  resolution guard and the spinner index loop.

The user's answer to the dialog (OK, Cancel, or dismissing it) is a method
parameter, so every proof covers every choice.

## Model

| member | source | states |
|---|---|---|
| `JavaInt.Rem` | app/src/main/java/com/github/k4e/android/humandetectioncamera/HumanDetectionCameraPreview.java:276 | Java's `%`: the remainder is smaller in magnitude than the divisor and takes the sign of the dividend, unlike Dafny's Euclidean `%` |
| `JavaInt.DivRemIdentity` | app/src/main/java/com/github/k4e/android/humandetectioncamera/HumanDetectionCameraPreview.java:351-352 | Java's truncating `/` and `%` recompose the dividend: `(a / b) * b + a % b == a` |
| `JavaInt.RemZeroIffEuclideanZero` | app/src/main/java/com/github/k4e/android/humandetectioncamera/HumanDetectionCameraPreview.java:276 | the truncated and the Euclidean remainder differ in sign but are zero for the same dividends |
| `JavaInt.TruncatedRemainderOfMinusNinety` | app/src/main/java/com/github/k4e/android/humandetectioncamera/HumanDetectionCameraPreview.java:276 | for orientation 0 the test computes `(0 - 90) % 180 == -90` in Java, where Euclidean `%` would give 90 |
| `Geometry.SwapsIffEuclideanTest` | app/src/main/java/com/github/k4e/android/humandetectioncamera/HumanDetectionCameraPreview.java:276-281 | width and height are swapped exactly when `orientation - 90` is a multiple of 180 |
| `Geometry.SwapsAtOddQuarterTurns` | app/src/main/java/com/github/k4e/android/humandetectioncamera/HumanDetectionCameraPreview.java:276-281 | of the four display orientations, 90 and 270 swap the dimensions and 0 and 180 do not |
| `Geometry.LogicalSizeTwiceRestores` | app/src/main/java/com/github/k4e/android/humandetectioncamera/HumanDetectionCameraPreview.java:276-281 | applying the orientation swap twice gives back the original width and height |
| `Geometry.FullTurnRestoresSize` | app/src/main/java/com/github/k4e/android/humandetectioncamera/HumanDetectionCameraPreview.java:276-281 | swapping under 0, 90, 180 and 270 in turn gives back the original width and height |
| `Geometry.ToUnitRect` | app/src/main/java/com/github/k4e/android/humandetectioncamera/HumanDetectionCameraPreview.java:334-344 | a rectangle lying inside the logical frame maps to 0 <= left <= right <= 1 and 0 <= top <= bottom <= 1 |
| `Geometry.UnitRectRoundTrip` | app/src/main/java/com/github/k4e/android/humandetectioncamera/HumanDetectionCameraPreview.java:157 | scaling a unit rectangle by the frame size it came from gives back the pixel rectangle (x, y, x + w, y + h) |
| `Geometry.UnitRectIsNotClamped` | app/src/main/java/com/github/k4e/android/humandetectioncamera/HumanDetectionCameraPreview.java:339-342 | unit coordinates are not clamped: a detection reaching past the frame edge gives a right edge of 1.5 |
| `Geometry.LandscapeScenario` | app/src/main/java/com/github/k4e/android/humandetectioncamera/HumanDetectionCameraPreview.java:334-344 | a 50x50 face at (100, 100) in a 640x480 frame gives the unit rectangle (0.15625, 100/480, 0.234375, 0.3125) |
| `Geometry.PortraitScenario` | app/src/main/java/com/github/k4e/android/humandetectioncamera/HumanDetectionCameraPreview.java:334-344 | the same face after the swap to 480x640 gives (100/480, 0.15625, 0.3125, 0.234375) |
| `Geometry.MaskEllipse` | app/src/main/java/com/github/k4e/android/humandetectioncamera/HumanDetectionCameraPreview.java:346-354 | the ellipse of a rectangle with non-negative size starts at its left/top edge and ends at most one pixel short of its right/bottom edge (integer halving) |
| `Masking.Paint` | app/src/main/java/com/github/k4e/android/humandetectioncamera/HumanDetectionCameraPreview.java:353 | drawing a filled ellipse keeps the mask size, never clears a pixel, and sets only in-bounds pixels of that ellipse |
| `Masking.PaintAllCovers` | app/src/main/java/com/github/k4e/android/humandetectioncamera/HumanDetectionCameraPreview.java:317-323 | after painting a list of rectangles a pixel is set exactly when it was set before or lies in the clipped ellipse of some rectangle |
| `Masking.PaintOrderIrrelevant` | app/src/main/java/com/github/k4e/android/humandetectioncamera/HumanDetectionCameraPreview.java:317-323 | the painted mask depends only on the set of rectangles, not on their order or repetition |
| `Masking.PaintTwoCommutes` | app/src/main/java/com/github/k4e/android/humandetectioncamera/HumanDetectionCameraPreview.java:317-323 | painting two rectangles in either order gives the same mask |
| `Masking.PaintAllAppend` | app/src/main/java/com/github/k4e/android/humandetectioncamera/HumanDetectionCameraPreview.java:317-323 | painting the face rectangles and then the body rectangles is painting their concatenation |
| `Pipeline.Flags.With` | app/src/main/java/com/github/k4e/android/humandetectioncamera/HumanDetectionCameraPreview.java:191-205 | a setter changes its own flag to the given value and leaves the other three as they were |
| `Pipeline.AllOffHasNoProcessing` | app/src/main/java/com/github/k4e/android/humandetectioncamera/HumanDetectionCameraPreview.java:183-185 | no processing is enabled exactly when all four flags are off |
| `Pipeline.TargetsAt` | app/src/main/java/com/github/k4e/android/humandetectioncamera/HumanDetectionCameraPreview.java:306-311 | one target per rectangle, in detector order, each the unit rectangle of its pixel rectangle |
| `Pipeline.TargetListOrder` | app/src/main/java/com/github/k4e/android/humandetectioncamera/HumanDetectionCameraPreview.java:304-312 | the rebuilt list holds the face targets first and then the body targets, one per rectangle, each in detector order |
| `Pipeline.DetectorGating` | app/src/main/java/com/github/k4e/android/humandetectioncamera/HumanDetectionCameraPreview.java:282-299 | a detector runs exactly when its kind is enabled; a disabled kind yields no rectangles and an enabled one keeps all its detector returned |
| `Pipeline.TargetOrder` | app/src/main/java/com/github/k4e/android/humandetectioncamera/HumanDetectionCameraPreview.java:304-312 | after a pass the targets are exactly the face targets then the body targets, at the swapped logical size; nothing from earlier passes survives |
| `Pipeline.TargetsInUnitSquare` | app/src/main/java/com/github/k4e/android/humandetectioncamera/HumanDetectionCameraPreview.java:304-312 | when every detection lies inside the logical frame, every target of the pass lies inside the unit square |
| `Pipeline.MaskOfPass` | app/src/main/java/com/github/k4e/android/humandetectioncamera/HumanDetectionCameraPreview.java:313-331 | the mask is zeroed at (logical height x logical width), painted exactly when inpainting is on and something was detected, and then holds one ellipse per face and body in any order |
| `Pipeline.DisabledDetectorsDoNothing` | app/src/main/java/com/github/k4e/android/humandetectioncamera/HumanDetectionCameraPreview.java:282-331 | with both detectors off no detector runs, there are no targets, the mask stays zero and the frame passes through |
| `Pipeline.NothingDetectedIsPassthrough` | app/src/main/java/com/github/k4e/android/humandetectioncamera/HumanDetectionCameraPreview.java:317-331 | with no detections, the pass is the same with inpainting on or off and the output is the upright frame |
| `Pipeline.BitmapAndMaskSizesDisagree` | app/src/main/java/com/github/k4e/android/humandetectioncamera/HumanDetectionCameraPreview.java:313-316 | under a 90 or 270 orientation of a non-square frame the processed bitmap keeps the unswapped size while the mask takes the swapped one |
| `Pipeline.UprightFrameIsNotRotated` | app/src/main/java/com/github/k4e/android/humandetectioncamera/HumanDetectionCameraPreview.java:275-281 | at orientation 0, which the activity always passes, the frame is neither swapped nor transposed |
| `CameraPreview.AsWrittenGuardAdmitsMissingCamera` | app/src/main/java/com/github/k4e/android/humandetectioncamera/HumanDetectionCameraPreview.java:101 | the binding guard as written admits camera id 1 on a device with one camera, which cannot be opened |
| `CameraPreview.CorrectedGuardDiffersOnlyAtCount` | app/src/main/java/com/github/k4e/android/humandetectioncamera/HumanDetectionCameraPreview.java:101 | for non-negative ids the corrected guard admits a subset of the written one and differs from it only at id == number of cameras |
| `CameraPreview.HumanDetectionCameraPreview.constructor` | app/src/main/java/com/github/k4e/android/humandetectioncamera/HumanDetectionCameraPreview.java:64-94 | a new preview holds the given size, orientation, camera id and flags, is not working, has no camera, no frame and no targets |
| `CameraPreview.HumanDetectionCameraPreview.IsSomeProcessingEnable` | app/src/main/java/com/github/k4e/android/humandetectioncamera/HumanDetectionCameraPreview.java:183-185 | true exactly when at least one of the four processing flags is on, i.e. `Flags.SomeProcessing` of the current flags (which `Pipeline.AllOffHasNoProcessing` ties to `AllOff`) |
| `CameraPreview.HumanDetectionCameraPreview.SetFaceDetectionEnable` | app/src/main/java/com/github/k4e/android/humandetectioncamera/HumanDetectionCameraPreview.java:191-193 | sets the face flag and changes no other field |
| `CameraPreview.HumanDetectionCameraPreview.SetBodyDetectionEnable` | app/src/main/java/com/github/k4e/android/humandetectioncamera/HumanDetectionCameraPreview.java:195-197 | sets the body flag and changes no other field |
| `CameraPreview.HumanDetectionCameraPreview.SetSightOn` | app/src/main/java/com/github/k4e/android/humandetectioncamera/HumanDetectionCameraPreview.java:199-201 | sets the overlay flag and changes no other field |
| `CameraPreview.HumanDetectionCameraPreview.SetInpaintingOn` | app/src/main/java/com/github/k4e/android/humandetectioncamera/HumanDetectionCameraPreview.java:203-205 | sets the inpainting flag and changes no other field |
| `CameraPreview.HumanDetectionCameraPreview.UnsetAll` | app/src/main/java/com/github/k4e/android/humandetectioncamera/HumanDetectionCameraPreview.java:207-209 | all four flags become false, so no processing is enabled; working flag, camera, camera id and targets are untouched |
| `CameraPreview.HumanDetectionCameraPreview.StartPreview` | app/src/main/java/com/github/k4e/android/humandetectioncamera/HumanDetectionCameraPreview.java:211-216 | the preview becomes working only when a camera is bound; with none nothing changes |
| `CameraPreview.HumanDetectionCameraPreview.StopPreview` | app/src/main/java/com/github/k4e/android/humandetectioncamera/HumanDetectionCameraPreview.java:218-223 | the preview is not working afterwards; with no camera bound nothing changes |
| `CameraPreview.HumanDetectionCameraPreview.CloseCamera` | app/src/main/java/com/github/k4e/android/humandetectioncamera/HumanDetectionCameraPreview.java:232-239 | afterwards no camera is bound and the preview is not working; with none bound nothing changes |
| `CameraPreview.HumanDetectionCameraPreview.SurfaceCreated` | app/src/main/java/com/github/k4e/android/humandetectioncamera/HumanDetectionCameraPreview.java:97-112 | binds the camera of the preview id at the preview size exactly when that id names an existing camera (corrected guard), otherwise leaves the slot alone |
| `CameraPreview.HumanDetectionCameraPreview.CvCleanUp` | app/src/main/java/com/github/k4e/android/humandetectioncamera/HumanDetectionCameraPreview.java:356-372 | releases the working image, mask and processed bitmap and empties the target list |
| `CameraPreview.HumanDetectionCameraPreview.SurfaceChanged` | app/src/main/java/com/github/k4e/android/humandetectioncamera/HumanDetectionCameraPreview.java:114-118 | cleans up the buffers, then starts the preview if a camera is bound |
| `CameraPreview.HumanDetectionCameraPreview.SurfaceDestroyed` | app/src/main/java/com/github/k4e/android/humandetectioncamera/HumanDetectionCameraPreview.java:120-124 | cleans up the buffers and closes the camera |
| `CameraPreview.HumanDetectionCameraPreview.OnPreviewFrame` | app/src/main/java/com/github/k4e/android/humandetectioncamera/HumanDetectionCameraPreview.java:126-133 | replaces the kept frame with the delivered one, `None` when decoding it failed; a decoded frame is published as the pass over it at the camera preview size with each enabled detector run once, and a failed decode leaves targets, buffers and detector log as they were |
| `CameraPreview.HumanDetectionCameraPreview.Reprocess` | app/src/main/java/com/github/k4e/android/humandetectioncamera/HumanDetectionCameraPreview.java:225-230 | with a camera bound, publishes the pass over the last frame at its preview size; otherwise reports failure and changes nothing |
| `CameraPreview.HumanDetectionCameraPreview.ProcessImage` | app/src/main/java/com/github/k4e/android/humandetectioncamera/HumanDetectionCameraPreview.java:268-332 | with no frame nothing changes; otherwise image, targets, mask and bitmap become those of the pass over the frame, and the detector log grows by the enabled kinds |
| `CameraPreview.HumanDetectionCameraPreview.NormalizeFrame` | app/src/main/java/com/github/k4e/android/humandetectioncamera/HumanDetectionCameraPreview.java:272-281 | the working image is the converted frame, transposed and flipped when the orientation swaps, with the swapped logical size |
| `CameraPreview.HumanDetectionCameraPreview.RunDetectors` | app/src/main/java/com/github/k4e/android/humandetectioncamera/HumanDetectionCameraPreview.java:282-299 | each enabled detector is invoked once on the working image and a disabled one yields no rectangles |
| `CameraPreview.HumanDetectionCameraPreview.PublishTargets` | app/src/main/java/com/github/k4e/android/humandetectioncamera/HumanDetectionCameraPreview.java:304-312 | the target list is cleared and refilled, faces then bodies, only when something was detected |
| `CameraPreview.HumanDetectionCameraPreview.BuildMask` | app/src/main/java/com/github/k4e/android/humandetectioncamera/HumanDetectionCameraPreview.java:313-323 | the mask is zeroed at the logical size and painted with every face and body ellipse only when redacting |
| `CameraPreview.HumanDetectionCameraPreview.PublishBitmap` | app/src/main/java/com/github/k4e/android/humandetectioncamera/HumanDetectionCameraPreview.java:314-331 | the bitmap, reused or created at the preview size, receives the inpainted image when redacting and the working image otherwise |
| `CameraPreview.HumanDetectionCameraPreview.AddTargets` | app/src/main/java/com/github/k4e/android/humandetectioncamera/HumanDetectionCameraPreview.java:306-311 | the two loops append one target per face and then per body, in order |
| `CameraPreview.HumanDetectionCameraPreview.AddMasks` | app/src/main/java/com/github/k4e/android/humandetectioncamera/HumanDetectionCameraPreview.java:318-323 | the two loops paint one ellipse per face and then per body into the mask |
| `CameraPreview.HumanDetectionCameraPreview.AddTarget` | app/src/main/java/com/github/k4e/android/humandetectioncamera/HumanDetectionCameraPreview.java:334-344 | appends exactly one target: the kind with the unit rectangle of the rectangle at the logical size |
| `CameraPreview.HumanDetectionCameraPreview.AddMask` | app/src/main/java/com/github/k4e/android/humandetectioncamera/HumanDetectionCameraPreview.java:346-354 | paints the rectangle's ellipse into the mask |
| `Confirm.Decide` | app/src/main/java/com/github/k4e/android/humandetectioncamera/MainActivity.java:299-322 | the OK action runs exactly when the call is waived, the flag is already set, or the user presses OK; the Cancel action runs exactly when the dialog is shown, Cancel is pressed and a Cancel action exists |
| `Confirm.PassedAfterAllIff` | app/src/main/java/com/github/k4e/android/humandetectioncamera/MainActivity.java:52 | starting from its initial value the confirm flag is never reset, and is set exactly when some non-waived call was answered OK |
| `Confirm.WaivedCallsNeverConfirm` | app/src/main/java/com/github/k4e/android/humandetectioncamera/MainActivity.java:308-313 | calls that are all waived never set the confirm flag |
| `Confirm.OnceConfirmedNeverAsks` | app/src/main/java/com/github/k4e/android/humandetectioncamera/MainActivity.java:301-304 | after one OK every later call runs its OK action without a dialog, whatever the user would answer |
| `Confirm.FlagChangeAsksIff` | app/src/main/java/com/github/k4e/android/humandetectioncamera/MainActivity.java:168 | a flag control asks exactly when it is being checked while the preview runs and no OK was given before |
| `Confirm.UncheckingNeverAsks` | app/src/main/java/com/github/k4e/android/humandetectioncamera/MainActivity.java:184 | unchecking a flag always runs the OK action and leaves the confirm flag unchanged |
| `Confirm.PlainPreviewNeverAsks` | app/src/main/java/com/github/k4e/android/humandetectioncamera/MainActivity.java:99 | starting the preview with no processing enabled never asks |
| `Activity.ToggledFacing` | app/src/main/java/com/github/k4e/android/humandetectioncamera/MainActivity.java:108-113 | the switch gives front-facing exactly for back-facing, and back-facing for every other id |
| `Activity.ToggleTwiceRestores` | app/src/main/java/com/github/k4e/android/humandetectioncamera/MainActivity.java:108-113 | two presses of the switch give back the facing the activity started with |
| `Activity.ResolutionChoice` | app/src/main/java/com/github/k4e/android/humandetectioncamera/MainActivity.java:126-132 | a size is chosen exactly when the list is known and the position is inside it, and it is the entry at that position |
| `Activity.MatchIndex` | app/src/main/java/com/github/k4e/android/humandetectioncamera/MainActivity.java:274-282 | the spinner index is the last position whose size equals the current one, and 0 when there is none or the current size is unknown |
| `Activity.SpinnerIndex` | app/src/main/java/com/github/k4e/android/humandetectioncamera/MainActivity.java:274-282 | the loop over the supported sizes computes that index, and 0 when the list is unknown |
| `Activity.SpinnerIndexSelectsCurrent` | app/src/main/java/com/github/k4e/android/humandetectioncamera/MainActivity.java:288-290 | selecting the computed index in the spinner chooses the current size again |
| `Activity.MainActivity.constructor` | app/src/main/java/com/github/k4e/android/humandetectioncamera/MainActivity.java:55-81 | starts on the back camera at 640x480 with the confirm flag false and a stopped preview built from the flag controls |
| `Activity.MainActivity.OnContinuousUpdate` | app/src/main/java/com/github/k4e/android/humandetectioncamera/MainActivity.java:299-322 | runs the action the gate decides and sets the confirm flag only on an OK pressed in the dialog |
| `Activity.MainActivity.SetPreviewFlag` | app/src/main/java/com/github/k4e/android/humandetectioncamera/MainActivity.java:159 | forwards one flag change to the setter of that flag; only the four flag fields of the preview may change, and only the named flag does |
| `Activity.MainActivity.ApplyFlag` | app/src/main/java/com/github/k4e/android/humandetectioncamera/MainActivity.java:158-163 | applies the flag and, when the preview is stopped with a camera bound, redraws the last frame with it; a running preview, or one with no camera or no frame, keeps its targets, buffers and detector log; the kept frame, camera and running state never change |
| `Activity.MainActivity.Uncheck` | app/src/main/java/com/github/k4e/android/humandetectioncamera/MainActivity.java:165-168 | unchecking a checked control clears that flag in the preview without asking and redraws a stopped, bound preview; an unchecked control leaves the whole preview unchanged |
| `Activity.MainActivity.UncheckAll` | app/src/main/java/com/github/k4e/android/humandetectioncamera/MainActivity.java:105-107 | all four controls end unchecked and every flag whose control was checked is off; with none checked the preview is unchanged, a stopped bound preview ends up showing its last frame under the cleared flags, and a running one keeps its targets and buffers |
| `Activity.MainActivity.OnFlagToggled` | app/src/main/java/com/github/k4e/android/humandetectioncamera/MainActivity.java:155-218 | the change reaches the preview when the gate lets it through, and a stopped bound preview then redraws; on Cancel control and flag are both cleared; on dismissal the control changes but the preview does not; without a redraw the targets, buffers and log stay |
| `Activity.MainActivity.OnSnapshotClick` | app/src/main/java/com/github/k4e/android/humandetectioncamera/MainActivity.java:82-102 | a running preview is stopped; a stopped one is started through the gate waived when no processing is enabled, and Cancel leaves it stopped |
| `Activity.MainActivity.OnUnsetClick` | app/src/main/java/com/github/k4e/android/humandetectioncamera/MainActivity.java:144-154 | clears the preview flags and all controls and redraws the last frame when the preview is stopped; a running preview keeps its targets, buffers and kept frame |
| `Activity.MainActivity.RebuildPreview` | app/src/main/java/com/github/k4e/android/humandetectioncamera/MainActivity.java:114-121 | closes the old camera and builds a new stopped preview with no camera, no frame, no buffers and no targets from the activity camera, size and the cleared controls; the snapshot button is unchecked |
| `Activity.MainActivity.OnCameraSwitchClick` | app/src/main/java/com/github/k4e/android/humandetectioncamera/MainActivity.java:103-123 | clears the controls, flips the facing, closes the old camera and builds a new stopped preview with no camera, every flag off and nothing published; the snapshot button is unchecked |
| `Activity.MainActivity.OnResolutionSelected` | app/src/main/java/com/github/k4e/android/humandetectioncamera/MainActivity.java:124-143 | a position inside a known size list switches to that size, closes the old camera and builds a new stopped preview with no camera, every flag off and nothing published, and unchecks the snapshot button; any other position changes nothing |
| `Activity.MainActivity.OnCameraConfigured` | app/src/main/java/com/github/k4e/android/humandetectioncamera/MainActivity.java:263-295 | records the supported sizes and selects the current size position, or nothing when the list is empty |

## Left out

- Frame decoding: `yuvToBitmap` (YUV to JPEG to `Bitmap`), `Utils.bitmapToMat` and `Utils.matToBitmap` are foreign image codecs. A frame arrives as an opaque `Image`, or as `None` when the decode in `yuvToBitmap` fails (`CameraPreview.HumanDetectionCameraPreview.OnPreviewFrame` takes that option); how the pixels are decoded is not modelled.
- OpenCV algorithms: `detectMultiScale`, `Photo.inpaint`, `Imgproc.cvtColor`, the transpose-and-flip and the rasterisation inside `Imgproc.ellipse` are opaque functions in `OpenCv`. Only the control flow around them is modelled.
- `Utils.matToBitmap` requires the bitmap and the image to have the same size. Under a 90 or 270 orientation of a non-square frame they do not (`Pipeline.BitmapAndMaskSizesDisagree`), and the library call would fail. The model records the sizes and does not model the failure. The activity always passes orientation 0.
- Camera setup (`openCamera`: focus mode, parameter negotiation, preview display, the frame callback) and loading the cascade files are device I/O. `CameraPreview.HumanDetectionCameraPreview.SurfaceCreated` binds the camera at the requested preview size. It does not model the size the device actually negotiates or an `IOException`.
- Drawing in `onDraw` is rendering. Only the scaling of a unit rectangle to the view (`Geometry.ScaleToView`) is modelled. Face targets are drawn in green and all others in red.
- Float rounding: `addTarget` divides in `float`; the model divides in `real`.
- `copyAssets`, toasts, dialog construction, spinner adapters, the `ToggleButton` states other than the snapshot button's, and view layout are file I/O and UI.
- Threading between the frame callback and drawing is out of scope.
- `CameraPreview.HumanDetectionCameraPreview.Reprocess`: with no camera bound the source dereferences a null camera and throws. The model reports `ok == false` and changes nothing.
- `Activity.MainActivity.OnSnapshotClick`: Android flips a `ToggleButton`'s checked state before its click listener runs. The model tracks only the states the listener sets itself, so after a dismissed dialog it keeps the old state.
- `Activity.MainActivity.OnFlagToggled`: a dialog dismissed without pressing a button runs neither action. The control then stays checked while the preview flag stays off. The model states this and does not correct it.
- `Activity.MainActivity.constructor`: the activity calls a preview constructor with twelve arguments (an extra configuration callback). It also calls `getSupportedCameraSizes` and `getCameraSize`. This version of the preview class has none of these. The callback is modelled as `Activity.MainActivity.OnCameraConfigured`, which takes the sizes and the current size as parameters.
- The cascade file names passed to the preview are not modelled: detectors are capabilities.
- Unit rectangles are not clamped to [0, 1]: `addTarget` (HumanDetectionCameraPreview.java lines 339-342) divides the raw detection rectangle by the frame size, so a detection reaching past the frame edge gives a coordinate above 1. The model follows the code (`Geometry.UnitRectIsNotClamped`).
- Widths and heights are positive (`Dimension`), as a camera reports them, so the divisions in `addTarget` never divide by zero.

## Findings

| source | as written | input that shows it | evidently intended | confidence | as-written member | corrected member |
|---|---|---|---|---|---|---|
| app/src/main/java/com/github/k4e/android/humandetectioncamera/HumanDetectionCameraPreview.java:101 | the camera is opened when `mCameraInfo <= Camera.getNumberOfCameras()` | camera id 1 (front-facing, after pressing the switch) on a device with one camera: the guard passes and `Camera.open(1)` has no camera to open | open only when `0 <= mCameraInfo < Camera.getNumberOfCameras()` | medium, not executed | `CameraPreview.AsWrittenGuardAdmitsMissingCamera` | `CameraPreview.HumanDetectionCameraPreview.SurfaceCreated` |
