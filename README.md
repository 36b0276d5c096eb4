# Face capture and side menu of the inmate administration front end

This project models two pieces of a jail-management web front end, in Dafny.

The first is the face-capture dialog (`FaceRecognition` in
`src/components/faceidcomponent/FaceId.jsx`). Once the camera plays, it counts
down 3, 2, 1 and then polls a face detector every 400 ms. Each result is
either "no face" or a box, landmark points and a descriptor. The dialog
measures five ratios from the result: face-width ratio, horizontal and vertical
centre offset, nose offset and eye tilt. It checks them against fixed
thresholds in a fixed order, and the first failing check picks the hint shown
to the user. It counts consecutive passing frames. The frame that brings the
count to 3 has its descriptor handed to the parent, and the dialog closes. A
15000 ms timeout stops the polling when no capture happened. A manual button
captures whatever face the detector sees at that moment.

The second is the side bar's role filter (`src/components/UI/SideBar.jsx`). It
has a constant table of twelve menu entries, each listing the roles that may
see it. The menu shown is the table filtered by the stored role, and the entry
whose path is the current pathname is drawn as active.

Modules:

- `Geometry` (geometry.dfy): points, boxes, landmark groups, means of landmark
  coordinates, and the five ratios.
- `Alignment` (alignment.dfy): the threshold record, the balanced preset
  hard-coded in the source, the ordered gate `Assess`, and what it means.
  It states when each check fails on its own (`Fails`), the order of the checks
  (`Rank`), and the inclusive pass region (`WithinThresholds`).
- `Stability` (stability.dfy): the streak as a fold over the verdicts
  processed so far, and its meaning (the run of passes that ends the history).
- `FaceCapture` (face_capture.dfy): the class `CaptureSession`. It holds the
  dialog's closure variables as fields (`counter`, `hasCaptured`,
  `consecutiveDetections`, `isDetecting`, elapsed time, captured descriptor).
  Each timer callback and each way the `await` on the detector resumes is a
  method. It also holds five client scenarios: the countdown, a stable capture,
  a capture after the timeout, the first no-face hint and its throttle.
- `SideBar` (sidebar.dfy): the table, the filter, the positions it keeps, the
  concrete menus per role, and the active-path predicate.
- `Options` (options.dfy): an optional value, standing for null or undefined.

## Behaviour of the code worth knowing

These points are proved or exhibited in the model:

- The nose offset is divided by `rightEyeX - leftEyeX` without an absolute
  value (FaceId.jsx:183). When the right-eye mean lies left of the left-eye
  mean, the offset is never positive, so the "face the camera" check cannot
  fail (`Alignment.SwappedEyesNeverTurned`).
- Every comparison in the gate is strict, so all pass bounds are inclusive
  (`Alignment.AssessPassIff`, `Alignment.BalancedPassIff`).
- Closing the dialog does not clear the countdown, the detection interval or
  the timeout. `startAutoDetection` returns a cleanup function, but the
  countdown discards it (FaceId.jsx:88, 234). Closing stops the camera and
  unmounts the video element, so later polls return early
  (`FaceCapture.CaptureSession.Close` changes only `open` and the countdown
  display).
- The timeout does not cancel a detector call already in flight. If that call
  returns the third aligned frame after the timeout fired, the frame is still
  captured and emitted after the timeout warning
  (`FaceCapture.CaptureAfterTimeoutScenario`).
- A detector call can return a face after the dialog has closed. The code then
  reads `videoWidth` of a missing element and throws. The error is caught, so
  the streak is left unchanged (`FaceCapture.CaptureSession.DetectorReturned`).
- In the model, where the manual button's detector call returns at once, the
  descriptor is handed to the parent at most once per opening, and only as
  the dialog closes (`EmittedOnceAtMost`, part of the session invariant every
  method keeps). The code itself does not promise this; see
  `FaceCapture.CaptureSession.ManualCapture` under "Left out".
- The first no-face hint is timed from the start of the detection loop, and a
  later one is suppressed within 1500 ms of the last
  (`FaceCapture.FirstNoFaceHintScenario`,
  `FaceCapture.NoFaceHintThrottleScenario`).
- Manual capture does not run the gate and does not touch the streak. With a
  face, it emits that face's descriptor and closes the dialog. Without one, it
  warns and the dialog stays open (`FaceCapture.CaptureSession.ManualCapture`).

## Model

| member | source | states |
|---|---|---|
| `Geometry.MeanBounds` | src/components/faceidcomponent/FaceId.jsx:178-180 | the mean of a non-empty landmark coordinate list (the `reduce` sum over the length) lies between any lower and upper bound of its values |
| `Geometry.SumBounds` | src/components/faceidcomponent/FaceId.jsx:178-180 | the left-to-right sum of n values in [lo, hi] lies in [n·lo, n·hi] |
| `Geometry.WidthRatio` | src/components/faceidcomponent/FaceId.jsx:127-129 | the face-width ratio times the video width is the box width; a box no wider than the frame gives a ratio in [0, 1] |
| `Geometry.CenterOffset` | src/components/faceidcomponent/FaceId.jsx:131-135 | the centre offset is non-negative, is the distance from box centre to frame centre in half-frame units, is 0 exactly when the box is centred, and is at most 1 when the box lies inside the frame |
| `Geometry.NoseOffset` | src/components/faceidcomponent/FaceId.jsx:173-183 | the nose offset times `rightEyeX - leftEyeX` is the nose's distance from the eye midpoint; it is non-negative when the right eye lies right of the left eye and non-positive otherwise; it is 0 exactly when the nose mean is at the eye midpoint |
| `Geometry.EyeTilt` | src/components/faceidcomponent/FaceId.jsx:192-194 | the eye tilt is non-negative, times the box height it is the vertical gap between the eye means, and it is 0 exactly when the eyes are level |
| `Alignment.AssessIsFirstFailure` | src/components/faceidcomponent/FaceId.jsx:115-201 | the gate rejects with reason k exactly when check k fails and every check before it in the order no face, too far, too close, off-centre X, off-centre Y, turned, tilted holds |
| `Alignment.AssessPassIff` | src/components/faceidcomponent/FaceId.jsx:145-201 | the gate passes exactly when a face is present and min ≤ ratio ≤ max, both centre offsets, the nose offset and the tilt are at most their limits (inclusive bounds) |
| `Alignment.PassOrOneFirstFailure` | src/components/faceidcomponent/FaceId.jsx:115-201 | the gate passes exactly when no check fails on its own; otherwise its reason is a first failing check, and the only one |
| `Alignment.BalancedPassIff` | src/components/faceidcomponent/FaceId.jsx:138-201 | with the hard-coded thresholds a detected frame passes exactly when 0.2 ≤ ratio ≤ 0.65, both centre offsets ≤ 0.3, nose offset ≤ 0.25 and eye tilt ≤ 0.1 |
| `Alignment.SwappedEyesNeverTurned` | src/components/faceidcomponent/FaceId.jsx:183-190 | when the right-eye mean lies left of the left-eye mean, the rotation check never rejects |
| `Stability.StreakIsPassingSuffix` | src/components/faceidcomponent/FaceId.jsx:115-204 | the streak after any sequence of processed frames is the length of the run of passes that ends it, preceded by a rejection if anything precedes it |
| `Stability.StreakAfterReject` | src/components/faceidcomponent/FaceId.jsx:115-201 | a no-face or rejected frame sets the streak to 0 whatever its previous value |
| `Stability.StreakAfterPass` | src/components/faceidcomponent/FaceId.jsx:204 | a passing frame raises the streak by exactly 1 |
| `Stability.ExtendNotReachedBefore` | src/components/faceidcomponent/FaceId.jsx:204-211 | a frame processed while the streak is below 3 keeps the history free of any earlier point that reached 3 |
| `FaceCapture.CaptureSession.constructor` | src/components/faceidcomponent/FaceId.jsx:79-81 | the countdown starts at 3 and is displayed; the dialog is open and nothing has been polled, captured or emitted |
| `FaceCapture.CaptureSession.Tick` | src/components/faceidcomponent/FaceId.jsx:82-101 | each countdown tick lowers the counter by 1 and displays it, leaving the loop's clocks alone; the tick that reaches 0 stops the countdown, clears the display and starts detection with the no-face hint clock at the loop's start, and detection runs exactly once |
| `FaceCapture.CaptureSession.StartAutoDetection` | src/components/faceidcomponent/FaceId.jsx:95-105 | detection starts with no capture, a zero streak that matches the empty history, nothing in flight, the no-face hint clock at the loop's start, the interval and the timeout armed, and the alignment prompt shown |
| `FaceCapture.CaptureSession.PollTick` | src/components/faceidcomponent/FaceId.jsx:105-107 | a poll starts a detector call exactly when nothing is captured, the video element exists and no call is in flight; it changes nothing but the clock and the in-flight flag |
| `FaceCapture.CaptureSession.DetectorReturned` | src/components/faceidcomponent/FaceId.jsx:109-216 | no face resets the streak and shows the no-face hint, restarting the hint clock, only when more than 1500 ms passed since it was last shown; a face after closing changes nothing; otherwise the gate's verdict is recorded; the streak is 3 exactly when that frame's descriptor was captured and emitted, the interval stopped and the dialog closed |
| `FaceCapture.CaptureSession.NoFaceReturned` | src/components/faceidcomponent/FaceId.jsx:115-122 | a detector call that found no face resets the streak; the no-face hint is shown, restarting its clock, only when more than 1500 ms passed since it was last shown, and otherwise the status and the clock are kept |
| `FaceCapture.CaptureSession.Process` | src/components/faceidcomponent/FaceId.jsx:144-216 | a rejection resets the streak and shows its hint; a pass raises it by 1; the pass reaching 3 captures and emits that descriptor, stops the interval and closes the dialog; the in-flight flag is cleared |
| `FaceCapture.CaptureSession.Record` | src/components/faceidcomponent/FaceId.jsx:120-204 | the streak after a verdict is the streak of the history extended by it: 0 after a rejection, one more after a pass |
| `FaceCapture.CaptureSession.CaptureFace` | src/components/faceidcomponent/FaceId.jsx:237-258 | with a descriptor from the loop, it is emitted, the dialog closes, and the success notice is raised only in register mode |
| `FaceCapture.CaptureSession.Close` | src/components/faceidcomponent/FaceId.jsx:70-76 | closing only closes the dialog (unmounting the video element) and clears the countdown display; timers, streak and flags are untouched |
| `FaceCapture.CaptureSession.DetectorThrew` | src/components/faceidcomponent/FaceId.jsx:212-216 | a thrown detector call clears the in-flight flag and changes nothing else, the streak included |
| `FaceCapture.CaptureSession.TimeoutFires` | src/components/faceidcomponent/FaceId.jsx:219-225 | after a capture the timeout changes nothing visible; without one it stops polling and shows the timeout status and warning |
| `FaceCapture.CaptureSession.ManualCapture` | src/components/faceidcomponent/FaceId.jsx:237-258 | without a face it warns and leaves the dialog open with nothing emitted; with one it emits that descriptor and closes the dialog, with the success notice only in register mode |
| `FaceCapture.CentredFacePasses` | src/components/faceidcomponent/FaceId.jsx:138-201 | a centred, level face looking straight ahead in a 640 × 480 video passes the balanced gate |
| `SideBar.PositionsFrom` | src/components/UI/SideBar.jsx:37 | the kept positions are strictly increasing, each lists the role, and every position listing the role is kept |
| `SideBar.VisibleIsOrderedSelection` | src/components/UI/SideBar.jsx:18-37 | the k-th visible entry is the table entry at the k-th position listing the role, so the menu is the order-preserving subsequence of the table listing the role |
| `SideBar.VisibleListsRole` | src/components/UI/SideBar.jsx:37 | every visible entry comes from the table and lists the current role |
| `SideBar.VisibleComplete` | src/components/UI/SideBar.jsx:37 | every table entry listing the current role is visible |
| `SideBar.InmateMenu` | src/components/UI/SideBar.jsx:29-37 | role "INMATE" sees exactly Inmate Profile then Inmate Transaction |
| `SideBar.PosMenu` | src/components/UI/SideBar.jsx:23-37 | role "POS" sees exactly Tuck Shop POS |
| `SideBar.UnknownRoleMenu` | src/components/UI/SideBar.jsx:18-37 | a null role, or one listed by no entry, sees an empty menu |
| `SideBar.VisibleSplit` | src/components/UI/SideBar.jsx:37 | filtering a concatenation filters each part |
| `SideBar.NoneListed` | src/components/UI/SideBar.jsx:37 | entries none of which lists the role are all filtered out |
| `SideBar.PathsDistinct` | src/components/UI/SideBar.jsx:19-30 | no two table entries share a path |
| `SideBar.AtMostOneActive` | src/components/UI/SideBar.jsx:37-50 | for any role and pathname, at most one visible entry is active |

## Left out

- The face detector (face-api.js model loading, detector options, `detectSingleFace` with landmarks and descriptor) is a foreign call. Its result is an input of `DetectorReturned` and `ManualCapture`.
- Camera acquisition, video playback and the `readyState` wait loop are browser I/O. A session starts where `startCountdown` runs. Stopping the camera tracks is folded into `Close` as closing the dialog.
- Timers are an abstract clock. `setInterval` and `setTimeout` become the methods `Tick`, `PollTick` and `TimeoutFires`, which the caller invokes in time order. Polls scheduled before the timeout run before it. The no-face hint's throttle reads the time of the latest scheduled event instead of `Date.now()` at the moment the detector returns.
- Concurrency beyond the one `await` on the detector is not modelled. The two ways it resumes are `DetectorReturned` and `DetectorThrew`.
- Floating point: coordinates and ratios are `real`. IEEE rounding, Infinity and NaN are not modelled.
- FaceCapture.CaptureSession.DetectorReturned: requires every denominator to be non-zero for a detected face: video size, box height, landmark counts and the distance between the eye means. This holds even where an earlier check would have returned before the division. The sizes are taken as positive because DOM video sizes and detector boxes are never negative. The source divides unguarded and would compute Infinity or NaN.
- Presentation: message and snackbar texts, JSX, the `beforeunload` listener and its cleanup. The status line and the notifications are kept only as tags.
- Reopening the dialog is not modelled. It would start fresh closures while the earlier opening's timers still run. A session models one opening.
- FaceCapture.CaptureSession.ManualCapture: the button's own detector call (FaceId.jsx:240-243) is treated as returning at the moment of the click, while the dialog is open. The code does not check `open` or `hasCaptured` when that call returns (FaceId.jsx:253-254). So the model excludes two behaviours of the code: a second emission, from a second click or from a loop capture while a manual call is still running, and an emission after Close was pressed during the call.
- A detector call from the manual button that throws is not modelled. In the source it is an unhandled rejection that changes nothing.
- Only the balanced threshold preset exists. It is the one hard-coded in FaceId.jsx. Another pipeline variant with different thresholds is not part of this model.
- In `SideBar.jsx`, the icons, the `navigate` click handler, `localStorage` and the router hook are left out. The role and the pathname are parameters.
- `src/pages/RayzorPayPayment.jsx`, `src/pages/Inventory/StoreInventory.jsx` and `src/pages/Inventory/CanteenInventory.jsx` are not part of this model. They are a payment-gateway SDK with network calls, and CRUD screens over fetched data.
