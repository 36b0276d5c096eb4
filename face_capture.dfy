/**
 * The capture session of the face dialog (src/components/faceidcomponent/FaceId.jsx):
 * the 3-tick countdown (`startCountdown`), the 400 ms detection loop with its
 * closure variables (`startAutoDetection`), the 15000 ms timeout, closing the
 * dialog and the manual capture button (`captureFace`).
 *
 * The timers become methods that the environment calls in time order: `Tick`
 * is one firing of the countdown interval, `PollTick` one firing of the
 * detection interval up to its `await`, `DetectorReturned` and `DetectorThrew`
 * the two ways that `await` resumes, and `TimeoutFires` the timeout. The
 * detector and the video element are inputs of those methods.
 */
module FaceCapture {
  import opened Options
  import opened Geometry
  import opened Alignment
  import opened Stability

  /** The countdown's first value. */
  const CountdownStart: int := 3
  /** The detection interval's period. */
  const PollIntervalMs: nat := 400
  /** `maxDetectionTime`. */
  const TimeoutMs: nat := 15000
  /** The no-face hint is refreshed at most this often. */
  const NoFaceHintGapMs: nat := 1500

  /** The `mode` prop; only "register" announces a successful capture. */
  datatype Mode = Register | Match

  /** The status line (message texts are not modelled, only which one is shown). */
  datatype Status =
    | CameraStarted        // "Camera started."
    | AlignPrompt          // "Align your face roughly in the center ..."
    | Hint(reason: Reason) // the message of the first failing check
    | Aligned(count: nat)  // "Face aligned (n/3)..."
    | NoValidFace          // "No valid face detected. Please try again."

  /** The snackbar notifications the session raises. */
  datatype Notice = CaptureSuccess | NoFaceWarning | TimeoutWarning

  class CaptureSession {
    const mode: Mode

    /** The dialog is open, so the <video> element is mounted and `videoRef.current` is set. */
    var open: bool
    /** The arguments passed to `setFaceIdData`, oldest first. */
    var emitted: seq<Descriptor>
    var notices: seq<Notice>
    var status: Status
    /** The `countdown` state shown over the video (null when absent). */
    var countdownShown: Option<int>

    // startCountdown's closure
    var counter: int
    /** The countdown's 1000 ms interval has not been cleared. */
    var countdownRunning: bool

    // startAutoDetection's closure
    /** How many times the countdown started the detection loop. */
    ghost var detectionRuns: nat
    /** The detection interval has not been cleared. */
    var pollingActive: bool
    /** The 15000 ms timeout has not fired yet. */
    var timeoutPending: bool
    var hasCaptured: bool
    var consecutiveDetections: nat
    var isDetecting: bool
    /** Milliseconds since the detection loop started, as of the latest timer event. */
    var elapsed: nat
    /** When the detection interval fires next. */
    var nextPollAt: nat
    /** `lastDetectionTime`: when the no-face hint was last shown. */
    var lastNoFaceHint: nat
    /** The descriptor the loop handed to `captureFace`. */
    var captured: Option<Descriptor>
    /** The verdicts of the detector results the loop processed, oldest first. */
    ghost var history: seq<Verdict>

    ghost predicate Valid()
      reads this
    {
      && (countdownRunning ==> 1 <= counter <= CountdownStart && detectionRuns == 0)
      && (!countdownRunning ==> counter == 0 && detectionRuns == 1)
      && (detectionRuns == 0 ==> !pollingActive && !timeoutPending && !isDetecting && history == [])
      && StreakTracksHistory()
      && (hasCaptured <==> consecutiveDetections == RequiredStable)
      && (hasCaptured ==>
            && !pollingActive && !isDetecting && !open
            && captured.Some? && emitted != [] && emitted[|emitted| - 1] == captured.value)
      && (!hasCaptured ==> captured.None?)
      && (pollingActive ==> timeoutPending)
      && EmittedOnceAtMost()
    }

    /**
     * The streak field is the streak of the verdicts processed so far, and no
     * earlier point of that history had already reached the requirement.
     */
    ghost predicate StreakTracksHistory()
      reads this`consecutiveDetections, this`history
    {
      && consecutiveDetections == Streak(history)
      && NotReachedBefore(history)
      && consecutiveDetections <= RequiredStable
    }

    /**
     * The descriptor is handed to the parent at most once, and only once the
     * dialog has closed. This holds because the manual button's detector call
     * is taken to return at the click.
     */
    ghost predicate EmittedOnceAtMost()
      reads this`open, this`emitted
    {
      (open ==> emitted == []) && |emitted| <= 1
    }

    /**
     * The state `startAutoDetection` leaves: the closure variables are fresh
     * (no capture, zero streak, nothing in flight, the hint clock at the loop's
     * start), the interval and the timeout are armed and the prompt is shown.
     */
    ghost predicate LoopStarted()
      reads this
    {
      && detectionRuns == 1 && pollingActive && timeoutPending
      && !hasCaptured && !isDetecting && consecutiveDetections == 0 && history == []
      && captured == None && elapsed == 0 && lastNoFaceHint == 0 && nextPollAt == PollIntervalMs
      && status == AlignPrompt
    }

    /** The dialog once its camera is playing: `startCountdown` has just run. */
    constructor (mode: Mode)
      ensures Valid()
      ensures this.mode == mode && open && emitted == [] && notices == [] && status == CameraStarted
      ensures countdownRunning && counter == CountdownStart && countdownShown == Some(CountdownStart)
      ensures detectionRuns == 0 && !pollingActive && !timeoutPending
      ensures !hasCaptured && !isDetecting && consecutiveDetections == 0 && captured == None
    {
      this.mode := mode;
      open := true;
      emitted := [];
      notices := [];
      status := CameraStarted;
      counter := CountdownStart;
      countdownShown := Some(CountdownStart);
      countdownRunning := true;
      detectionRuns := 0;
      pollingActive := false;
      timeoutPending := false;
      hasCaptured := false;
      consecutiveDetections := 0;
      isDetecting := false;
      elapsed := 0;
      nextPollAt := 0;
      lastNoFaceHint := 0;
      captured := None;
      history := [];
    }

    /**
     * One firing of the countdown interval: the counter drops by one and is
     * shown; on reaching 0 the interval is cleared, the display is cleared and
     * the detection loop starts.
     */
    method Tick()
      requires Valid() && countdownRunning
      modifies this`counter, this`countdownRunning, this`countdownShown
      modifies this`detectionRuns, this`pollingActive, this`timeoutPending, this`hasCaptured
      modifies this`consecutiveDetections, this`isDetecting, this`elapsed, this`nextPollAt
      modifies this`lastNoFaceHint, this`captured, this`history, this`status
      ensures Valid()
      ensures counter == old(counter) - 1
      ensures counter > 0 ==>
        && countdownRunning && countdownShown == Some(counter) && detectionRuns == 0
        && status == old(status) && elapsed == old(elapsed) && nextPollAt == old(nextPollAt)
        && lastNoFaceHint == old(lastNoFaceHint)
      ensures counter == 0 ==> !countdownRunning && countdownShown == None && LoopStarted()
      ensures !hasCaptured && !isDetecting && consecutiveDetections == 0 && history == []
    {
      counter := counter - 1;
      if counter == 0 {
        countdownRunning := false;
        countdownShown := None;
        StartAutoDetection();
      } else {
        countdownShown := Some(counter);
      }
    }

    /** `startAutoDetection`: fresh closure variables, the interval and the timeout are set. */
    method StartAutoDetection()
      requires !countdownRunning && counter == 0 && detectionRuns == 0
      modifies this`detectionRuns, this`pollingActive, this`timeoutPending, this`hasCaptured
      modifies this`consecutiveDetections, this`isDetecting, this`elapsed, this`nextPollAt
      modifies this`lastNoFaceHint, this`captured, this`history, this`status
      ensures LoopStarted() && StreakTracksHistory()
    {
      history := [];
      consecutiveDetections := 0;
      assert StreakTracksHistory() by { assert Streak(history) == 0; }
      detectionRuns := detectionRuns + 1;
      hasCaptured := false;
      isDetecting := false;
      elapsed := 0;
      lastNoFaceHint := 0;
      captured := None;
      status := AlignPrompt;
      pollingActive := true;
      nextPollAt := PollIntervalMs;
      timeoutPending := true;
    }

    /**
     * One firing of the detection interval, up to its `await`: it returns
     * without work after a capture, when the video element is gone or while an
     * earlier detector call is still in flight; otherwise it marks a call in
     * flight (`started`). Polls scheduled before the timeout run before it.
     */
    method PollTick() returns (started: bool)
      requires Valid() && pollingActive && nextPollAt < TimeoutMs
      modifies this`elapsed, this`nextPollAt, this`isDetecting
      ensures Valid()
      ensures started <==> !hasCaptured && open && !old(isDetecting)
      ensures isDetecting == (old(isDetecting) || started)
      ensures elapsed == old(nextPollAt) && nextPollAt == old(nextPollAt) + PollIntervalMs
    {
      elapsed := nextPollAt;
      nextPollAt := nextPollAt + PollIntervalMs;
      if hasCaptured || !open || isDetecting {
        return false;
      }
      isDetecting := true;
      started := true;
    }

    /**
     * The in-flight detector call returns `det`, with the video element's
     * size `video` at that moment. No face resets the streak. A face found
     * after the dialog closed makes the source read `videoWidth` of a missing
     * element; the error is caught and nothing but `isDetecting` changes.
     * Otherwise the gate runs with the balanced thresholds and `Process`
     * handles its verdict.
     */
    method DetectorReturned(det: Option<Detection>, video: Video)
      requires Valid() && isDetecting
      requires open && det.Some? ==> Measurable(det.value, video)
      modifies this`consecutiveDetections, this`history, this`isDetecting, this`status
      modifies this`lastNoFaceHint, this`hasCaptured, this`pollingActive, this`captured
      modifies this`emitted, this`open, this`countdownShown, this`notices
      ensures Valid() && !isDetecting
      ensures det.None? ==>
        && history == old(history) + [Reject(NoFace)] && consecutiveDetections == 0
        && status == (if old(elapsed - lastNoFaceHint) > NoFaceHintGapMs then Hint(NoFace) else old(status))
      ensures lastNoFaceHint ==
        if det.None? && old(elapsed - lastNoFaceHint) > NoFaceHintGapMs then elapsed else old(lastNoFaceHint)
      ensures det.Some? && !old(open) ==>
        && history == old(history) && consecutiveDetections == old(consecutiveDetections)
        && status == old(status)
      ensures det.Some? && old(open) ==>
        && history == old(history) + [Assess(det, video, Balanced)]
        && (Assess(det, video, Balanced).Reject? ==>
              consecutiveDetections == 0 && status == Hint(Assess(det, video, Balanced).reason))
        && (Assess(det, video, Balanced) == Pass ==>
              consecutiveDetections == old(consecutiveDetections) + 1
              && status == Aligned(consecutiveDetections))
      ensures hasCaptured <==> consecutiveDetections == RequiredStable
      ensures hasCaptured ==>
        && det.Some? && captured == Some(det.value.descriptor)
        && emitted == old(emitted) + [det.value.descriptor]
        && notices == old(notices) + (if mode == Register then [CaptureSuccess] else [])
        && !open && !pollingActive && countdownShown == None
      ensures !hasCaptured ==>
        && captured == None && emitted == old(emitted) && notices == old(notices)
        && open == old(open) && pollingActive == old(pollingActive)
        && countdownShown == old(countdownShown)
    {
      match det
      case None =>
        NoFaceReturned();
      case Some(d) =>
        if open {
          var verdict := Assess(det, video, Balanced);
          Process(verdict, d.descriptor);
        } else {
          isDetecting := false;
        }
    }

    /**
     * The detector found no face: the no-face hint is shown, and its clock
     * restarted, only when more than 1500 ms passed since it was last shown;
     * the streak resets either way.
     */
    method NoFaceReturned()
      requires Valid() && isDetecting
      modifies this`consecutiveDetections, this`history, this`isDetecting, this`status
      modifies this`lastNoFaceHint
      ensures Valid() && !isDetecting
      ensures history == old(history) + [Reject(NoFace)] && consecutiveDetections == 0
      ensures old(elapsed - lastNoFaceHint) > NoFaceHintGapMs ==>
        status == Hint(NoFace) && lastNoFaceHint == elapsed
      ensures old(elapsed - lastNoFaceHint) <= NoFaceHintGapMs ==>
        status == old(status) && lastNoFaceHint == old(lastNoFaceHint)
    {
      if elapsed - lastNoFaceHint > NoFaceHintGapMs {
        status := Hint(NoFace);
        lastNoFaceHint := elapsed;
      }
      Record(Reject(NoFace));
      isDetecting := false;
    }

    /**
     * The rest of the interval body once a face was gated with verdict `v`: a
     * rejection resets the streak and shows its hint; a pass raises the streak,
     * and the pass that brings it to 3 sets `hasCaptured`, stops the interval
     * and hands this frame's descriptor to `captureFace`. Every path clears the
     * in-flight flag.
     */
    method Process(v: Verdict, descriptor: Descriptor)
      requires Valid() && isDetecting && open
      modifies this`consecutiveDetections, this`history, this`isDetecting, this`status
      modifies this`hasCaptured, this`pollingActive, this`captured
      modifies this`emitted, this`open, this`countdownShown, this`notices
      ensures Valid() && !isDetecting
      ensures history == old(history) + [v]
      ensures v.Reject? ==> consecutiveDetections == 0 && status == Hint(v.reason)
      ensures v == Pass ==>
        consecutiveDetections == old(consecutiveDetections) + 1 && status == Aligned(consecutiveDetections)
      ensures hasCaptured <==> consecutiveDetections == RequiredStable
      ensures hasCaptured ==>
        && captured == Some(descriptor) && emitted == old(emitted) + [descriptor]
        && notices == old(notices) + (if mode == Register then [CaptureSuccess] else [])
        && !open && !pollingActive && countdownShown == None
      ensures !hasCaptured ==>
        && captured == None && emitted == old(emitted) && notices == old(notices)
        && open == old(open) && pollingActive == old(pollingActive)
        && countdownShown == old(countdownShown)
    {
      Record(v);
      if v.Reject? {
        status := Hint(v.reason);
      } else {
        status := Aligned(consecutiveDetections);
        if consecutiveDetections >= RequiredStable {
          hasCaptured := true;
          pollingActive := false;
          captured := Some(descriptor);
          CaptureFace(descriptor);
        }
      }
      isDetecting := false;
    }

    /** Updates the streak for one processed verdict. */
    method Record(v: Verdict)
      requires Valid() && isDetecting
      modifies this`consecutiveDetections, this`history
      ensures history == old(history) + [v] && NotReachedBefore(history)
      ensures consecutiveDetections == Streak(history) <= RequiredStable
      ensures v.Reject? ==> consecutiveDetections == 0
      ensures v == Pass ==> consecutiveDetections == old(consecutiveDetections) + 1
    {
      ExtendNotReachedBefore(history, v);
      if v == Pass {
        StreakAfterPass(history);
        consecutiveDetections := consecutiveDetections + 1;
      } else {
        StreakAfterReject(history, v.reason);
        consecutiveDetections := 0;
      }
      history := history + [v];
    }

    /** The loop's path through `captureFace`: the descriptor is emitted and the dialog closes. */
    method CaptureFace(descriptor: Descriptor)
      modifies this`emitted, this`open, this`countdownShown, this`notices
      ensures emitted == old(emitted) + [descriptor] && !open && countdownShown == None
      ensures notices == old(notices) + (if mode == Register then [CaptureSuccess] else [])
    {
      emitted := emitted + [descriptor];
      Close();
      if mode == Register {
        notices := notices + [CaptureSuccess];
      }
    }

    /**
     * The parent sets `open` to false (the Close button, or a capture): the
     * effect stops the camera and clears the countdown display, and the video
     * element unmounts. The countdown, the interval and the timeout are NOT
     * cleared; later polls return early because the video element is gone.
     */
    method Close()
      modifies this`open, this`countdownShown
      ensures !open && countdownShown == None
      ensures old(Valid()) ==> Valid()
    {
      open := false;
      countdownShown := None;
    }

    /**
     * The in-flight detector call throws: the error is logged and only the
     * in-flight flag is cleared; the streak is left as it was.
     */
    method DetectorThrew()
      requires Valid() && isDetecting
      modifies this`isDetecting
      ensures Valid() && !isDetecting
    {
      isDetecting := false;
    }

    /**
     * The 15000 ms timeout fires after every poll scheduled before it. Without
     * a capture it stops the detection interval and shows the timeout status
     * and warning; after a capture it does nothing.
     */
    method TimeoutFires()
      requires Valid() && timeoutPending
      requires pollingActive ==> TimeoutMs < nextPollAt
      modifies this`elapsed, this`timeoutPending, this`pollingActive, this`status, this`notices
      ensures Valid() && !timeoutPending && elapsed == TimeoutMs
      ensures hasCaptured ==>
        status == old(status) && notices == old(notices) && pollingActive == old(pollingActive)
      ensures !hasCaptured ==>
        !pollingActive && status == NoValidFace && notices == old(notices) + [TimeoutWarning]
    {
      elapsed := TimeoutMs;
      timeoutPending := false;
      if !hasCaptured {
        pollingActive := false;
        status := NoValidFace;
        notices := notices + [TimeoutWarning];
      }
    }

    /**
     * The capture button: `captureFace()` without a loop descriptor asks the
     * detector (`det`) for the current frame, without the alignment checks or
     * the streak. No face: a warning, and the dialog stays open. A face: its
     * descriptor is emitted and the dialog closes, as on the loop's path.
     */
    method ManualCapture(det: Option<Detection>)
      requires Valid() && open
      modifies this`emitted, this`open, this`countdownShown, this`notices
      ensures Valid()
      ensures det.None? ==>
        && open && emitted == old(emitted) && countdownShown == old(countdownShown)
        && notices == old(notices) + [NoFaceWarning]
      ensures det.Some? ==>
        && !open && emitted == old(emitted) + [det.value.descriptor] && countdownShown == None
        && notices == old(notices) + (if mode == Register then [CaptureSuccess] else [])
    {
      match det
      case None =>
        notices := notices + [NoFaceWarning];
      case Some(d) =>
        CaptureFace(d.descriptor);
    }
  }

  /** A face centred in a 640 x 480 video, level and looking straight ahead. */
  function CentredFace(): Detection
  {
    Detection(Box(220.0, 140.0, 200.0, 200.0),
              Landmarks([Point(270.0, 200.0)], [Point(370.0, 200.0)], [Point(320.0, 250.0)]),
              [0.5, 0.25])
  }

  const Webcam: Video := Video(640.0, 480.0)

  lemma CentredFacePasses()
    ensures Measurable(CentredFace(), Webcam)
    ensures Assess(Some(CentredFace()), Webcam, Balanced) == Pass
  {
    var lm := CentredFace().landmarks;
    MeanOfSinglePoint(lm.leftEye[0]);
    MeanOfSinglePoint(lm.rightEye[0]);
    MeanOfSinglePoint(lm.nose[0]);
  }

  /** The countdown shows 3, 2, 1, then clears and starts the detection loop. */
  method CountdownScenario()
  {
    var s := new CaptureSession(Register);
    assert s.countdownShown == Some(3);
    s.Tick();
    assert s.countdownShown == Some(2) && s.detectionRuns == 0;
    s.Tick();
    assert s.countdownShown == Some(1) && s.detectionRuns == 0;
    s.Tick();
    assert s.countdownShown == None && !s.countdownRunning && s.detectionRuns == 1;
    assert s.pollingActive && s.consecutiveDetections == 0;
  }

  /**
   * One poll of an open dialog whose detector call returns an aligned face:
   * the streak rises by one, and at 3 the face's descriptor is emitted.
   */
  method AlignedPoll(s: CaptureSession, face: Detection, video: Video)
    requires s.Valid() && s.open && s.pollingActive && !s.isDetecting && s.nextPollAt < TimeoutMs
    requires Measurable(face, video) && Assess(Some(face), video, Balanced) == Pass
    modifies s
    ensures s.Valid() && !s.isDetecting && s.timeoutPending
    ensures s.consecutiveDetections == old(s.consecutiveDetections) + 1
    ensures s.elapsed == old(s.nextPollAt) && s.nextPollAt == old(s.nextPollAt) + PollIntervalMs
    ensures s.hasCaptured ==>
      && s.emitted == old(s.emitted) + [face.descriptor] && !s.open
      && s.notices == old(s.notices) + (if s.mode == Register then [CaptureSuccess] else [])
    ensures !s.hasCaptured ==>
      s.open && s.pollingActive && s.emitted == old(s.emitted) && s.notices == old(s.notices)
  {
    var started := s.PollTick();
    s.DetectorReturned(Some(face), video);
  }

  /**
   * From the start of the detection loop, three aligned frames in a row: the
   * streak goes 1, 2, 3 and the third frame's descriptor is emitted; the
   * timeout that fires later changes nothing.
   */
  method StableCaptureScenario(s: CaptureSession, face: Detection, video: Video)
    requires s.Valid() && s.mode == Register && s.open && s.emitted == [] && s.notices == []
    requires s.pollingActive && !s.isDetecting && s.consecutiveDetections == 0
    requires s.nextPollAt == PollIntervalMs
    requires Measurable(face, video) && Assess(Some(face), video, Balanced) == Pass
    modifies s
  {
    AlignedPoll(s, face, video);
    assert s.consecutiveDetections == 1 && s.open;
    AlignedPoll(s, face, video);
    assert s.consecutiveDetections == 2 && s.open;
    AlignedPoll(s, face, video);
    assert s.hasCaptured && s.emitted == [face.descriptor] && !s.open;
    assert s.notices == [CaptureSuccess];
    s.TimeoutFires();
    assert s.notices == [CaptureSuccess] && s.emitted == [face.descriptor];
  }

  /**
   * The timeout does not cancel a detector call already in flight. With a
   * streak of 2 and the last poll before the timeout due at 14800 ms: the poll
   * starts a call, the timeout fires (warning, interval stopped), and when the
   * call returns a third aligned frame, that frame is still captured and emitted.
   */
  method CaptureAfterTimeoutScenario(s: CaptureSession, face: Detection, video: Video)
    requires s.Valid() && s.mode == Match && s.open && s.emitted == [] && s.notices == []
    requires s.pollingActive && !s.isDetecting && s.consecutiveDetections == 2
    requires s.nextPollAt == 14800
    requires Measurable(face, video) && Assess(Some(face), video, Balanced) == Pass
    modifies s
  {
    var started := s.PollTick();
    assert started && s.nextPollAt == 15200;
    s.TimeoutFires();
    assert !s.pollingActive && s.status == NoValidFace && s.notices == [TimeoutWarning];
    s.DetectorReturned(Some(face), video);
    assert s.hasCaptured && s.emitted == [face.descriptor] && s.notices == [TimeoutWarning];
  }

  /**
   * The first no-face hint is timed from the start of the detection loop: the
   * poll at 400 ms starts a call, the polls up to 1600 ms find it in flight,
   * and when it returns no face at 1600 ms the hint is shown (more than
   * 1500 ms after the loop started).
   */
  method FirstNoFaceHintScenario()
  {
    var s := new CaptureSession(Match);
    s.Tick();
    s.Tick();
    s.Tick();
    var started := s.PollTick();
    assert started && s.elapsed == 400;
    started := s.PollTick();
    started := s.PollTick();
    started := s.PollTick();
    assert !started && s.elapsed == 1600;
    s.DetectorReturned(None, Webcam);
    assert s.status == Hint(NoFace) && s.lastNoFaceHint == 1600;
  }

  /**
   * The no-face hint is throttled: shown at 2000 ms, replaced by the too-far
   * hint at 2400 ms, and not shown again by the no-face frame at 2800 ms,
   * which is within 1500 ms of the last one; the streak still resets.
   */
  method NoFaceHintThrottleScenario(s: CaptureSession, far: Detection, video: Video)
    requires s.Valid() && s.open && s.pollingActive && !s.isDetecting && !s.hasCaptured
    requires s.nextPollAt == 2000 && s.lastNoFaceHint == 0
    requires Measurable(far, video) && Assess(Some(far), video, Balanced) == Reject(TooFar)
    modifies s
  {
    var started := s.PollTick();
    assert started;
    s.DetectorReturned(None, video);
    assert s.status == Hint(NoFace) && s.lastNoFaceHint == 2000;
    started := s.PollTick();
    assert started;
    s.DetectorReturned(Some(far), video);
    assert s.status == Hint(TooFar);
    started := s.PollTick();
    assert started && s.elapsed == 2800;
    s.DetectorReturned(None, video);
    assert s.status == Hint(TooFar) && s.lastNoFaceHint == 2000 && s.consecutiveDetections == 0;
  }
}
