/**
 * The alignment gate of the face-capture loop: the ordered threshold checks
 * that the detection interval applies to each detector result
 * (src/components/faceidcomponent/FaceId.jsx, lines 115-201). The first check
 * that fails decides the hint shown to the user; a frame that passes every
 * check counts towards the stable streak.
 */
module Alignment {
  import opened Options
  import opened Geometry

  /** The limits the gate compares against. */
  datatype Thresholds = Thresholds(
    minRatio: real,
    maxRatio: real,
    maxCenterX: real,
    maxCenterY: real,
    maxNoseOffset: real,
    maxTilt: real)

  /** The values hard-coded in the detection interval ("tuned thresholds (balanced)"). */
  const Balanced: Thresholds := Thresholds(0.2, 0.65, 0.3, 0.3, 0.25, 0.1)

  /** Why a frame was rejected, in the order the checks run. */
  datatype Reason =
    | NoFace      // "No face detected"
    | TooFar      // ratio below the minimum: "Move closer"
    | TooClose    // ratio above the maximum: "Move slightly farther"
    | OffCenterX  // "Move your face toward the center"
    | OffCenterY  // "Adjust up/down"
    | Turned      // nose offset too large: "Please face the camera directly"
    | Tilted      // eye tilt too large: "Keep your head level"

  datatype Verdict = Pass | Reject(reason: Reason)

  /** A detector result the gate can measure (no face is always measurable). */
  predicate Gateable(det: Option<Detection>, video: Video)
  {
    det.Some? ==> Measurable(det.value, video)
  }

  /** The gate, with the checks in the source's order; each comparison is strict. */
  function Assess(det: Option<Detection>, video: Video, t: Thresholds): Verdict
    requires Gateable(det, video)
  {
    match det
    case None => Reject(NoFace)
    case Some(d) =>
      var faceWidthRatio := WidthRatio(d.box, video);
      if faceWidthRatio < t.minRatio then Reject(TooFar)
      else if faceWidthRatio > t.maxRatio then Reject(TooClose)
      else if CenterOffsetX(d.box, video) > t.maxCenterX then Reject(OffCenterX)
      else if CenterOffsetY(d.box, video) > t.maxCenterY then Reject(OffCenterY)
      else if NoseOffset(d.landmarks) > t.maxNoseOffset then Reject(Turned)
      else if EyeTilt(d.box, d.landmarks) > t.maxTilt then Reject(Tilted)
      else Pass
  }

  /** The position of a check in the order the gate runs them. */
  function Rank(k: Reason): nat
  {
    match k
    case NoFace => 0
    case TooFar => 1
    case TooClose => 2
    case OffCenterX => 3
    case OffCenterY => 4
    case Turned => 5
    case Tilted => 6
  }

  /** The check for reason k, taken on its own, rejects the frame. */
  predicate Fails(det: Option<Detection>, video: Video, t: Thresholds, k: Reason)
    requires Gateable(det, video)
  {
    match k
    case NoFace => det.None?
    case TooFar => det.Some? && WidthRatio(det.value.box, video) < t.minRatio
    case TooClose => det.Some? && WidthRatio(det.value.box, video) > t.maxRatio
    case OffCenterX => det.Some? && CenterOffsetX(det.value.box, video) > t.maxCenterX
    case OffCenterY => det.Some? && CenterOffsetY(det.value.box, video) > t.maxCenterY
    case Turned => det.Some? && NoseOffset(det.value.landmarks) > t.maxNoseOffset
    case Tilted => det.Some? && EyeTilt(det.value.box, det.value.landmarks) > t.maxTilt
  }

  /** Check k fails and every check ranked before it holds. */
  predicate FirstFailure(det: Option<Detection>, video: Video, t: Thresholds, k: Reason)
    requires Gateable(det, video)
  {
    Fails(det, video, t, k) && forall j :: Rank(j) < Rank(k) ==> !Fails(det, video, t, j)
  }

  /** A detected face lies inside every threshold; the bounds are inclusive. */
  predicate WithinThresholds(d: Detection, video: Video, t: Thresholds)
    requires Measurable(d, video)
  {
    && t.minRatio <= WidthRatio(d.box, video) <= t.maxRatio
    && CenterOffsetX(d.box, video) <= t.maxCenterX
    && CenterOffsetY(d.box, video) <= t.maxCenterY
    && NoseOffset(d.landmarks) <= t.maxNoseOffset
    && EyeTilt(d.box, d.landmarks) <= t.maxTilt
  }

  /** The gate rejects with reason k exactly when k is the first failing check. */
  lemma AssessIsFirstFailure(det: Option<Detection>, video: Video, t: Thresholds, k: Reason)
    requires Gateable(det, video)
    ensures Assess(det, video, t) == Reject(k) <==> FirstFailure(det, video, t, k)
  {
    if Assess(det, video, t) == Reject(k) {
      forall j | Rank(j) < Rank(k) ensures !Fails(det, video, t, j) {
        match j
        case NoFace =>
        case TooFar =>
        case TooClose =>
        case OffCenterX =>
        case OffCenterY =>
        case Turned =>
        case Tilted =>
      }
    }
    if FirstFailure(det, video, t, k) {
      // name every check so that the "earlier checks hold" quantifier is instantiated
      assert Rank(NoFace) == 0 && Rank(TooFar) == 1 && Rank(TooClose) == 2;
      assert Rank(OffCenterX) == 3 && Rank(OffCenterY) == 4 && Rank(Turned) == 5;
    }
  }

  /** The gate passes a frame exactly when a face was detected and it lies within every threshold. */
  lemma AssessPassIff(det: Option<Detection>, video: Video, t: Thresholds)
    requires Gateable(det, video)
    ensures Assess(det, video, t) == Pass <==> det.Some? && WithinThresholds(det.value, video, t)
  {
  }

  /** A frame is either passed or has exactly one first failing check. */
  lemma PassOrOneFirstFailure(det: Option<Detection>, video: Video, t: Thresholds)
    requires Gateable(det, video)
    ensures Assess(det, video, t) == Pass <==> forall k :: !Fails(det, video, t, k)
    ensures Assess(det, video, t).Reject? ==>
      && FirstFailure(det, video, t, Assess(det, video, t).reason)
      && forall k :: FirstFailure(det, video, t, k) ==> k == Assess(det, video, t).reason
  {
    if Assess(det, video, t) == Pass {
      forall k ensures !Fails(det, video, t, k) {}
    } else {
      AssessIsFirstFailure(det, video, t, Assess(det, video, t).reason);
      forall k | FirstFailure(det, video, t, k) ensures k == Assess(det, video, t).reason {
        AssessIsFirstFailure(det, video, t, k);
      }
    }
  }

  /** With the hard-coded thresholds: the inclusive pass region of the detection interval. */
  lemma BalancedPassIff(d: Detection, video: Video)
    requires Measurable(d, video)
    ensures Assess(Some(d), video, Balanced) == Pass <==>
      && 0.2 <= WidthRatio(d.box, video) <= 0.65
      && CenterOffsetX(d.box, video) <= 0.3
      && CenterOffsetY(d.box, video) <= 0.3
      && NoseOffset(d.landmarks) <= 0.25
      && EyeTilt(d.box, d.landmarks) <= 0.1
  {
    AssessPassIff(Some(d), video, Balanced);
  }

  /**
   * Because the nose offset is divided by `rightEyeX - leftEyeX` without an
   * absolute value, a face whose right-eye mean lies left of its left-eye mean
   * is never rejected as turned, whatever the nose position.
   */
  lemma SwappedEyesNeverTurned(d: Detection, video: Video, t: Thresholds)
    requires Measurable(d, video)
    requires t.maxNoseOffset >= 0.0
    requires MeanX(d.landmarks.rightEye) < MeanX(d.landmarks.leftEye)
    ensures Assess(Some(d), video, t) != Reject(Turned)
  {
  }
}
