/**
 * The geometry of one face detection (src/components/faceidcomponent/FaceId.jsx,
 * the body of the detection interval): how wide the face box is relative to the
 * video, how far the box centre is from the frame centre, how far the nose sits
 * from the midpoint of the eyes and how tilted the eye line is.
 *
 * Coordinates are modelled as `real`; the source computes in IEEE doubles.
 */
module Geometry {

  datatype Point = Point(x: real, y: real)

  /** The detector's bounding box: top-left corner, width and height. */
  datatype Box = Box(x: real, y: real, width: real, height: real)

  /** The three landmark groups the orientation check reads. */
  datatype Landmarks = Landmarks(leftEye: seq<Point>, rightEye: seq<Point>, nose: seq<Point>)

  /** The face descriptor (a Float32Array of the detector). */
  type Descriptor = seq<real>

  /** What the detector returns when it finds a face. */
  datatype Detection = Detection(box: Box, landmarks: Landmarks, descriptor: Descriptor)

  /** The intrinsic size of the video element (`videoWidth`, `videoHeight`). */
  datatype Video = Video(width: real, height: real)

  function Abs(v: real): (r: real)
    ensures r >= 0.0 && (r == v || r == -v)
  {
    if v < 0.0 then -v else v
  }

  /** Left-to-right sum, as `reduce((sum, v) => sum + v, 0)` computes it. */
  function Sum(xs: seq<real>): real
  {
    if xs == [] then 0.0 else Sum(xs[..|xs| - 1]) + xs[|xs| - 1]
  }

  function Mean(xs: seq<real>): real
    requires |xs| > 0
  {
    Sum(xs) / |xs| as real
  }

  function Xs(ps: seq<Point>): seq<real>
  {
    seq(|ps|, i requires 0 <= i < |ps| => ps[i].x)
  }

  function Ys(ps: seq<Point>): seq<real>
  {
    seq(|ps|, i requires 0 <= i < |ps| => ps[i].y)
  }

  /** The mean x coordinate of a landmark group (`leftEyeX`, `rightEyeX`, `noseX`). */
  function MeanX(ps: seq<Point>): real
    requires |ps| > 0
  {
    Mean(Xs(ps))
  }

  /** The mean y coordinate of a landmark group (`leftEyeY`, `rightEyeY`). */
  function MeanY(ps: seq<Point>): real
    requires |ps| > 0
  {
    Mean(Ys(ps))
  }

  /** A sum of n values that all lie in [lo, hi] lies in [n * lo, n * hi]. */
  lemma {:induction false} SumBounds(xs: seq<real>, lo: real, hi: real)
    requires forall i :: 0 <= i < |xs| ==> lo <= xs[i] <= hi
    ensures |xs| as real * lo <= Sum(xs) <= |xs| as real * hi
  {
    if xs != [] {
      var init := xs[..|xs| - 1];
      SumBounds(init, lo, hi);
      assert |xs| as real * lo == |init| as real * lo + lo;
      assert |xs| as real * hi == |init| as real * hi + hi;
    }
  }

  /** The mean of a non-empty group lies between the smallest and the largest value. */
  lemma MeanBounds(xs: seq<real>, lo: real, hi: real)
    requires |xs| > 0
    requires forall i :: 0 <= i < |xs| ==> lo <= xs[i] <= hi
    ensures lo <= Mean(xs) <= hi
  {
    SumBounds(xs, lo, hi);
    var n := |xs| as real;
    assert Mean(xs) * n == Sum(xs);
  }

  /** A group of one point has that point as its mean. */
  lemma MeanOfSinglePoint(p: Point)
    ensures MeanX([p]) == p.x && MeanY([p]) == p.y
  {
    assert Xs([p])[..0] == [] && Ys([p])[..0] == [];
    assert Sum(Xs([p])) == Sum([]) + p.x && Sum(Ys([p])) == Sum([]) + p.y;
  }

  /**
   * `faceWidthRatio`: the share of the video's width that the face box covers.
   * A box no wider than the frame gives a ratio in [0, 1].
   */
  function WidthRatio(box: Box, video: Video): (r: real)
    requires video.width > 0.0
    ensures r * video.width == box.width
    ensures 0.0 <= box.width <= video.width ==> 0.0 <= r <= 1.0
  {
    box.width / video.width
  }

  /**
   * The centre offset along one axis: the distance from the box centre to the
   * frame centre, in units of half the frame. It is 0 exactly when the box is
   * centred and at most 1 when the box lies inside the frame.
   */
  function CenterOffset(start: real, extent: real, frame: real): (r: real)
    requires frame > 0.0
    ensures r >= 0.0
    ensures r * (frame / 2.0) == Abs(start + extent / 2.0 - frame / 2.0)
    ensures r == 0.0 <==> start + extent / 2.0 == frame / 2.0
    ensures 0.0 <= start && 0.0 <= extent && start + extent <= frame ==> r <= 1.0
  {
    var half := frame / 2.0;
    var distance := Abs(start + extent / 2.0 - half);
    assert 0.0 <= start && 0.0 <= extent && start + extent <= frame ==> distance <= half;
    distance / half
  }

  /** `centerOffsetX`. */
  function CenterOffsetX(box: Box, video: Video): real
    requires video.width > 0.0
  {
    CenterOffset(box.x, box.width, video.width)
  }

  /** `centerOffsetY`. */
  function CenterOffsetY(box: Box, video: Video): real
    requires video.height > 0.0
  {
    CenterOffset(box.y, box.height, video.height)
  }

  /** The landmark groups are non-empty and the eye means are apart, so `noseOffset` is defined. */
  predicate OrientationMeasurable(lm: Landmarks)
  {
    |lm.leftEye| > 0 && |lm.rightEye| > 0 && |lm.nose| > 0 &&
    MeanX(lm.rightEye) != MeanX(lm.leftEye)
  }

  /**
   * `noseOffset`: the horizontal distance from the nose to the midpoint of the
   * eyes, divided by `rightEyeX - leftEyeX` WITHOUT taking its absolute value,
   * as the source does. When the right eye's mean lies left of the left eye's,
   * the offset is never positive.
   */
  function NoseOffset(lm: Landmarks): (r: real)
    requires OrientationMeasurable(lm)
    ensures r * (MeanX(lm.rightEye) - MeanX(lm.leftEye))
            == Abs(MeanX(lm.nose) - (MeanX(lm.leftEye) + MeanX(lm.rightEye)) / 2.0)
    ensures MeanX(lm.rightEye) > MeanX(lm.leftEye) ==> r >= 0.0
    ensures MeanX(lm.rightEye) < MeanX(lm.leftEye) ==> r <= 0.0
    ensures r == 0.0 <==> MeanX(lm.nose) == (MeanX(lm.leftEye) + MeanX(lm.rightEye)) / 2.0
  {
    var leftEyeX := MeanX(lm.leftEye);
    var rightEyeX := MeanX(lm.rightEye);
    var eyeCenterX := (leftEyeX + rightEyeX) / 2.0;
    Abs(MeanX(lm.nose) - eyeCenterX) / (rightEyeX - leftEyeX)
  }

  /**
   * `eyeTilt`: the vertical distance between the eye means in units of the box
   * height. It is 0 exactly when the eyes are level.
   */
  function EyeTilt(box: Box, lm: Landmarks): (r: real)
    requires box.height > 0.0 && |lm.leftEye| > 0 && |lm.rightEye| > 0
    ensures r >= 0.0
    ensures r * box.height == Abs(MeanY(lm.leftEye) - MeanY(lm.rightEye))
    ensures r == 0.0 <==> MeanY(lm.leftEye) == MeanY(lm.rightEye)
  {
    Abs(MeanY(lm.leftEye) - MeanY(lm.rightEye)) / box.height
  }

  /**
   * Every denominator the detection step divides by is non-zero: the video
   * size, the box height, the landmark counts and the distance between the eye means.
   */
  predicate Measurable(d: Detection, video: Video)
  {
    video.width > 0.0 && video.height > 0.0 && d.box.height > 0.0 &&
    OrientationMeasurable(d.landmarks)
  }
}
