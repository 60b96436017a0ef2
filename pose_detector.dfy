/**
 * The posture-evaluation layer of the violin bowing coach: from one frame of
 * body keypoints to an elbow angle, a bow-position estimate, an acceptable
 * angle range and a verdict.
 *
 * Every operation is a pure function of one frame. The pose-estimation model
 * that produces the frame and the arccos step of the angle computation are
 * outside the model: the latter is a function parameter `angleAt`.
 */
module PoseDetector {

  datatype Option<T> = None | Some(value: T)

  /** One detected landmark as the pose model reports it: (y, x, confidence). */
  datatype Keypoint = Keypoint(y: real, x: real, score: real)

  /** The first two components of a keypoint, `keypoints[i][:2]`. */
  datatype Point = Point(y: real, x: real)

  /** A frame is the ordered keypoint sequence; the pose model reports 17. */
  type Frame = seq<Keypoint>

  // Indices of the body parts the evaluator looks at.
  const Nose: nat := 0
  const LeftShoulder: nat := 5
  const RightShoulder: nat := 6
  const RightElbow: nat := 8
  const RightWrist: nat := 10
  const RightHip: nat := 12

  /** An angle in degrees as arccos of a clipped cosine yields it. */
  type Degrees = a: real | 0.0 <= a <= 180.0 witness 0.0

  function Abs(v: real): (r: real)
    ensures r >= 0.0 && (r == v || r == -v)
  {
    if v < 0.0 then -v else v
  }

  function Position(k: Keypoint): Point
  {
    Point(k.y, k.x)
  }

  predicate NonNegative(p: Point)
  {
    p.y >= 0.0 && p.x >= 0.0
  }

  // ---------------------------------------------------------------------
  // Angle at the right shoulder
  // ---------------------------------------------------------------------

  /**
   * The elbow-shoulder-hip angle with the right shoulder as vertex.
   * `angleAt(shoulder, elbow, hip)` stands for the arccos of the normalised
   * dot product of (elbow - shoulder) and (hip - shoulder), in degrees.
   * No angle when a joint is missing from the frame (the index error the
   * source catches) or when any of the six coordinates is negative.
   */
  function CalculateAngle(frame: Frame, angleAt: (Point, Point, Point) -> Degrees): (r: Option<Degrees>)
    ensures r.None? <==>
      |frame| <= RightHip ||
      frame[RightShoulder].y < 0.0 || frame[RightShoulder].x < 0.0 ||
      frame[RightElbow].y < 0.0 || frame[RightElbow].x < 0.0 ||
      frame[RightHip].y < 0.0 || frame[RightHip].x < 0.0
    ensures r.Some? ==>
      r.value == angleAt(Position(frame[RightShoulder]), Position(frame[RightElbow]), Position(frame[RightHip]))
  {
    if |frame| <= RightHip then None
    else
      var shoulder := Position(frame[RightShoulder]);
      var elbow := Position(frame[RightElbow]);
      var hip := Position(frame[RightHip]);
      if !(NonNegative(shoulder) && NonNegative(elbow) && NonNegative(hip)) then None
      else Some(angleAt(shoulder, elbow, hip))
  }

  // ---------------------------------------------------------------------
  // Bow position
  // ---------------------------------------------------------------------

  datatype BowPosition = Frog | Middle | Tip

  /** The ratio each bow position is paired with for interpolation. */
  function CanonicalRatio(p: BowPosition): (r: real)
    ensures 0.0 <= r <= 1.0
  {
    match p
    case Frog => 0.0
    case Middle => 0.5
    case Tip => 1.0
  }

  /**
   * Horizontal wrist-to-nose distance relative to the horizontal shoulder
   * width. None on the source's exception path: a joint missing from the
   * frame, or a zero shoulder width.
   */
  function RelativeDistance(frame: Frame): (r: Option<real>)
    ensures r.None? <==> |frame| <= RightWrist || frame[RightShoulder].x == frame[LeftShoulder].x
    ensures r.Some? ==> r.value >= 0.0
    ensures r.Some? ==>
      r.value * Abs(frame[RightShoulder].x - frame[LeftShoulder].x) == Abs(frame[RightWrist].x - frame[Nose].x)
  {
    if |frame| <= RightWrist then None
    else
      var shoulderDistance := Abs(frame[RightShoulder].x - frame[LeftShoulder].x);
      var wristNoseDistance := Abs(frame[RightWrist].x - frame[Nose].x);
      if shoulderDistance == 0.0 then None
      else Some(wristNoseDistance / shoulderDistance)
  }

  /**
   * The bow position paired with its ratio. Strict thresholds: above 1.1 is
   * the tip, above 0.7 the middle, the rest the frog; the exception path
   * falls back to the middle.
   */
  function EstimateBowPosition(frame: Frame): (r: (BowPosition, real))
    ensures r.1 == CanonicalRatio(r.0)
    ensures RelativeDistance(frame).None? ==> r == (Middle, 0.5)
    ensures RelativeDistance(frame).Some? ==>
      var rd := RelativeDistance(frame).value;
      (r.0 == Tip <==> rd > 1.1) &&
      (r.0 == Middle <==> 0.7 < rd <= 1.1) &&
      (r.0 == Frog <==> rd <= 0.7)
  {
    match RelativeDistance(frame)
    case None => (Middle, 0.5)
    case Some(rd) =>
      if rd > 1.1 then (Tip, 1.0)
      else if rd > 0.7 then (Middle, 0.5)
      else (Frog, 0.0)
  }

  // ---------------------------------------------------------------------
  // Acceptable angle range
  // ---------------------------------------------------------------------

  datatype AngleRange = AngleRange(minAngle: real, maxAngle: real)

  const FrogRange := AngleRange(45.0, 70.0)
  const MiddleRange := AngleRange(37.0, 50.0)
  const TipRange := AngleRange(35.0, 45.0)

  /** The range a fraction `t` of the way from `a` to `b`. */
  function Interpolate(a: AngleRange, b: AngleRange, t: real): AngleRange
  {
    AngleRange(a.minAngle + t * (b.minAngle - a.minAngle), a.maxAngle + t * (b.maxAngle - a.maxAngle))
  }

  /**
   * Piecewise-linear interpolation over two segments split at 0.33:
   * frog to middle with t = 3 * ratio, then middle to tip with
   * t = 1.5 * (ratio - 0.33).
   */
  function BowStrokeAngleRange(ratio: real): (r: AngleRange)
    ensures ratio <= 1.0 ==> r.minAngle < r.maxAngle
    ensures 0.0 <= ratio <= 1.0 ==>
      34.99 <= r.minAngle <= 45.0 && 44.975 <= r.maxAngle <= 70.0
  {
    if ratio <= 0.33 then Interpolate(FrogRange, MiddleRange, ratio * 3.0)
    else Interpolate(MiddleRange, TipRange, (ratio - 0.33) * 1.5)
  }

  // ---------------------------------------------------------------------
  // Verdict
  // ---------------------------------------------------------------------

  /** The feedback messages, carrying the bow position and measured angle. */
  datatype Message =
    | CannotDetectPose
    | CannotComputeAngle
    | Appropriate(position: BowPosition, angle: real)
    | ElbowTooLow(position: BowPosition, angle: real)
    | ElbowTooHigh(position: BowPosition, angle: real)

  /**
   * Posture judgment for one frame (None when no pose was detected):
   * acceptable exactly when the angle lies in the interpolated range for the
   * estimated bow position, both ends included; otherwise the message says
   * whether the elbow is too low (angle below the range) or too high (above it).
   */
  function CheckPostureMessage(keypoints: Option<Frame>, angleAt: (Point, Point, Point) -> Degrees): (r: (bool, Message))
    ensures keypoints.None? ==> r == (false, CannotDetectPose)
    ensures keypoints.Some? && CalculateAngle(keypoints.value, angleAt).None? ==> r == (false, CannotComputeAngle)
    ensures keypoints.Some? && CalculateAngle(keypoints.value, angleAt).Some? ==>
      var a := CalculateAngle(keypoints.value, angleAt).value;
      var position := EstimateBowPosition(keypoints.value).0;
      var range := BowStrokeAngleRange(EstimateBowPosition(keypoints.value).1);
      (r.0 <==> range.minAngle <= a <= range.maxAngle) &&
      (r.1 == Appropriate(position, a) <==> range.minAngle <= a <= range.maxAngle) &&
      (r.1 == ElbowTooLow(position, a) <==> a < range.minAngle) &&
      (r.1 == ElbowTooHigh(position, a) <==> a > range.maxAngle)
  {
    match keypoints
    case None => (false, CannotDetectPose)
    case Some(frame) =>
      match CalculateAngle(frame, angleAt)
      case None => (false, CannotComputeAngle)
      case Some(angle) =>
        var (position, ratio) := EstimateBowPosition(frame);
        var range := BowStrokeAngleRange(ratio);
        if range.minAngle <= angle <= range.maxAngle then (true, Appropriate(position, angle))
        else if angle < range.minAngle then (false, ElbowTooLow(position, angle))
        else (false, ElbowTooHigh(position, angle))
  }
}
