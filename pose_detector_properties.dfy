/**
 * Properties of the posture evaluator: how bow position is classified, what
 * the interpolated angle ranges are, and how the verdict follows from them.
 */
module PoseDetectorProperties {
  import opened PoseDetector

  // ---------------------------------------------------------------------
  // Bow position
  // ---------------------------------------------------------------------

  /** The thresholds are strict: exactly 1.1 is still the middle, exactly 0.7 the frog. */
  lemma ThresholdsAreStrict(frame: Frame)
    ensures RelativeDistance(frame) == Some(1.1) ==> EstimateBowPosition(frame) == (Middle, 0.5)
    ensures RelativeDistance(frame) == Some(0.7) ==> EstimateBowPosition(frame) == (Frog, 0.0)
  {
  }

  /** The estimate is always one of the three label/ratio pairs. */
  lemma EstimateIsOneOfThree(frame: Frame)
    ensures EstimateBowPosition(frame) in {(Frog, 0.0), (Middle, 0.5), (Tip, 1.0)}
  {
  }

  /** A larger relative distance never yields a smaller ratio. */
  lemma EstimateMonotone(f1: Frame, f2: Frame)
    requires RelativeDistance(f1).Some? && RelativeDistance(f2).Some?
    requires RelativeDistance(f1).value <= RelativeDistance(f2).value
    ensures EstimateBowPosition(f1).1 <= EstimateBowPosition(f2).1
  {
  }

  /**
   * The thresholds without the division: with a non-zero shoulder width s
   * and wrist-to-nose distance w, the tip is w > 1.1 * s, the middle
   * 0.7 * s < w <= 1.1 * s and the frog w <= 0.7 * s.
   */
  lemma ClassificationWithoutDivision(frame: Frame)
    requires |frame| > RightWrist
    requires frame[RightShoulder].x != frame[LeftShoulder].x
    ensures var s := Abs(frame[RightShoulder].x - frame[LeftShoulder].x);
      var w := Abs(frame[RightWrist].x - frame[Nose].x);
      (EstimateBowPosition(frame).0 == Tip <==> w > 1.1 * s) &&
      (EstimateBowPosition(frame).0 == Middle <==> 0.7 * s < w <= 1.1 * s) &&
      (EstimateBowPosition(frame).0 == Frog <==> w <= 0.7 * s)
  {
    var s := Abs(frame[RightShoulder].x - frame[LeftShoulder].x);
    var w := Abs(frame[RightWrist].x - frame[Nose].x);
    var rd := RelativeDistance(frame).value;
    assert s > 0.0 && rd * s == w;
    ThresholdScaled(rd, s, w, 1.1);
    ThresholdScaled(rd, s, w, 0.7);
  }

  lemma ThresholdScaled(rd: real, s: real, w: real, c: real)
    requires s > 0.0 && rd * s == w
    ensures rd > c <==> w > c * s
  {
    SignOfProduct(rd - c, s);
    assert w - c * s == (rd - c) * s;
  }

  lemma SignOfProduct(a: real, s: real)
    requires s > 0.0
    ensures a > 0.0 <==> a * s > 0.0
  {
    if a <= 0.0 {
      assert -a * s >= 0.0;
    }
  }

  /** Equal shoulder abscissae (zero shoulder width) give the fallback. */
  lemma ZeroShoulderWidthFallsBack(frame: Frame)
    requires |frame| == 17 && frame[RightShoulder].x == frame[LeftShoulder].x
    ensures EstimateBowPosition(frame) == (Middle, 0.5)
  {
  }

  /** The frame with the right wrist moved to abscissa `x`. */
  function MoveWrist(frame: Frame, x: real): Frame
    requires |frame| > RightWrist
  {
    frame[RightWrist := Keypoint(frame[RightWrist].y, x, frame[RightWrist].score)]
  }

  /**
   * Moving the right wrist horizontally farther from the nose, shoulders and
   * nose fixed, never moves the estimate toward the frog.
   */
  lemma WristFartherNeverLowersRatio(frame: Frame, x: real)
    requires |frame| > RightWrist
    requires Abs(x - frame[Nose].x) >= Abs(frame[RightWrist].x - frame[Nose].x)
    ensures EstimateBowPosition(frame).1 <= EstimateBowPosition(MoveWrist(frame, x)).1
  {
  }

  /** Every abscissa mapped to `k * x + d`: a horizontal zoom and pan of the camera. */
  function RescaleX(frame: Frame, k: real, d: real): Frame
  {
    seq(|frame|, i requires 0 <= i < |frame| => Keypoint(frame[i].y, k * frame[i].x + d, frame[i].score))
  }

  /**
   * The relative distance is a ratio of two horizontal distances, so zooming
   * or panning the picture horizontally leaves the bow position unchanged.
   */
  lemma EstimateScaleInvariant(frame: Frame, k: real, d: real)
    requires k > 0.0
    ensures RelativeDistance(RescaleX(frame, k, d)) == RelativeDistance(frame)
    ensures EstimateBowPosition(RescaleX(frame, k, d)) == EstimateBowPosition(frame)
  {
  }

  // ---------------------------------------------------------------------
  // Angle range
  // ---------------------------------------------------------------------

  /**
   * Each segment in closed form. The frog segment is 45 - 24 * ratio and
   * 70 - 60 * ratio; the tip segment is 37.99 - 3 * ratio and
   * 52.475 - 7.5 * ratio. The bounds jump down at the split: the frog
   * segment ends at (37.08, 50.2) while just above 0.33 both bounds are
   * already below the middle reference (37, 50).
   */
  lemma SegmentsClosedForm(ratio: real)
    ensures ratio <= 0.33 ==> BowStrokeAngleRange(ratio) == AngleRange(45.0 - 24.0 * ratio, 70.0 - 60.0 * ratio)
    ensures ratio > 0.33 ==> BowStrokeAngleRange(ratio) == AngleRange(37.99 - 3.0 * ratio, 52.475 - 7.5 * ratio)
    ensures ratio > 0.33 ==>
      BowStrokeAngleRange(ratio).minAngle < 37.0 < 37.08 == BowStrokeAngleRange(0.33).minAngle &&
      BowStrokeAngleRange(ratio).maxAngle < 50.0 < 50.2 == BowStrokeAngleRange(0.33).maxAngle
  {
  }

  /**
   * Of the three reference ranges, only the frog range is returned at its
   * canonical ratio. The middle range (37, 50) is returned at no ratio at
   * all, and the tip range (35, 45) is reached at 299/300, before ratio 1.
   */
  lemma ReferenceRangesReached(ratio: real)
    ensures BowStrokeAngleRange(0.0) == FrogRange
    ensures BowStrokeAngleRange(ratio) != MiddleRange
    ensures BowStrokeAngleRange(299.0 / 300.0) == TipRange
  {
  }

  /**
   * The values at the three canonical ratios and at the split point. The
   * frog segment ends at t = 0.99, short of the middle reference, and the
   * tip segment reaches t = 1.005, slightly past the tip reference.
   */
  lemma RangeAtCanonicalRatios()
    ensures BowStrokeAngleRange(0.0) == FrogRange == AngleRange(45.0, 70.0)
    ensures BowStrokeAngleRange(0.33) == Interpolate(FrogRange, MiddleRange, 0.99) == AngleRange(37.08, 50.2)
    ensures BowStrokeAngleRange(0.5) == AngleRange(36.49, 48.725)
    ensures BowStrokeAngleRange(1.0) == Interpolate(MiddleRange, TipRange, 1.005) == AngleRange(34.99, 44.975)
    ensures BowStrokeAngleRange(1.0) != TipRange
  {
  }

  /** Both bounds are non-increasing in the ratio, across the split too. */
  lemma RangeNonIncreasing(r1: real, r2: real)
    requires r1 <= r2
    ensures BowStrokeAngleRange(r2).minAngle <= BowStrokeAngleRange(r1).minAngle
    ensures BowStrokeAngleRange(r2).maxAngle <= BowStrokeAngleRange(r1).maxAngle
  {
  }

  /** The range that each estimated bow position is judged against. */
  lemma RangeForPosition(frame: Frame)
    ensures var (p, ratio) := EstimateBowPosition(frame);
      BowStrokeAngleRange(ratio) ==
        match p
        case Frog => AngleRange(45.0, 70.0)
        case Middle => AngleRange(36.49, 48.725)
        case Tip => AngleRange(34.99, 44.975)
  {
  }

  // ---------------------------------------------------------------------
  // Angle and verdict
  // ---------------------------------------------------------------------

  /** Any one negative coordinate of right shoulder, elbow or hip: no angle and no verdict. */
  lemma NegativeCoordinateMeansNoAngle(frame: Frame, angleAt: (Point, Point, Point) -> Degrees, j: nat)
    requires |frame| > RightHip
    requires j == RightShoulder || j == RightElbow || j == RightHip
    requires frame[j].y < 0.0 || frame[j].x < 0.0
    ensures CalculateAngle(frame, angleAt) == None
    ensures CheckPostureMessage(Some(frame), angleAt) == (false, CannotComputeAngle)
  {
  }

  /** The angle depends on the right shoulder, elbow and hip positions only. */
  lemma AngleDependsOnArmJointsOnly(f1: Frame, f2: Frame, angleAt: (Point, Point, Point) -> Degrees)
    requires |f1| > RightHip && |f2| > RightHip
    requires Position(f1[RightShoulder]) == Position(f2[RightShoulder])
    requires Position(f1[RightElbow]) == Position(f2[RightElbow])
    requires Position(f1[RightHip]) == Position(f2[RightHip])
    ensures CalculateAngle(f1, angleAt) == CalculateAngle(f2, angleAt)
  {
  }

  /** Once an angle exists, exactly one of ok, too low and too high holds. */
  lemma VerdictTrichotomy(frame: Frame, angleAt: (Point, Point, Point) -> Degrees)
    requires CalculateAngle(frame, angleAt).Some?
    ensures var m := CheckPostureMessage(Some(frame), angleAt).1;
      (m.Appropriate? && !m.ElbowTooLow? && !m.ElbowTooHigh?) ||
      (!m.Appropriate? && m.ElbowTooLow? && !m.ElbowTooHigh?) ||
      (!m.Appropriate? && !m.ElbowTooLow? && m.ElbowTooHigh?)
    ensures CheckPostureMessage(Some(frame), angleAt).0 <==> CheckPostureMessage(Some(frame), angleAt).1.Appropriate?
  {
  }

  /**
   * Without an angle the verdict ignores the bow-position keypoints: two
   * frames that both lack an angle get the same verdict.
   */
  lemma NoAngleIgnoresBowPosition(f1: Frame, f2: Frame, angleAt: (Point, Point, Point) -> Degrees)
    requires CalculateAngle(f1, angleAt).None? && CalculateAngle(f2, angleAt).None?
    ensures CheckPostureMessage(Some(f1), angleAt) == CheckPostureMessage(Some(f2), angleAt)
    ensures !CheckPostureMessage(Some(f1), angleAt).0
  {
  }

  /** An angle exactly at either end of the range is acceptable. */
  lemma RangeEndsInclusive(frame: Frame, angleAt: (Point, Point, Point) -> Degrees)
    requires CalculateAngle(frame, angleAt).Some?
    requires var a := CalculateAngle(frame, angleAt).value;
      var range := BowStrokeAngleRange(EstimateBowPosition(frame).1);
      a == range.minAngle || a == range.maxAngle
    ensures CheckPostureMessage(Some(frame), angleAt) ==
      (true, Appropriate(EstimateBowPosition(frame).0, CalculateAngle(frame, angleAt).value))
  {
  }

  /** An angle measurement that reports `a` for every frame. */
  function ConstantAngle(a: Degrees): (Point, Point, Point) -> Degrees
  {
    (shoulder, elbow, hip) => a
  }

  /**
   * A frame with every joint at (0.5, 0.5) except the shoulders at
   * abscissae 0.6 and 0.4 (width 0.2) and the right wrist at `wristX`.
   */
  function ReachFrame(wristX: real): Frame
  {
    var c := Keypoint(0.5, 0.5, 0.9);
    [c, c, c, c, c, Keypoint(0.5, 0.4, 0.9), Keypoint(0.5, 0.6, 0.9), c, c, c,
     Keypoint(0.5, wristX, 0.9), c, c, c, c, c, c]
  }

  /** A full frame whose estimate is `p`, and whose angle is defined whatever the measurement. */
  lemma FrameForPosition(p: BowPosition) returns (frame: Frame)
    ensures |frame| == 17 && EstimateBowPosition(frame).0 == p
    ensures forall angleAt: (Point, Point, Point) -> Degrees :: CalculateAngle(frame, angleAt).Some?
  {
    var wristX := match p case Frog => 0.5 case Middle => 0.68 case Tip => 0.8;
    frame := ReachFrame(wristX);
  }

  /** Every bow position occurs on some 17-keypoint frame that passes the angle guard. */
  lemma PositionReachable(p: BowPosition, angleAt: (Point, Point, Point) -> Degrees)
    ensures exists frame: Frame :: |frame| == 17 && EstimateBowPosition(frame).0 == p && CalculateAngle(frame, angleAt).Some?
  {
    var frame := FrameForPosition(p);
    assert CalculateAngle(frame, angleAt).Some?;
  }

  /**
   * No branch of the verdict is dead: at each bow position there is a
   * 17-keypoint frame and angles in [0, 180] that are acceptable, too low
   * and too high.
   */
  lemma EveryVerdictReachable(p: BowPosition) returns (frame: Frame, ok: Degrees, low: Degrees, high: Degrees)
    ensures |frame| == 17
    ensures CheckPostureMessage(Some(frame), ConstantAngle(ok)) == (true, Appropriate(p, ok))
    ensures CheckPostureMessage(Some(frame), ConstantAngle(low)) == (false, ElbowTooLow(p, low))
    ensures CheckPostureMessage(Some(frame), ConstantAngle(high)) == (false, ElbowTooHigh(p, high))
  {
    frame := FrameForPosition(p);
    var range := BowStrokeAngleRange(EstimateBowPosition(frame).1);
    assert 34.99 <= range.minAngle < range.maxAngle <= 70.0;
    ok, low, high := range.minAngle, range.minAngle - 1.0, range.maxAngle + 1.0;
    assert CalculateAngle(frame, ConstantAngle(ok)) == Some(ok);
    assert CalculateAngle(frame, ConstantAngle(low)) == Some(low);
    assert CalculateAngle(frame, ConstantAngle(high)) == Some(high);
  }

  /** A frame filled with zeros except at the six joints of the scenario below. */
  function ScenarioFrame(): Frame
  {
    var z := Keypoint(0.0, 0.0, 0.0);
    [Keypoint(0.1, 0.5, 0.9), z, z, z, z,
     Keypoint(0.5, 0.3, 0.9), Keypoint(0.5, 0.5, 0.9), z,
     Keypoint(0.3, 0.7, 0.9), z, Keypoint(0.2, 0.75, 0.9), z,
     Keypoint(0.8, 0.5, 0.9), z, z, z, z]
  }

  /**
   * End-to-end: shoulder (0.5, 0.5), elbow (0.3, 0.7), hip (0.8, 0.5), left
   * shoulder (0.5, 0.3), wrist (0.2, 0.75), nose (0.1, 0.5). The vectors
   * (-0.2, 0.2) and (0.3, 0) meet at 135 degrees; the relative distance is
   * 0.25 / 0.2 = 1.25, so the bow is at the tip and the elbow is too high.
   */
  lemma ScenarioElbowTooHigh(angleAt: (Point, Point, Point) -> Degrees)
    requires angleAt(Point(0.5, 0.5), Point(0.3, 0.7), Point(0.8, 0.5)) == 135.0
    ensures RelativeDistance(ScenarioFrame()) == Some(1.25)
    ensures EstimateBowPosition(ScenarioFrame()) == (Tip, 1.0)
    ensures CheckPostureMessage(Some(ScenarioFrame()), angleAt) == (false, ElbowTooHigh(Tip, 135.0))
  {
  }
}
