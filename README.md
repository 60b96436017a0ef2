# Violin bowing posture evaluator — Dafny model

This project models the posture-evaluation layer of `PoseDetector` in the
violin posture coach. One frame of body keypoints, each `(y, x, confidence)`,
turns into four things:

- the elbow–shoulder–hip angle at the right shoulder;
- an estimate of which part of the bow is in use (frog, middle or tip), with its ratio 0.0, 0.5 or 1.0;
- the acceptable angle range for that ratio, interpolated between three reference ranges;
- a verdict: acceptable, elbow too low, or elbow too high, each carrying the bow position and the angle.

When there are no keypoints at all (`keypoints` is None, as `detect_pose` returns on an exception or a None model output), the verdict is "cannot detect the pose". A frame that has no angle yields the verdict "cannot compute the angle". That happens when the frame is too short to hold the right shoulder, elbow and hip (fewer than 13 entries), or when one of their coordinates is negative. A low-confidence joint still yields an angle.

Everything in this layer is a pure function of one frame, so the model is a
set of Dafny functions over `real` with lemmas (`pose_detector.dfy`, module
`PoseDetector`; `pose_detector_properties.dfy`, module
`PoseDetectorProperties`). The decimal constants 0.33, 1.5, 1.1 and 0.7 are
exact in `real`.

The arccos step of the angle is a function parameter
`angleAt: (Point, Point, Point) -> Degrees`. `Degrees` is a real in
[0, 180], which is the range of a degree-converted arccos of a clipped
cosine. The model keeps the negative-coordinate guard around that step.

Both the shoulder width and the wrist–nose distance are taken along the second keypoint component, `keypoints[i][:2][1]`. For the pose model's `(y, x, confidence)` layout that is the horizontal coordinate `x`.

The model follows the code in three places where the interpolated ranges differ from what the reference ranges suggest:

- The split at 0.33 suggests the middle reference range (37, 50) is reached there. The code's first segment reaches only t = 0.99, giving (37.08, 50.2).
- The estimator's middle ratio 0.5 lies in the second segment. So the middle position is judged against (36.49, 48.725), not the reference (37, 50).
- The tip ratio 1.0 gives t = 1.005, that is (34.99, 44.975).

The model keeps all of these behaviours and proves them (`RangeAtCanonicalRatios`, `RangeForPosition`, `SegmentsClosedForm`, `ReferenceRangesReached`).

## Model

| member | source | states |
|---|---|---|
| PoseDetector.CalculateAngle | src/pose_detector.py:43-64 | no angle exactly when right shoulder, elbow or hip is missing from the frame or any of their six coordinates is negative; otherwise the vertex angle of those three points |
| PoseDetector.CanonicalRatio | src/pose_detector.py:83-88 | the ratio paired with each bow position lies in [0, 1] |
| PoseDetector.RelativeDistance | src/pose_detector.py:68-80 | undefined exactly when a needed joint is missing or the shoulder width is zero; otherwise non-negative, and times the shoulder width equals the wrist–nose distance |
| PoseDetector.EstimateBowPosition | src/pose_detector.py:66-92 | tip iff relative distance > 1.1, middle iff 0.7 < rd <= 1.1, frog iff rd <= 0.7; the ratio always matches the label; the exception path gives (middle, 0.5) |
| PoseDetector.BowStrokeAngleRange | src/pose_detector.py:94-114 | for every ratio up to 1 the minimum is strictly below the maximum; on [0, 1] the bounds stay within [34.99, 45] and [44.975, 70] |
| PoseDetector.CheckPostureMessage | src/pose_detector.py:116-139 | no pose gives (false, cannot detect); no angle gives (false, cannot compute); otherwise true iff min <= angle <= max, too low iff angle < min, too high iff angle > max, all with the estimated position and the angle |
| PoseDetectorProperties.ThresholdsAreStrict | src/pose_detector.py:83-88 | relative distance exactly 1.1 is middle, exactly 0.7 is frog |
| PoseDetectorProperties.ClassificationWithoutDivision | src/pose_detector.py:72-88 | with a non-zero shoulder width s and wrist–nose distance w: tip iff w > 1.1·s, middle iff 0.7·s < w <= 1.1·s, frog iff w <= 0.7·s |
| PoseDetectorProperties.EstimateIsOneOfThree | src/pose_detector.py:80-92 | the estimate is always (frog, 0.0), (middle, 0.5) or (tip, 1.0) |
| PoseDetectorProperties.EstimateMonotone | src/pose_detector.py:83-88 | a larger relative distance never gives a smaller ratio |
| PoseDetectorProperties.ZeroShoulderWidthFallsBack | src/pose_detector.py:72-92 | equal shoulder abscissae give (middle, 0.5) |
| PoseDetectorProperties.WristFartherNeverLowersRatio | src/pose_detector.py:75-88 | moving the wrist horizontally farther from the nose never lowers the ratio |
| PoseDetectorProperties.EstimateScaleInvariant | src/pose_detector.py:69-88 | a horizontal zoom (k > 0) and pan of all keypoints changes neither the relative distance nor the estimate |
| PoseDetectorProperties.SegmentsClosedForm | src/pose_detector.py:103-112 | ratio <= 0.33 gives (45 - 24·ratio, 70 - 60·ratio); above it (37.99 - 3·ratio, 52.475 - 7.5·ratio); just above 0.33 both bounds are below (37, 50), a downward jump from (37.08, 50.2) at 0.33 |
| PoseDetectorProperties.ReferenceRangesReached | src/pose_detector.py:97-112 | ratio 0 gives the frog reference (45, 70); no ratio gives the middle reference (37, 50); the tip reference (35, 45) is reached at ratio 299/300, before 1 |
| PoseDetectorProperties.RangeAtCanonicalRatios | src/pose_detector.py:97-114 | ratio 0 gives (45, 70); 0.33 gives t = 0.99, (37.08, 50.2); 0.5 gives (36.49, 48.725); 1.0 gives t = 1.005, (34.99, 44.975), which is not the tip reference |
| PoseDetectorProperties.RangeNonIncreasing | src/pose_detector.py:103-114 | both bounds are non-increasing in the ratio over all reals, across the split |
| PoseDetectorProperties.RangeForPosition | src/pose_detector.py:125-126 | the range each estimated position is judged against: frog (45, 70), middle (36.49, 48.725), tip (34.99, 44.975) |
| PoseDetectorProperties.NegativeCoordinateMeansNoAngle | src/pose_detector.py:46-51 | one negative coordinate of right shoulder, elbow or hip gives no angle and the cannot-compute verdict |
| PoseDetectorProperties.AngleDependsOnArmJointsOnly | src/pose_detector.py:46-61 | frames that agree on right shoulder, elbow and hip positions get the same angle |
| PoseDetectorProperties.VerdictTrichotomy | src/pose_detector.py:134-139 | with an angle, exactly one of acceptable, too low and too high holds, and the boolean is true exactly for acceptable |
| PoseDetectorProperties.NoAngleIgnoresBowPosition | src/pose_detector.py:121-125 | without an angle the verdict is false and the same whatever the bow-position keypoints are |
| PoseDetectorProperties.RangeEndsInclusive | src/pose_detector.py:134-135 | an angle equal to either range end is acceptable |
| PoseDetectorProperties.FrameForPosition | src/pose_detector.py:80-88 | returns, for each bow position, a 17-keypoint frame with that estimate whose angle is defined for every measurement |
| PoseDetectorProperties.PositionReachable | src/pose_detector.py:80-88 | for any angle measurement, every bow position is the estimate of some 17-keypoint frame that passes the negative-coordinate guard |
| PoseDetectorProperties.EveryVerdictReachable | src/pose_detector.py:134-139 | at every bow position it returns a 17-keypoint frame and three angles in [0, 180]: one judged acceptable, one too low and one too high |
| PoseDetectorProperties.ScenarioElbowTooHigh | src/pose_detector.py:116-139 | the worked frame has relative distance 1.25, is at the tip, and with its 135-degree angle is judged elbow too high |

## Left out

- Model loading and `detect_pose` (src/pose_detector.py:8-41): TensorFlow Hub and OpenCV calls and tensor I/O. Their result is the `Option<Frame>` input of `CheckPostureMessage`.
- `draw_landmarks` (src/pose_detector.py:141-183): OpenCV drawing on an image.
- src/app.py: the Streamlit UI, camera capture and display loop.
- CalculateAngle: the arccos, dot product and norm (src/pose_detector.py:53-61) are floating-point transcendental maths. They are the parameter `angleAt`, so the model states no geometric fact about the angle's value such as 90 degrees for a right angle or scale invariance. The nan that numpy yields for a zero-length vector is not modelled.
- RelativeDistance, EstimateBowPosition: with numpy floats, a zero shoulder width does not raise at src/pose_detector.py:80. The division yields +inf (classified tip) when the wrist–nose distance is positive and nan (classified frog) when it is zero. The model instead makes `RelativeDistance` undefined for a zero width, so `EstimateBowPosition` takes the except-branch fallback (middle, 0.5) of lines 90-92, which is the intended fail-safe for a degenerate shoulder width.
- Floating-point rounding: 0.33, 1.5, 1.1 and 0.7 are exact rationals here. A float32/float64 value that rounds across a threshold is not modelled.
- Message text: the Japanese strings, the position-name table and the `:.1f` angle formatting become the `Message` datatype carrying the position and angle. The `print` diagnostics in the except branches (src/pose_detector.py:63, 91) are console output and are dropped.
- Keypoint confidence is carried in `Keypoint.score` but not used, as in the evaluated functions.
