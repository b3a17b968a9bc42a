# Exercise tracker engine — a Dafny model

This project models the rep-counting and scoring engine of the RehabAI exercise
tracker (`exercise_tracker.py`). The engine has these parts:

- **Helpers** (`Util`): the optional value returned by `dict.get`, lookup in a
  dictionary kept as a list of pairs, and `str.lower()` on ASCII text.
- **Tables** (`Catalog`): the joints whose angle can be measured, each with its
  landmark triple (`JOINT_TRIPLES`). The default optimal band of each built-in
  exercise (`OPTIMAL_RANGES`).
- **Numbers** (`Numeric`): the clamp into [0, 180] and the `% 180.0`
  normalisation applied to every buffered angle. Python's `round(x, 2)`.
- **Statistics** (`Stats`): `np.mean`, `min`, `max` and `sorted`.
  `np.percentile` with its default linear interpolation. `_iqr` and
  `_range_average_low_high`.
- **Deviation scorer** (`Deviation`): `_compute_deviation_repwise`. It takes the
  per-rep mean angles and an optimal band and returns one deviation percent in
  [0, cap].
- **Calibration** (`Calibration`): the per-joint sample lists filled frame by
  frame while a custom exercise is recorded. The limit loop that turns them
  into `joint_limits`. `pick_primary_joint_from_limits`.
- **Rep counter** (`RepCounting`): the per-frame state machine of
  `start_exercise`, as a class whose fields are the loop's variables `stage`,
  `counter`, `last_time`, `rep_angles`, `rep_averages` and `all_angles`. It has
  a custom mode driven by calibrated limits and the four built-in hysteresis
  modes.
- **Session** (`Session`): the choice of optimal band and counting mode, the
  frame loop up to the target rep count, finalisation, and the summary record.

Python floats are modelled as exact reals. Dictionaries are association lists
that keep their insertion order, because that order decides ties. The wall
clock is a parameter: each frame carries its time `now`. The camera and the pose
estimator are replaced by a sequence of frames, each holding the raw joint angle
or nothing.

Each imperative part is a method proved against a pure function:

- `RepCounter.Step` ends in the state `Advance` gives.
- `Track` and `StartExercise` give what `Run`, `Finalize` and `SessionResult` give.
- `DeriveJointLimits` gives `JointLimits`.
- `PickPrimaryJoint` gives `PrimaryJoint`.
- `RecordFrame` appends exactly one normalised sample per measured joint.

The lemmas then state what those functions promise.

Behaviour of the code that a reader might not expect:

- In custom mode, a closing angle that arrives within the cooldown still sets
  the stage to "down", so that rep is lost rather than deferred.
- In squat and push-up mode, the "up" threshold is applied before the closing
  test. A rep therefore closes only on an angle in (140, 160] (squat) or
  (140, 150] (push-up), not on any angle above 140.
- A rep's average covers every angle buffered since the previous close. It
  includes the frames before the down transition and excludes the closing
  frame, whose angle starts the next buffer.
- An empty calibration gives an empty limits dictionary, not a distinct failure.
- Reps that lie wholly below or wholly above the band are scored by their distance
  to it alone; the penalty for a rep range wider than the band is dropped. Rep
  averages 0 and 160 against the band (170, 180) score 100, although their extra
  term would be 1500 (`ExtraIgnoredOutOfBand`).
- Before rounding, a deviation of 0 means that every rep average is the same and
  lies in the band (`ZeroScoreMeansIdenticalInBand`). The rounding to two
  decimals breaks the converse: rep averages 90 and 90.001 against the band
  (60, 120) score 1/600 before rounding and are reported as 0.0
  (`RoundingHidesSmallSpread`).

## Model

| member | source | states |
|---|---|---|
| `Util.Lookup` | exercise_tracker.py:370 | `d.get(key)` is absent exactly when no entry has the key, and otherwise is the value of an entry with that key |
| `Util.LookupAt` | exercise_tracker.py:376 | in a dictionary with distinct keys, looking up the key of entry i finds that entry's value |
| `Util.Lower` | exercise_tracker.py:279 | `ex_name.lower()` keeps the length (definition); promises in `LowerSpec` and `LowerKeepsLowerCase` |
| `Catalog.JointTriplesWellFormed` | exercise_tracker.py:63-72 | the joint table has eight distinct joints, and each joint's angle is taken at the joint itself (the triple's vertex) |
| `Catalog.TripleOf` | exercise_tracker.py:370 | `JOINT_TRIPLES.get(joint)` (definition); promises in `TripleOfKnownJoint` and `KnownJointsAreNamed` |
| `Catalog.TripleOfKnownJoint` | exercise_tracker.py:370-371 | every joint of the table finds its own landmark triple |
| `Catalog.KnownJointsAreNamed` | exercise_tracker.py:369-371 | a joint with a landmark triple has a non-empty (truthy) name |
| `Catalog.OptimalRangesWellFormed` | exercise_tracker.py:14-19 | the default bands have distinct exercise names and are proper sub-ranges of [0, 180] |
| `Catalog.NoDefaultBandForLongNames` | exercise_tracker.py:311-314 | a name longer than six characters has no default band |
| `Util.LowerChar` | exercise_tracker.py:279 | lower-casing maps 'A'..'Z' to 'a'..'z', keeps every other character, and never yields an upper-case letter |
| `Util.LowerSpec` | exercise_tracker.py:279 | `lower()` works character by character and is idempotent |
| `Util.LowerKeepsLowerCase` | exercise_tracker.py:279 | text without upper-case letters is its own lower case |
| `Numeric.ClampAngle` | exercise_tracker.py:109 | `max(0, min(x, 180))` lies in [0, 180], is x on [0, 180], 0 below it and 180 above it |
| `Numeric.Normalize` | exercise_tracker.py:494-495 | a normalised angle lies in [0, 180), differs from the raw angle by whole half-turns, and equals the raw angle on [0, 180) |
| `Numeric.Mod180` | exercise_tracker.py:494 | Python's floored `% 180.0` (definition); its range and half-turn law are stated through `Normalize` and `NormalizeHalfTurn` |
| `Numeric.NormalizeIdempotent` | exercise_tracker.py:545-546 | normalising a normalised angle again changes nothing |
| `Numeric.NormalizeHalfTurn` | exercise_tracker.py:494 | angles 180 degrees apart normalise alike (180 maps to 0) |
| `Numeric.RoundHalfEven` | exercise_tracker.py:141 | Python's `round` to an integer is within one half of its argument |
| `Numeric.Round2` | exercise_tracker.py:171 | `round(x, 2)` is within 0.005 of x and is a whole number of hundredths |
| `Numeric.RoundHalfEvenMonotone` | exercise_tracker.py:171 | rounding to an integer never reorders two values |
| `Numeric.Round2Monotone` | exercise_tracker.py:253-254 | `round(x, 2)` never reorders two values |
| `Numeric.Round2Exact` | exercise_tracker.py:574 | a whole number of hundredths is unchanged by `round(x, 2)` |
| `Numeric.Round2Idempotent` | exercise_tracker.py:574 | rounding the already rounded deviation again changes nothing |
| `Numeric.Round2Within` | exercise_tracker.py:170-171 | rounding keeps a value inside an interval whose ends are whole hundredths |
| `Stats.Min` | exercise_tracker.py:111 | `min` is an element and is at most every element |
| `Stats.Max` | exercise_tracker.py:112 | `max` is an element and is at least every element |
| `Stats.Sum` | exercise_tracker.py:392 | the sum under `np.mean` (definition); promises in `SumBounds`, `SumPointwise` and `SumConstant` |
| `Stats.Mean` | exercise_tracker.py:392 | `np.mean` of a non-empty list (definition); promises in `MeanBounds` and `MeanConstant` |
| `Stats.SumBounds` | exercise_tracker.py:392 | elements within [lo, hi] give a sum within [n·lo, n·hi] |
| `Stats.MeanBounds` | exercise_tracker.py:392 | `np.mean` lies within any bounds of its elements |
| `Stats.QuotientBetween` | exercise_tracker.py:392 | dividing a value between n·lo and n·hi by a positive n lands in [lo, hi] |
| `Stats.SumPointwise` | exercise_tracker.py:93-96 | adding larger elements element by element gives a larger sum |
| `Stats.SumConstant` | exercise_tracker.py:392 | a sum of n copies of c is n·c |
| `Stats.MeanConstant` | exercise_tracker.py:392 | the mean of a rep whose buffered angles are all the same is that angle |
| `Stats.PrependSorted` | exercise_tracker.py:92 | a value at most the head of a sorted list can go in front of it |
| `Stats.Insert` | exercise_tracker.py:92 | one insertion step of `sorted` adds one element (definition); promises in `InsertSpec` |
| `Stats.Sort` | exercise_tracker.py:92 | `sorted` keeps the length (definition); promises in `SortSpec` and `SortRange` |
| `Stats.InsertSpec` | exercise_tracker.py:92 | inserting into a sorted list keeps it sorted and adds exactly that value |
| `Stats.SortSpec` | exercise_tracker.py:92 | `sorted` returns an ordered permutation of its input |
| `Stats.SortRange` | exercise_tracker.py:92 | the sorted list runs from `min` to `max`, and every element lies between them |
| `Stats.VirtualIndex` | exercise_tracker.py:102 | the percentile's virtual index (n-1)·p/100 lies in [0, n-1] |
| `Stats.Lerp` | exercise_tracker.py:102 | numpy's linear interpolation between neighbours (definition); promises in `LerpBetween` and `LerpMonotone` |
| `Stats.SortedPercentile` | exercise_tracker.py:102 | the percentile of a sorted list (definition); promises in `SortedPercentileBetween`, `SortedPercentileMonotone` and `SortedPercentileConstant` |
| `Stats.Percentile` | exercise_tracker.py:102 | `np.percentile` sorts its input and takes `SortedPercentile` of it (definition); promises through `SortSpec` and the `SortedPercentile` lemmas |
| `Stats.LerpBetween` | exercise_tracker.py:102 | interpolating between two ordered values stays between them |
| `Stats.LerpMonotone` | exercise_tracker.py:102 | interpolation grows with the fraction |
| `Stats.SortedPercentileBetween` | exercise_tracker.py:102 | a percentile of a sorted list lies between its first and last element |
| `Stats.SortedPercentileMonotone` | exercise_tracker.py:102-103 | a higher percentile is never smaller |
| `Stats.SortedPercentileConstant` | exercise_tracker.py:102 | every percentile of identical values is that value |
| `Stats.Iqr` | exercise_tracker.py:99-103 | `_iqr` as 75th minus 25th percentile, 0 for no values (definition); promises in `IqrRange` and `IqrConstant` |
| `Stats.IqrRange` | exercise_tracker.py:99-103 | `_iqr` of a non-empty list is never negative and never exceeds max minus min |
| `Stats.IqrConstant` | exercise_tracker.py:99-103 | identical values (and the empty list) have an IQR of 0 |
| `Stats.GroupSize` | exercise_tracker.py:91 | `max(1, ceil(0.3·n))` is the least k ≥ 1 with 10k ≥ 3n, and is at most n |
| `Stats.RangeAverageLowHigh` | exercise_tracker.py:87-97 | empty samples give (0, 0); otherwise min ≤ low-group mean ≤ high-group mean ≤ max |
| `Stats.DivideOrdered` | exercise_tracker.py:95-96 | dividing by the same positive count keeps the order |
| `Stats.LowGroupBelowHighGroup` | exercise_tracker.py:93-96 | in a sorted list the k smallest average no more than the k largest |
| `Stats.BandMeansOrdered` | exercise_tracker.py:93-96 | both group means of a sorted list lie in its bounds, the low one first |
| `Stats.SortedWithin` | exercise_tracker.py:92 | the sorted copy is ordered and lies within the samples' min and max |
| `Deviation.ClampBand` | exercise_tracker.py:115-125 | each band end becomes `max(0, min(x, 180))` (0 below the range, 180 above it, kept inside it); the width is hi − lo when positive, else 1; an absent band is (0, 180) |
| `Deviation.ClampReps` | exercise_tracker.py:109 | the reps clamped one by one, same length (definition); promises in `ClampRepsSpec` |
| `Deviation.ClampRepsSpec` | exercise_tracker.py:109 | each rep becomes `max(0, min(x, 180))`: it lies in [0, 180], a rep already in [0, 180] is kept, one below goes to 0 and one above to 180 |
| `Deviation.CountInliers` | exercise_tracker.py:127 | the inlier count is at most n (definition); promises in `CountInliersSpec` |
| `Deviation.CountInliersSpec` | exercise_tracker.py:127 | the inlier count is n exactly when every rep is in the band, and 0 exactly when none is |
| `Deviation.DistanceToBand` | exercise_tracker.py:130-136 | the distance is never negative and is positive exactly when every rep lies below or every rep lies above the band |
| `Deviation.Spread` | exercise_tracker.py:143-160 | the spread chosen by rep count is never negative (definition); its meaning is stated by `SpreadMeaning` |
| `Deviation.SpreadMeaning` | exercise_tracker.py:143-160 | for rep_range = max − min the spread is at most rep_range and is 0 exactly when all reps are equal: the `min(0.01, rep_range)` fallback keeps unequal reps from a zero spread |
| `Deviation.SpreadOfManyReps` | exercise_tracker.py:143-147 | with four reps or more the IQR, or its fallback, is at most the range and is 0 exactly when the range is |
| `Deviation.FallbackSpread` | exercise_tracker.py:145-147 | an IQR within [0, rep_range] followed by the `min(0.01, rep_range)` fallback is at most the range and 0 exactly when the range is |
| `Deviation.SpreadOfFewReps` | exercise_tracker.py:148-160 | with one to three reps the spread (0, the range, the central gap or range) is at most the range and 0 exactly when the range is |
| `Deviation.ClampToCap` | exercise_tracker.py:140 | `min(max(x, 0), cap)` for cap ≥ 0 lies in [0, cap]: x on [0, cap], 0 below it, cap above it; a negative cap gives cap itself |
| `Deviation.Extra` | exercise_tracker.py:166-168 | the extra term for a rep range wider than the band (definition); bounded below in `WideRepsScoreAtLeastExtra` |
| `Deviation.Measure` | exercise_tracker.py:109-113 | the measured reps have the count, minimum and maximum of the reps and are well formed |
| `Deviation.ScoreOf` | exercise_tracker.py:138-170 | the score before rounding lies in [0, cap] |
| `Deviation.Measured` | exercise_tracker.py:109-113 | the scorer measures the extremes of the clamped reps |
| `Deviation.ComputeDeviationRepwise` | exercise_tracker.py:105-171 | no reps score 0.0; otherwise the score lies in [0, cap] for a cap in whole hundredths |
| `Deviation.OutOfBandScore` | exercise_tracker.py:130-141 | measured reps below the band score their gap to its lower end, reps above it their gap to its upper end, in band widths as a percentage, capped |
| `Deviation.AllBelowBandScoresDistance` | exercise_tracker.py:131-141 | reps all below the band score their gap to the band's lower end, in band widths as a percentage, capped, whatever their count or spread |
| `Deviation.AllAboveBandScoresDistance` | exercise_tracker.py:133-141 | reps all above the band score their gap to its upper end, in the same way |
| `Deviation.BelowBandExample` | exercise_tracker.py:131-141 | band (60, 120) with every rep at 10 scores 83.33 |
| `Deviation.IdenticalRepsMeasure` | exercise_tracker.py:143-147 | identical reps have equal extremes and no spread, including through the IQR fallback |
| `Deviation.IdenticalInBandRepsScoreZeroMeasured` | exercise_tracker.py:143-170 | identical clamped reps inside the band score 0 before rounding |
| `Deviation.IdenticalInBandRepsScoreZero` | exercise_tracker.py:105-171 | identical reps inside the band score 0.0 for any number of reps |
| `Deviation.ZeroScoreMeansIdenticalInBand` | exercise_tracker.py:138-170 | for a positive cap, the score before rounding is 0 exactly when all reps are equal and lie in the band |
| `Deviation.GapScoresPositive` | exercise_tracker.py:138-141 | reps at a positive distance from the band score above 0 for a positive cap |
| `Deviation.ZeroScoreHasNoSpread` | exercise_tracker.py:138-170 | a score of 0 before rounding means no gap to the band and no spread |
| `Deviation.TwoCloseRepsMeasured` | exercise_tracker.py:109-160 | reps 90 and 90.001 against band (60, 120): two reps, extremes 90 and 90.001, both inliers, spread 0.001 |
| `Deviation.TwoCloseRepsScore` | exercise_tracker.py:162-170 | those two reps score 1/600 before rounding |
| `Deviation.RoundingHidesSmallSpread` | exercise_tracker.py:105-171 | reps 90 and 90.001 in band (60, 120) have a positive score before rounding and are reported as 0.0 after `round(deviation, 2)` |
| `Deviation.ThreeRepSpreadIsRange` | exercise_tracker.py:153-160 | with three reps the central gap is always 0, so the spread is the full rep range |
| `Deviation.WideRepsScoreAtLeastExtra` | exercise_tracker.py:166-170 | reps that touch the band but spread wider than it score at least min(extra, cap), before and after rounding |
| `Deviation.WideRepsDeviationAtLeastExtra` | exercise_tracker.py:105-171 | rep averages that touch the band but spread wider than it are reported with a deviation of at least round(min(extra, cap), 2) |
| `Deviation.TwoRepsReachUpTo160` | exercise_tracker.py:109-112 | the reps 0 and 160 keep 160 as their clamped maximum |
| `Deviation.ExtraIgnoredOutOfBand` | exercise_tracker.py:131-141 | reps at 0 and 160 against band (170, 180) score 100, although their extra term would be 1500 |
| `Deviation.NoBandScoresAsFullRange` | exercise_tracker.py:115-119 | an absent band scores exactly as the band (0, 180) |
| `Deviation.FractionRange` | exercise_tracker.py:128 | the inlier fraction lies in [0, 1], is 1 exactly when all are inliers and 0 exactly when none is |
| `Deviation.InlierMultiplierRange` | exercise_tracker.py:163 | the multiplier lies in [1, 2]: 1 exactly when every rep is in the band, 2 exactly when none is |
| `Calibration.FrameSample` | exercise_tracker.py:222-229 | a measured joint contributes its normalised angle in [0, 180), an unmeasured one nothing |
| `Calibration.Recording.constructor` | exercise_tracker.py:180 | the recording starts with one empty sample list per joint of the table, in table order |
| `Calibration.Recording.RecordFrame` | exercise_tracker.py:221-229 | each measured joint's normalised angle is appended to its own list and no other list changes |
| `Calibration.LimitFor` | exercise_tracker.py:253-257 | one joint's rounded limits, widened around a single value (definition); promises in `LimitForBounds`, `SingleValueLimit` and `MovingJointLimit` |
| `Calibration.LimitForBounds` | exercise_tracker.py:250-258 | samples within [0, 180] give limits with 0 ≤ mn < mx ≤ 180 that cover the rounded extremes |
| `Calibration.SingleValueLimit` | exercise_tracker.py:253-257 | a joint whose samples all equal v gets [max(0, r−1), min(180, r+1)] with r = round(v, 2) |
| `Calibration.MovingJointLimit` | exercise_tracker.py:253-258 | a joint whose rounded extremes differ keeps exactly those extremes, with a positive span |
| `Calibration.JointLimits` | exercise_tracker.py:250-258 | the `joint_limits` dictionary, in joint order (definition); promises in the `JointLimits*` lemmas |
| `Calibration.DeriveJointLimits` | exercise_tracker.py:250-258 | the limit loop builds `JointLimits` of the joint samples |
| `Calibration.JointLimitsSound` | exercise_tracker.py:250-258 | every entry of the limits belongs to a joint with samples and holds those samples' limits |
| `Calibration.JointLimitsComplete` | exercise_tracker.py:250-258 | every joint with samples has its entry in the limits |
| `Calibration.JointLimitsDistinct` | exercise_tracker.py:250-258 | the limits built from distinct joints have distinct keys |
| `Calibration.JointLimitsLookup` | exercise_tracker.py:250-258 | a joint with samples is found with its samples' limits, and a joint without samples is not found |
| `Calibration.JointLimitsInRange` | exercise_tracker.py:250-258 | samples in [0, 180] yield only limits with 0 ≤ mn < mx ≤ 180 |
| `Calibration.JointLimitsSnoc` | exercise_tracker.py:251-258 | one more joint adds its own entry, if any, at the end |
| `Calibration.JointLimitsAppend` | exercise_tracker.py:251-258 | the limits of two runs of joints are those of the first followed by those of the second |
| `Calibration.JointLimitsSingle` | exercise_tracker.py:252-258 | a single joint gives its entry when it has samples and nothing otherwise |
| `Calibration.JointLimitsKeepOrder` | exercise_tracker.py:250-258 | of two joints with samples, the earlier joint's entry comes first in the limits, which is the order the tie-break of `pick_primary_joint_from_limits` sees |
| `Calibration.PickPrimaryJoint` | exercise_tracker.py:265-275 | the accumulator loop returns what `PrimaryJoint` specifies |
| `Calibration.Scan` | exercise_tracker.py:268-274 | the accumulator after the first n entries (definition); promises in `ScanSpec` |
| `Calibration.PrimaryJoint` | exercise_tracker.py:265-275 | `pick_primary_joint_from_limits` (definition); promises in `PrimaryJointSpec` |
| `Calibration.ScanSpec` | exercise_tracker.py:268-274 | after n entries the best joint is the first one of widest range above −1, or none when every range is at most −1 |
| `Calibration.PrimaryJointSpec` | exercise_tracker.py:265-275 | the primary joint is the first entry of widest range; there is none exactly when every range is at most −1, in particular for no limits |
| `Calibration.FirstMaxUnique` | exercise_tracker.py:272 | at most one entry is the first maximum |
| `Calibration.TieGoesToFirstJoint` | exercise_tracker.py:272 | of two joints tied on the widest range, the first one is chosen |
| `Calibration.CalibratedLimitsHavePrimary` | exercise_tracker.py:265-275 | non-empty limits with mn ≤ mx always yield a primary joint |
| `RepCounting.Start` | exercise_tracker.py:335-342 | `counter`, `stage`, `last_time` and the three lists before the loop (definition); `RepCounter.constructor` ends in it |
| `RepCounting.CloseRep` | exercise_tracker.py:389-394 | counting one rep and closing its buffer (definition); `RepCounter.CountRep` ends in it and `TransitionSpec` states when it happens |
| `RepCounting.CustomTransition` | exercise_tracker.py:382-398 | the custom stage machine (definition); promises in `CustomTransitionSpec` and the `Custom*` lemmas |
| `RepCounting.RiseFallTransition` | exercise_tracker.py:424-456 | the squat and push-up block (definition); promises in `RiseFallTransitionSpec` |
| `RepCounting.ArmFireTransition` | exercise_tracker.py:458-486 | the curl and raise block (definition); promises in `ArmFireTransitionSpec` |
| `RepCounting.Transition` | exercise_tracker.py:382-486 | the stage machine of the selected mode (definition); promises in `TransitionSpec` |
| `RepCounting.CountsRep` | exercise_tracker.py:382-486 | when a frame counts a rep, per mode, independent of the machine; `TransitionSpec` proves the machine counts exactly then |
| `RepCounting.Advance` | exercise_tracker.py:382-498 | one frame of the loop (definition); promises in `AdvanceSpec`, `AdvanceConsistent` and `NothingMeasuredChangesNothing` |
| `RepCounting.Finalize` | exercise_tracker.py:542-543 | the finalisation after the loop (definition); promises in `FinalizeSpec` |
| `RepCounting.CustomTransitionSpec` | exercise_tracker.py:382-398 | the custom stage machine counts exactly when the angle is below lim_min + 5, the stage is "up" (possibly reached on this frame), and the cooldown has passed; it closes the buffer when it counts and otherwise leaves the count, clock and buffers alone |
| `RepCounting.RiseFallTransitionSpec` | exercise_tracker.py:424-456 | squat and push-up count exactly from "down" on an angle in (140, up threshold] after the cooldown |
| `RepCounting.ArmFireTransitionSpec` | exercise_tracker.py:458-486 | curl and raise count exactly from "down" on a firing angle after the cooldown |
| `RepCounting.TransitionSpec` | exercise_tracker.py:382-486 | every mode counts exactly the reps `CountsRep` describes, one at most, and never touches `all_angles` |
| `RepCounting.AdvanceSpec` | exercise_tracker.py:493-498 | a measured frame appends its normalised angle to `all_angles`, counts exactly when `CountsRep` holds, and on a count closes the rep with the buffer's mean and seeds the new buffer with this frame's angle |
| `RepCounting.NothingMeasuredChangesNothing` | exercise_tracker.py:493 | a frame without an angle changes nothing |
| `RepCounting.AdvanceConsistent` | exercise_tracker.py:382-498 | every frame keeps the counter's invariant: one rep average per counted rep, the rep buffer a non-empty tail of all angles once any was measured, every angle normalised |
| `RepCounting.AppendKeepsConsistent` | exercise_tracker.py:494-498 | appending a normalised angle after a counted or uncounted transition keeps the invariant |
| `RepCounting.CustomFirstAngle` | exercise_tracker.py:396-398 | the first measured angle in custom mode sets the stage by the limits' midpoint and counts nothing |
| `RepCounting.CustomUpOnlyFromDown` | exercise_tracker.py:383-385 | in custom mode a set stage becomes "up" only from "down" on an angle above lim_max − 5, never on an angle below lim_min + 5 |
| `RepCounting.CustomCooldownLosesRep` | exercise_tracker.py:386-395 | a closing angle within the cooldown still sets the stage to "down" without counting, so the rep is lost |
| `RepCounting.CustomNarrowLimitsCountWhileStill` | exercise_tracker.py:382-395 | with limits under 10 degrees apart, a joint held between lim_max − 5 and lim_min + 5 counts a rep on every frame once the cooldown has passed |
| `RepCounting.SquatOvershootSkipsRep` | exercise_tracker.py:427-431 | in squat mode an angle above 160 from "down" turns the stage "up" without counting |
| `RepCounting.BuiltInRepEndsUp` | exercise_tracker.py:424-486 | after a counted built-in rep the stage is "up" |
| `RepCounting.FinalizeSpec` | exercise_tracker.py:542-543 | finalisation adds one trailing rep average exactly when any angle was measured and keeps all averages in [0, 180] |
| `RepCounting.RepCounter.constructor` | exercise_tracker.py:335-342 | a new counter has no stage, no reps, empty buffers and the start time as its last rep time |
| `RepCounting.RepCounter.CountRep` | exercise_tracker.py:389-394 | counting a rep increments the counter, restarts the cooldown and closes a non-empty buffer into one more average |
| `RepCounting.RepCounter.Step` | exercise_tracker.py:382-498 | one frame moves the counter to `Advance` of its old state and keeps its invariant |
| `RepCounting.RepCounter.RiseFall` | exercise_tracker.py:424-456 | the squat and push-up block moves the state as `RiseFallTransition` |
| `RepCounting.RepCounter.ArmFire` | exercise_tracker.py:458-486 | the curl and raise block moves the state as `ArmFireTransition` |
| `RepCounting.RepCounter.Finish` | exercise_tracker.py:542-543 | the leftover buffer becomes one more average when non-empty |
| `Session.SelectOptRange` | exercise_tracker.py:308-314 | the choice of optimal band (definition); promises in `OptRangePrecedence` and `DefaultOptRangeProper` |
| `Session.BuiltInMode` | exercise_tracker.py:424-486 | the built-in mode named by the lower-cased exercise name (definition); used by `NoCustomLimitsUsesBuiltIn` |
| `Session.SelectMode` | exercise_tracker.py:279-298 | custom limits on the primary joint, else the built-in mode (definition); promises in `CustomModeUsesPrimaryLimits` and `NoCustomLimitsUsesBuiltIn` |
| `Session.Run` | exercise_tracker.py:345-537 | the frame loop up to the target (definition); promises in `RunConsistent`, `RunCountBounds` and `RunIgnoresFramesAfterTarget` |
| `Session.AngleStats` | exercise_tracker.py:545-553 | the angle figures of the summary (definition); promises in `AngleStatsOrdered` |
| `Session.RepStatsOf` | exercise_tracker.py:555-557 | the rep figures of the summary (definition); promises in `RepStatsOrdered` |
| `Session.Summarize` | exercise_tracker.py:559-576 | the summary record (definition); promises in `SessionSummarySpec` and `DeviationReportedOnce` |
| `Session.CameraFailureSummary` | exercise_tracker.py:316-333 | the record returned when the camera cannot be opened (definition); promises in `NothingMeasuredIsCameraFailure` |
| `Session.SessionResult` | exercise_tracker.py:278-576 | the whole session (definition); promises in `SessionSummarySpec` and `SessionStopsAtTarget`, and `StartExercise` ends in it |
| `Session.DefaultOptRangeProper` | exercise_tracker.py:308-314 | without a given or custom band, the band is a proper sub-range of [0, 180] from the defaults table, present exactly when the lower-cased name is in the table |
| `Session.DefaultOptRangeIgnoresCase` | exercise_tracker.py:311-312 | "Squat" finds the squat band (60, 180) |
| `Session.LowerOfSquat` | exercise_tracker.py:279 | "Squat" lower-cases to "squat" |
| `Session.LateralRaiseHasNoDefaultBand` | exercise_tracker.py:473 | "lateral raise" counts reps as a raise but has no default band |
| `Session.LowerOfLateralRaise` | exercise_tracker.py:279 | "lateral raise" is its own lower case |
| `Session.OptRangePrecedence` | exercise_tracker.py:308-314 | the caller's band outranks the custom exercise's, which outranks the defaults table |
| `Session.CustomModeUsesPrimaryLimits` | exercise_tracker.py:296-298 | a custom exercise whose first widest joint has a landmark triple counts on that joint's limits |
| `Session.NoCustomLimitsUsesBuiltIn` | exercise_tracker.py:424-489 | without custom limits the lower-cased name picks the built-in mode |
| `Session.RunConsistent` | exercise_tracker.py:345-537 | the frame loop keeps the counter's invariant |
| `Session.AdvanceCountsAtMostOne` | exercise_tracker.py:382-486 | a frame adds at most one rep and never takes one back |
| `Session.RunCountBounds` | exercise_tracker.py:532-533 | the loop adds at most one rep per frame and, started below its target, never passes it; a run that reaches the target ends with exactly the target count |
| `Session.RunIgnoresFramesAfterTarget` | exercise_tracker.py:532-533 | once the target is reached the loop stops: frames after that point change neither the count nor the recorded angles |
| `Session.RoundAll` | exercise_tracker.py:564 | one rounded average per rep average, each within 0.005 of it |
| `Session.NormalizeAll` | exercise_tracker.py:545-546 | one normalised angle per recorded angle, each in [0, 180) |
| `Session.RecordedAnglesStayPut` | exercise_tracker.py:545-546 | normalising the already normalised recorded angles changes nothing |
| `Session.AngleStatsOrdered` | exercise_tracker.py:545-553 | the angle figures satisfy 0 ≤ min ≤ average ≤ max ≤ 180 and min ≤ low-band average ≤ high-band average ≤ max |
| `Session.RepStatsOrdered` | exercise_tracker.py:555-557 | 0 ≤ rep_min ≤ rep_max ≤ 180 and rep_range lies in [0, 180] |
| `Session.DeviationReportedOnce` | exercise_tracker.py:559-574 | the reported deviation is the scorer's value (rounding it again changes nothing) and lies in [0, 200] |
| `Session.NothingMeasuredIsCameraFailure` | exercise_tracker.py:316-333 | a session that measured nothing reports the same record as a camera that cannot be opened |
| `Session.StartExercise` | exercise_tracker.py:278-576 | the session returns `SessionResult` of its inputs: band and mode selection, the loop, finalisation and the summary |
| `Session.Track` | exercise_tracker.py:345-543 | the frame loop with its target stop, then finalisation, ends in `Finalize(Run(...))` |
| `Session.SessionSummarySpec` | exercise_tracker.py:542-576 | the summary reports the counted reps, one rounded average per rep plus one for a leftover buffer, ordered angle and rep figures, and a deviation in [0, 200] |
| `Session.SessionStopsAtTarget` | exercise_tracker.py:532-533 | with a target of n ≥ 1 reps, at most n reps are reported |
| `Session.SquatExampleFrames` | exercise_tracker.py:427-438 | frame by frame: 170 sets "up", 90 sets "down", and 150 after the cooldown closes the rep with average 130 and restarts the buffer with 150 |
| `Session.SquatExample` | exercise_tracker.py:424-438 | squat frames at 170, 90 and 150 count one rep averaging 130; the closing angle 150 starts the next buffer |

## Left out

- Camera, pose estimator and display are not modelled: frame capture, landmark detection, drawing, the ESC key and window handling. A session is a given sequence of frames, each with the raw angle or nothing, and a flag says whether the camera opened.
- `_angle` and `_land` (the `atan2` trigonometry and the landmark lookup) are not modelled. The raw joint angle is an input; a failed lookup is a frame without an angle.
- JSON persistence is not modelled (loading and saving exercise definitions, the database fallback lookup). The custom exercise is a parameter, and saving the calibrated limits is omitted.
- A stored joint limit that is not a two-element list is not modelled. The model's limits are always pairs, so the source's "measure but do not count" path for such a limit does not arise.
- A stored optimal range whose `min`/`max` cannot be converted to float is not modelled, nor are the `isinstance` checks on the custom definition: the custom exercise is already typed.
- Feedback strings ("Go higher!", "Good form!") and the info text are display only and are not modelled.
- The calibration countdown and its 30-second wall-clock stop are not modelled. `Recording.RecordFrame` models one collecting frame with a detected pose.
- Each frame reads the clock once (`now`). The source calls `time.time()` twice, once for the cooldown test and once to restart it.
- The summary's `timestamp` field is not modelled.
- A band that is present but has a `None` end is not modelled; only the whole `(None, None)` pair is (`NoBand`).
- A non-integer `target_reps` is not modelled; the target is an integer.
- `Util.Lower` models `lower()` on ASCII letters only; other characters are kept as they are.
- `Numeric.Round2` rounds exact reals half to even. Python rounds the binary float, so a value whose decimal tie is not exact in binary can round the other way.
- `Numeric.Normalize` works on exact reals. For a tiny negative float, Python's `%` can give 180.0 itself, and the clamp keeps it.
- `Stats.GroupSize` computes `ceil(0.3·n)` exactly on rationals rather than on the float product `n * 0.3`.
- `Stats.RangeAverageLowHigh` states the ordering and bounds of the two group means, not their values.
- `Stats.Mean` requires a non-empty list. On an empty list numpy's `np.mean` would quietly give `nan` with a warning, but every call site checks for an empty list first (exercise_tracker.py:95-96, 391, 434, 451, 466, 481, 542, 547), so the source never reaches that case.
