/** An exercise session as `start_exercise` runs it: the choice of optimal band
    and of rep-counting mode, the frame loop up to the target number of reps,
    and the summary record built from the counter's final state. */
module Session {
  import opened Numeric
  import opened Stats
  import opened Util
  import opened Catalog
  import opened Deviation
  import opened Calibration
  import opened RepCounting

  /** A stored custom exercise: its calibrated joint limits and, when the
      therapist set one, its optimal range `(min, max)`. */
  datatype CustomExercise = CustomExercise(joints: seq<(string, Limit)>, optimalRange: Option<(real, real)>)

  /** One frame of the loop: the raw joint angle, if one was obtained, and the
      time at which the frame is processed. */
  datatype Frame = Frame(angle: Option<real>, now: real)

  /** The record `start_exercise` returns (without its timestamp). */
  datatype Summary = Summary(
    reps: int,
    repAverages: seq<real>,
    overallAvg: real,
    angleMin: real,
    angleMax: real,
    rangeAvgLow: real,
    rangeAvgHigh: real,
    repMin: real,
    repMax: real,
    repRange: real,
    optRange: OptRange,
    deviationPercent: real)

  /** The band used for feedback and scoring: the caller's, else the custom
      exercise's own, else the built-in default for the lower-cased name, else
      none. */
  function SelectOptRange(given: Option<OptRange>, custom: Option<CustomExercise>, exName: string): OptRange
  {
    if given.Some? then given.value
    else if custom.Some? && custom.value.optimalRange.Some? then
      Band(custom.value.optimalRange.value.0, custom.value.optimalRange.value.1)
    else
      match Lookup(OptimalRanges, Lower(exName))
      case Some(band) => Band(band.0, band.1)
      case None => NoBand
  }

  /** Without a band from the caller or the exercise, the band is a proper
      sub-range of [0, 180] from the defaults table, or none at all. */
  lemma DefaultOptRangeProper(exName: string)
    ensures var r := SelectOptRange(None, None, exName);
      r.NoBand? || 0.0 <= r.lo < r.hi <= 180.0
    ensures SelectOptRange(None, None, exName).Band? <==>
      exists i :: 0 <= i < |OptimalRanges| && OptimalRanges[i].0 == Lower(exName)
  {
    OptimalRangesWellFormed();
    var found := Lookup(OptimalRanges, Lower(exName));
    if found.Some? {
      var i :| 0 <= i < |OptimalRanges| && OptimalRanges[i] == (Lower(exName), found.value);
    }
  }

  /** The name is matched case-insensitively. */
  lemma DefaultOptRangeIgnoresCase()
    ensures SelectOptRange(None, None, "Squat") == Band(60.0, 180.0)
  {
    LowerOfSquat();
    OptimalRangesWellFormed();
    LookupAt(OptimalRanges, 0);
  }

  lemma LowerOfSquat()
    ensures Lower("Squat") == "squat"
  {
    LowerKeepsLowerCase("quat");
    assert Lower("Squat") == [LowerChar('S')] + Lower("quat");
  }

  /** "lateral raise", which counts reps like "raise", has no default band. */
  lemma LateralRaiseHasNoDefaultBand()
    ensures SelectOptRange(None, None, "lateral raise") == NoBand
    ensures BuiltInMode(Lower("lateral raise")) == Raise
  {
    LowerOfLateralRaise();
    NoDefaultBandForLongNames("lateral raise");
  }

  lemma LowerOfLateralRaise()
    ensures Lower("lateral raise") == "lateral raise"
  {
    var name := "lateral raise";
    assert forall i :: 0 <= i < |name| ==> !('A' <= name[i] <= 'Z');
    LowerKeepsLowerCase(name);
  }

  /** The custom exercise's own range outranks the defaults table, and the
      caller's band outranks both. */
  lemma OptRangePrecedence(given: Option<OptRange>, custom: Option<CustomExercise>, exName: string)
    ensures given.Some? ==> SelectOptRange(given, custom, exName) == given.value
    ensures given.None? && custom.Some? && custom.value.optimalRange.Some? ==>
      SelectOptRange(given, custom, exName)
        == Band(custom.value.optimalRange.value.0, custom.value.optimalRange.value.1)
    ensures given.None? && (custom.None? || custom.value.optimalRange.None?) ==>
      SelectOptRange(given, custom, exName) == SelectOptRange(None, None, exName)
  {
  }

  /** The built-in exercise a lower-cased name selects. */
  function BuiltInMode(ex: string): Mode
  {
    if ex == "squat" then Squat
    else if ex == "pushup" then Pushup
    else if ex == "curl" then Curl
    else if ex == "raise" || ex == "lateral raise" then Raise
    else Unmeasured
  }

  /** The counting mode: a custom exercise with a primary joint counts on that
      joint's limits (or measures nothing when the joint has no landmark
      triple); otherwise the lower-cased name picks a built-in exercise. */
  function SelectMode(exName: string, custom: Option<CustomExercise>): Mode
  {
    var limits := if custom.Some? then custom.value.joints else [];
    var primary := PrimaryJoint(limits);
    if primary.Some? && primary.value != "" then
      if TripleOf(primary.value).Some? then
        match Lookup(limits, primary.value)
        case Some(l) => Custom(l.mn, l.mx)
        case None => Unmeasured
      else Unmeasured
    else BuiltInMode(Lower(exName))
  }

  /** A custom exercise whose widest joint (the first of them) has a landmark
      triple counts reps on that joint's limits. */
  lemma CustomModeUsesPrimaryLimits(exName: string, ce: CustomExercise, i: nat)
    requires DistinctKeys(ce.joints) && i < |ce.joints|
    requires IsFirstMax(ce.joints, |ce.joints|, i)
    requires TripleOf(ce.joints[i].0).Some?
    ensures SelectMode(exName, Some(ce)) == Custom(ce.joints[i].1.mn, ce.joints[i].1.mx)
  {
    PrimaryJointSpec(ce.joints);
    LookupAt(ce.joints, i);
    KnownJointsAreNamed(ce.joints[i].0);
  }

  /** Without custom limits the built-in exercise is chosen by name. */
  lemma NoCustomLimitsUsesBuiltIn(exName: string, custom: Option<CustomExercise>)
    requires custom.None? || custom.value.joints == []
    ensures SelectMode(exName, custom) == BuiltInMode(Lower(exName))
  {
  }

  /** The frame loop from state t: each frame advances the counter, and the loop
      ends after the frame on which the target number of reps is reached. */
  function Run(t: Tracker, mode: Mode, frames: seq<Frame>, target: Option<int>): Tracker
    decreases |frames|
  {
    if frames == [] then t
    else
      var t1 := Advance(t, mode, frames[0].angle, frames[0].now);
      if target.Some? && t1.counter >= target.value then t1
      else Run(t1, mode, frames[1..], target)
  }

  lemma {:induction false} RunConsistent(t: Tracker, mode: Mode, frames: seq<Frame>, target: Option<int>)
    requires Consistent(t)
    ensures Consistent(Run(t, mode, frames, target))
    decreases |frames|
  {
    if frames != [] {
      AdvanceConsistent(t, mode, frames[0].angle, frames[0].now);
      RunConsistent(Advance(t, mode, frames[0].angle, frames[0].now), mode, frames[1..], target);
    }
  }

  /** A frame adds at most one rep. */
  lemma AdvanceCountsAtMostOne(t: Tracker, mode: Mode, frame: Option<real>, now: real)
    requires Consistent(t)
    ensures t.counter <= Advance(t, mode, frame, now).counter <= t.counter + 1
  {
    if frame.Some? && !mode.Unmeasured? {
      AdvanceSpec(t, mode, frame.value, now);
    }
  }

  /** Reps are never taken back, and a session that starts below its target
      never overshoots it: the loop stops on the frame that reaches it. */
  lemma {:induction false} RunCountBounds(t: Tracker, mode: Mode, frames: seq<Frame>, target: Option<int>)
    requires Consistent(t)
    ensures t.counter <= Run(t, mode, frames, target).counter <= t.counter + |frames|
    ensures target.Some? && t.counter < target.value ==> Run(t, mode, frames, target).counter <= target.value
    ensures target.Some? && t.counter < target.value && Run(t, mode, frames, target).counter >= target.value ==>
      Run(t, mode, frames, target).counter == target.value
    decreases |frames|
  {
    if frames != [] {
      var t1 := Advance(t, mode, frames[0].angle, frames[0].now);
      AdvanceCountsAtMostOne(t, mode, frames[0].angle, frames[0].now);
      AdvanceConsistent(t, mode, frames[0].angle, frames[0].now);
      if !(target.Some? && t1.counter >= target.value) {
        RunCountBounds(t1, mode, frames[1..], target);
      }
    }
  }

  /** Once the target is reached the loop breaks: frames that would follow are
      never seen, so their angles reach neither the counter nor the summary. */
  lemma {:induction false} RunIgnoresFramesAfterTarget(t: Tracker, mode: Mode, frames: seq<Frame>, later: seq<Frame>, target: Option<int>)
    requires target.Some? && t.counter < target.value
    requires Run(t, mode, frames, target).counter >= target.value
    ensures Run(t, mode, frames + later, target) == Run(t, mode, frames, target)
    decreases |frames|
  {
    if frames == [] {
      assert false;
    } else {
      var t1 := Advance(t, mode, frames[0].angle, frames[0].now);
      assert (frames + later)[0] == frames[0];
      if t1.counter < target.value {
        assert (frames + later)[1..] == frames[1..] + later;
        RunIgnoresFramesAfterTarget(t1, mode, frames[1..], later, target);
      }
    }
  }

  /** `[float(round(a, 2)) for a in rep_averages]` */
  function RoundAll(s: seq<real>): (r: seq<real>)
    ensures |r| == |s|
    ensures forall i :: 0 <= i < |r| ==> s[i] - 0.005 <= r[i] <= s[i] + 0.005
  {
    seq(|s|, i requires 0 <= i < |s| => Round2(s[i]))
  }

  /** `norm_angles`: every recorded angle normalised once more. */
  function NormalizeAll(s: seq<real>): (r: seq<real>)
    ensures |r| == |s|
    ensures forall i :: 0 <= i < |r| ==> 0.0 <= r[i] < 180.0
  {
    seq(|s|, i requires 0 <= i < |s| => Normalize(s[i]))
  }

  /** The recorded angles are normalised already, so the second normalisation
      changes nothing. */
  lemma RecordedAnglesStayPut(s: seq<real>)
    requires forall i :: 0 <= i < |s| ==> 0.0 <= s[i] < 180.0
    ensures NormalizeAll(s) == s
  {
  }

  /** The statistics of the normalised angles: mean, extremes and band averages,
      each rounded, all zero when nothing was recorded. */
  function AngleStats(allAngles: seq<real>): (real, real, real, real, real)
  {
    var norm := NormalizeAll(allAngles);
    var (low, high) := RangeAverageLowHigh(norm);
    if norm == [] then (0.0, 0.0, 0.0, Round2(low), Round2(high))
    else (Round2(Mean(norm)), Round2(Min(norm)), Round2(Max(norm)), Round2(low), Round2(high))
  }

  /** The rounded extremes of the rep averages and their rounded difference. */
  function RepStatsOf(repAverages: seq<real>): (real, real, real)
  {
    if repAverages == [] then (0.0, 0.0, 0.0)
    else
      var repMin := Round2(Min(repAverages));
      var repMax := Round2(Max(repAverages));
      (repMin, repMax, Round2(repMax - repMin))
  }

  /** The summary record of a finished counter. */
  function Summarize(t: Tracker, opt: OptRange): Summary
  {
    var (overallAvg, angleMin, angleMax, low, high) := AngleStats(t.allAngles);
    var (repMin, repMax, repRange) := RepStatsOf(t.repAverages);
    var deviation := ComputeDeviationRepwise(t.repAverages, opt, DefaultCap);
    Summary(t.counter, RoundAll(t.repAverages), overallAvg, angleMin, angleMax, low, high,
            repMin, repMax, repRange, opt, Round2(deviation))
  }

  /** The record returned when the camera cannot be opened. */
  function CameraFailureSummary(opt: OptRange): Summary
  {
    Summary(0, [], 0.0, 0.0, 0.0, 0.0, 0.0, 0.0, 0.0, 0.0, opt, 0.0)
  }

  /** The angle figures are ordered as their names say: the extremes enclose the
      mean and the two band averages, the low band average is at most the high
      one, and all lie within [0, 180]. */
  lemma AngleStatsOrdered(allAngles: seq<real>)
    requires allAngles != []
    requires forall i :: 0 <= i < |allAngles| ==> 0.0 <= allAngles[i] < 180.0
    ensures var (avg, mn, mx, low, high) := AngleStats(allAngles);
      0.0 <= mn <= avg <= mx <= 180.0 && mn <= low <= high <= mx
  {
    RecordedAnglesStayPut(allAngles);
    var lo, hi := Min(allAngles), Max(allAngles);
    MeanBounds(allAngles, lo, hi);
    var (low, high) := RangeAverageLowHigh(allAngles);
    Round2Monotone(lo, Mean(allAngles));
    Round2Monotone(Mean(allAngles), hi);
    Round2Monotone(lo, low);
    Round2Monotone(low, high);
    Round2Monotone(high, hi);
    assert IsHundredths(0.0) && IsHundredths(180.0);
    Round2Within(lo, 0.0, 180.0);
    Round2Within(hi, 0.0, 180.0);
  }

  /** The rep figures: the minimum is at most the maximum, the range is not
      negative, and all lie within [0, 180]. */
  lemma RepStatsOrdered(repAverages: seq<real>)
    requires AllAngles(repAverages, 0.0, 180.0)
    ensures var (mn, mx, rng) := RepStatsOf(repAverages);
      0.0 <= mn <= mx <= 180.0 && 0.0 <= rng <= 180.0
  {
    if repAverages != [] {
      var lo, hi := Min(repAverages), Max(repAverages);
      assert IsHundredths(0.0) && IsHundredths(180.0);
      Round2Within(lo, 0.0, 180.0);
      Round2Within(hi, 0.0, 180.0);
      Round2Monotone(lo, hi);
      Round2Within(Round2(hi) - Round2(lo), 0.0, 180.0);
    }
  }

  /** The reported deviation is the scorer's value itself (rounding it again
      changes nothing), within [0, 200]. */
  lemma DeviationReportedOnce(t: Tracker, opt: OptRange)
    ensures Summarize(t, opt).deviationPercent == ComputeDeviationRepwise(t.repAverages, opt, DefaultCap)
    ensures 0.0 <= Summarize(t, opt).deviationPercent <= 200.0
  {
    var d := ComputeDeviationRepwise(t.repAverages, opt, DefaultCap);
    assert IsHundredths(DefaultCap);
    if t.repAverages == [] {
      Round2Exact(0.0);
    } else {
      DeviationUnfold(t.repAverages, opt, DefaultCap);
      Round2Idempotent(ScoreOf(Measured(t.repAverages, opt), ClampBand(opt), DefaultCap));
    }
  }

  /** A session in which no angle was ever measured reports the same record as a
      camera that could not be opened. */
  lemma NothingMeasuredIsCameraFailure(t: Tracker, opt: OptRange)
    requires Consistent(t) && t.allAngles == [] && t.counter == 0
    ensures Summarize(Finalize(t), opt) == CameraFailureSummary(opt)
  {
    Round2Exact(0.0);
    assert RoundAll([]) == [];
  }

  /** The whole of `start_exercise` on a given stream of frames: mode and band
      selection, the loop, finalisation and the summary. */
  function SessionResult(exName: string, target: Option<int>, given: Option<OptRange>,
                   custom: Option<CustomExercise>, cameraOpen: bool, start: real, frames: seq<Frame>): Summary
  {
    var opt := SelectOptRange(given, custom, exName);
    if !cameraOpen then CameraFailureSummary(opt)
    else Summarize(Finalize(Run(Start(start), SelectMode(exName, custom), frames, target)), opt)
  }

  method StartExercise(exName: string, target: Option<int>, given: Option<OptRange>,
                       custom: Option<CustomExercise>, cameraOpen: bool, start: real, frames: seq<Frame>)
    returns (summary: Summary)
    ensures summary == SessionResult(exName, target, given, custom, cameraOpen, start, frames)
  {
    var opt := SelectOptRange(given, custom, exName);
    if !cameraOpen {
      return CameraFailureSummary(opt);
    }
    var mode := SelectMode(exName, custom);
    var t := Track(mode, start, frames, target);
    summary := Summarize(t, opt);
  }

  /** The frame loop of `start_exercise` and the finalisation after it, on a
      counter started at `start`: the loop stops after the frame that reaches
      the target. */
  method Track(mode: Mode, start: real, frames: seq<Frame>, target: Option<int>) returns (t: Tracker)
    ensures t == Finalize(Run(Start(start), mode, frames, target))
  {
    var counter := new RepCounter(mode, start);
    var i := 0;
    var done := false;
    while i < |frames| && !done
      invariant 0 <= i <= |frames| && counter.Valid() && counter.mode == mode
      invariant !done ==>
        Run(counter.Snapshot(), mode, frames[i..], target) == Run(Start(start), mode, frames, target)
      invariant done ==> counter.Snapshot() == Run(Start(start), mode, frames, target)
      decreases |frames| - i, !done
    {
      counter.Step(frames[i].angle, frames[i].now);
      assert frames[i..][0] == frames[i] && frames[i..][1..] == frames[i + 1..];
      if target.Some? && counter.counter >= target.value {
        done := true;
      }
      i := i + 1;
    }
    counter.Finish();
    t := counter.Snapshot();
  }

  /** What a session reports: the reps counted, one rounded average per rep plus
      one for the leftover buffer when anything was measured, figures ordered
      as their names say, and a deviation within [0, 200]. */
  lemma SessionSummarySpec(exName: string, target: Option<int>, given: Option<OptRange>,
                           custom: Option<CustomExercise>, start: real, frames: seq<Frame>)
    ensures var t := Run(Start(start), SelectMode(exName, custom), frames, target);
      var s := SessionResult(exName, target, given, custom, true, start, frames);
      s.reps == t.counter
      && |s.repAverages| == t.counter + (if t.allAngles != [] then 1 else 0)
      && 0.0 <= s.repMin <= s.repMax <= 180.0 && 0.0 <= s.repRange
      && 0.0 <= s.deviationPercent <= 200.0
      && (t.allAngles != [] ==>
            0.0 <= s.angleMin <= s.overallAvg <= s.angleMax <= 180.0
            && s.angleMin <= s.rangeAvgLow <= s.rangeAvgHigh <= s.angleMax)
  {
    var mode := SelectMode(exName, custom);
    var t := Run(Start(start), mode, frames, target);
    RunConsistent(Start(start), mode, frames, target);
    var f := Finalize(t);
    FinalizeSpec(t);
    RepStatsOrdered(f.repAverages);
    DeviationReportedOnce(f, SelectOptRange(given, custom, exName));
    if t.allAngles != [] {
      AngleStatsOrdered(t.allAngles);
    }
  }

  /** A session that reaches its target stops there: with a target of n >= 1
      reps, no more than n reps are reported. */
  lemma SessionStopsAtTarget(exName: string, n: int, given: Option<OptRange>,
                             custom: Option<CustomExercise>, start: real, frames: seq<Frame>)
    requires n >= 1
    ensures SessionResult(exName, Some(n), given, custom, true, start, frames).reps <= n
  {
    RunCountBounds(Start(start), SelectMode(exName, custom), frames, Some(n));
  }

  /** The three frames of the squat example, one at a time: standing sets "up",
      squatting sets "down", and rising to 150 closes the rep. */
  lemma SquatExampleFrames()
    ensures Advance(Start(0.0), Squat, Some(170.0), 1.0) == Tracker(Up, 0, 0.0, [170.0], [], [170.0])
    ensures Advance(Tracker(Up, 0, 0.0, [170.0], [], [170.0]), Squat, Some(90.0), 2.0)
         == Tracker(Down, 0, 0.0, [170.0, 90.0], [], [170.0, 90.0])
    ensures Advance(Tracker(Down, 0, 0.0, [170.0, 90.0], [], [170.0, 90.0]), Squat, Some(150.0), 3.0)
         == Tracker(Up, 1, 3.0, [150.0], [130.0], [170.0, 90.0, 150.0])
  {
    assert Sum([170.0, 90.0]) == 260.0;
  }

  /** A squat session: standing (170), squatting (90) and rising to 150 counts one
      rep, whose average is that of the two angles buffered before the closing
      frame (the standing one included); the closing angle starts the next
      buffer. */
  lemma SquatExample()
    ensures var t := Run(Start(0.0), Squat,
                         [Frame(Some(170.0), 1.0), Frame(Some(90.0), 2.0), Frame(Some(150.0), 3.0)], None);
      t.counter == 1 && t.repAverages == [130.0] && t.repAngles == [150.0]
  {
    var frames := [Frame(Some(170.0), 1.0), Frame(Some(90.0), 2.0), Frame(Some(150.0), 3.0)];
    SquatExampleFrames();
    assert frames[1..][1..] == frames[2..];
  }
}
