/** The rep-wise deviation scorer `_compute_deviation_repwise`: per-rep mean
    angles and an optimal band in, one bounded "deviation percent" out. */
module Deviation {
  import opened Numeric
  import opened Stats

  /** The optimal band handed to the scorer. `NoBand` is the `(None, None)` pair,
      on which `float(...)` fails and the scorer falls back to (0, 180). */
  datatype OptRange = Band(lo: real, hi: real) | NoBand

  /** The cap the session uses (`cap_percent=200.0`). */
  const DefaultCap: real := 200.0

  /** The band after clamping both ends into [0, 180]; `width` is its width, or
      1.0 when that width is not positive. */
  datatype ClampedBand = ClampedBand(lo: real, hi: real, width: real)

  function ClampBand(opt: OptRange): (b: ClampedBand)
    ensures 0.0 <= b.lo <= 180.0 && 0.0 <= b.hi <= 180.0
    ensures b.width > 0.0
    ensures b.hi - b.lo > 0.0 ==> b.width == b.hi - b.lo
    ensures b.hi - b.lo <= 0.0 ==> b.width == 1.0
    ensures opt.Band? && 0.0 <= opt.lo <= 180.0 ==> b.lo == opt.lo
    ensures opt.Band? && 0.0 <= opt.hi <= 180.0 ==> b.hi == opt.hi
    ensures opt.Band? ==> b.lo == ClampAngle(opt.lo) && b.hi == ClampAngle(opt.hi)
    ensures opt.NoBand? ==> b == ClampedBand(0.0, 180.0, 180.0)
  {
    var (lo, hi) := if opt.Band? then (opt.lo, opt.hi) else (0.0, 180.0);
    var cl, ch := ClampAngle(lo), ClampAngle(hi);
    var width := ch - cl;
    ClampedBand(cl, ch, if width <= 0.0 then 1.0 else width)
  }

  /** `[max(0.0, min(float(x), 180.0)) for x in rep_averages]` */
  function ClampReps(reps: seq<real>): (r: seq<real>)
    ensures |r| == |reps|
  {
    seq(|reps|, i requires 0 <= i < |reps| => ClampAngle(reps[i]))
  }

  /** Every rep is clamped on its own: it lies in [0, 180], a rep already there
      is kept, and one outside goes to the nearer end. */
  lemma ClampRepsSpec(reps: seq<real>)
    ensures forall i :: 0 <= i < |reps| ==> ClampReps(reps)[i] == ClampAngle(reps[i])
    ensures forall i :: 0 <= i < |reps| ==> 0.0 <= ClampReps(reps)[i] <= 180.0
    ensures forall i :: 0 <= i < |reps| && 0.0 <= reps[i] <= 180.0 ==> ClampReps(reps)[i] == reps[i]
  {
  }

  /** How many reps lie inside [lo, hi] (both ends included). */
  function CountInliers(reps: seq<real>, lo: real, hi: real): (c: nat)
    ensures c <= |reps|
  {
    if reps == [] then 0
    else (if lo <= reps[0] <= hi then 1 else 0) + CountInliers(reps[1..], lo, hi)
  }

  /** All reps are counted exactly when every rep lies in the band, and none
      exactly when no rep does. */
  lemma {:induction false} CountInliersSpec(reps: seq<real>, lo: real, hi: real)
    ensures CountInliers(reps, lo, hi) == |reps| <==> forall i :: 0 <= i < |reps| ==> lo <= reps[i] <= hi
    ensures CountInliers(reps, lo, hi) == 0 <==> forall i :: 0 <= i < |reps| ==> !(lo <= reps[i] <= hi)
  {
    if reps != [] {
      CountInliersSpec(reps[1..], lo, hi);
      assert forall i :: 1 <= i < |reps| ==> reps[1..][i - 1] == reps[i];
    }
  }

  /** Gap between the reps and the band when all reps are below it or all above
      it; 0.0 when they touch or overlap it. */
  function DistanceToBand(repMin: real, repMax: real, b: ClampedBand): (d: real)
    requires repMin <= repMax
    ensures d >= 0.0
    ensures d > 0.0 <==> repMax < b.lo || repMin > b.hi
  {
    if repMax < b.lo then b.lo - repMax
    else if repMin > b.hi then repMin - b.hi
    else 0.0
  }

  /** The spread measure of the in-band branch, chosen by the rep count. For
      three reps the source compares `reps_sorted[-2]` with `reps_sorted[1]`,
      which is one and the same element. */
  function Spread(reps: seq<real>, repRange: real): (s: real)
    requires reps != []
    requires repRange >= 0.0
    ensures s >= 0.0
  {
    var n := |reps|;
    if n >= 4 then
      var q := Iqr(reps);
      if q <= 0.0 then (if 0.01 < repRange then 0.01 else repRange) else q
    else if n == 1 then 0.0
    else if n == 2 then repRange
    else
      var sorted := Sort(reps);
      var gap := sorted[n - 2] - sorted[1];
      if gap <= 0.0 then repRange else gap
  }

  /** `min(max(x, 0.0), float(cap))` */
  function ClampToCap(x: real, cap: real): (r: real)
    ensures 0.0 <= cap ==> 0.0 <= r <= cap
    ensures 0.0 <= x <= cap ==> r == x
    ensures 0.0 <= cap && x < 0.0 ==> r == 0.0
    ensures 0.0 <= cap < x ==> r == cap
    ensures cap < 0.0 ==> r == cap
  {
    var atLeastZero := if x < 0.0 then 0.0 else x;
    if atLeastZero < cap then atLeastZero else cap
  }

  /** The penalty for reps spread wider than the band itself. */
  function Extra(repRange: real, b: ClampedBand): real
    requires b.width > 0.0
  {
    (repRange - b.width) / b.width * 100.0
  }

  /** What the scorer measures of the clamped reps: their count, extremes, how
      many lie in the band, and the spread chosen by the rep count. */
  datatype RepStats = RepStats(count: nat, repMin: real, repMax: real, inliers: nat, spread: real)

  predicate WellFormed(st: RepStats)
  {
    st.count > 0 && st.repMin <= st.repMax && st.inliers <= st.count && st.spread >= 0.0
  }

  function Measure(reps: seq<real>, b: ClampedBand): (st: RepStats)
    requires reps != []
    ensures WellFormed(st)
    ensures st.count == |reps| && st.repMin == Min(reps) && st.repMax == Max(reps)
  {
    var repMin, repMax := Min(reps), Max(reps);
    RepStats(|reps|, repMin, repMax, CountInliers(reps, b.lo, b.hi), Spread(reps, repMax - repMin))
  }

  /** The score before the final rounding: the gap to the band in band widths
      when the reps miss the band; otherwise the spread in band widths times the
      inlier multiplier `1 + (1 - inlier_frac)`, raised to the `extra` term when
      the reps spread wider than the band. Either way clamped into [0, cap]. */
  function ScoreOf(st: RepStats, b: ClampedBand, cap: real): (d: real)
    requires WellFormed(st) && b.width > 0.0
    ensures 0.0 <= cap ==> 0.0 <= d <= cap
  {
    var repRange := st.repMax - st.repMin;
    var distance := DistanceToBand(st.repMin, st.repMax, b);
    if distance > 0.0 then ClampToCap(distance / b.width * 100.0, cap)
    else
      var inlierFrac := st.inliers as real / st.count as real;
      var baseDev := st.spread / b.width * 100.0;
      var multiplier := 1.0 + (1.0 - inlierFrac);
      var deviation := baseDev * multiplier;
      var withExtra :=
        if repRange > b.width then
          var extra := Extra(repRange, b);
          if deviation > extra then deviation else extra
        else deviation;
      ClampToCap(withExtra, cap)
  }

  /** The extremes the scorer sees: those of the clamped reps. */
  function Measured(repAverages: seq<real>, opt: OptRange): (st: RepStats)
    requires repAverages != []
    ensures WellFormed(st) && st.count == |repAverages|
    ensures st.repMin == Min(ClampReps(repAverages)) && st.repMax == Max(ClampReps(repAverages))
  {
    Measure(ClampReps(repAverages), ClampBand(opt))
  }

  /** `_compute_deviation_repwise(rep_averages, opt_min, opt_max, cap)`: 0.0 for no
      reps, otherwise the raw deviation rounded to two decimals. The result never
      leaves [0, cap] for a cap that is a whole number of hundredths. */
  function ComputeDeviationRepwise(repAverages: seq<real>, opt: OptRange, cap: real): (r: real)
    ensures repAverages == [] ==> r == 0.0
    ensures 0.0 <= cap && IsHundredths(cap) ==> 0.0 <= r <= cap
  {
    if repAverages == [] then 0.0
    else
      var raw := ScoreOf(Measured(repAverages, opt), ClampBand(opt), cap);
      assert 0.0 <= cap && IsHundredths(cap) ==> 0.0 <= Round2(raw) <= cap by {
        if 0.0 <= cap && IsHundredths(cap) {
          Round2Within(raw, 0.0, cap);
        }
      }
      Round2(raw)
  }

  /** A non-empty rep list is scored by measuring its clamped reps against the
      clamped band and rounding the capped score. */
  lemma DeviationUnfold(repAverages: seq<real>, opt: OptRange, cap: real)
    requires repAverages != []
    ensures ComputeDeviationRepwise(repAverages, opt, cap)
         == Round2(ScoreOf(Measured(repAverages, opt), ClampBand(opt), cap))
  {
  }

  /** On measured reps: reps that miss the band score their gap to it. */
  lemma OutOfBandScore(st: RepStats, b: ClampedBand, cap: real)
    requires WellFormed(st) && b.width > 0.0
    ensures st.repMax < b.lo ==>
      ScoreOf(st, b, cap) == ClampToCap((b.lo - st.repMax) / b.width * 100.0, cap)
    ensures !(st.repMax < b.lo) && st.repMin > b.hi ==>
      ScoreOf(st, b, cap) == ClampToCap((st.repMin - b.hi) / b.width * 100.0, cap)
  {
  }

  /** All reps below the band: the score is the gap to the band's lower end in
      band widths, as a percentage, capped; neither the rep count nor the spread
      of the reps plays a part. */
  lemma AllBelowBandScoresDistance(repAverages: seq<real>, opt: OptRange, cap: real)
    requires repAverages != []
    requires Measured(repAverages, opt).repMax < ClampBand(opt).lo
    ensures var b := ClampBand(opt);
      ComputeDeviationRepwise(repAverages, opt, cap)
        == Round2(ClampToCap((b.lo - Measured(repAverages, opt).repMax) / b.width * 100.0, cap))
  {
    OutOfBandScore(Measured(repAverages, opt), ClampBand(opt), cap);
  }

  /** All reps above the band (and not all below it, which the scorer checks first): the
      mirror image, measured from the upper end. */
  lemma AllAboveBandScoresDistance(repAverages: seq<real>, opt: OptRange, cap: real)
    requires repAverages != []
    requires !(Measured(repAverages, opt).repMax < ClampBand(opt).lo)
    requires Measured(repAverages, opt).repMin > ClampBand(opt).hi
    ensures var b := ClampBand(opt);
      ComputeDeviationRepwise(repAverages, opt, cap)
        == Round2(ClampToCap((Measured(repAverages, opt).repMin - b.hi) / b.width * 100.0, cap))
  {
    OutOfBandScore(Measured(repAverages, opt), ClampBand(opt), cap);
  }

  /** Band (60, 120) with every rep at 10 degrees scores 83.33, whatever the number
      of reps. */
  lemma BelowBandExample(repAverages: seq<real>)
    requires repAverages != []
    requires forall i :: 0 <= i < |repAverages| ==> repAverages[i] == 10.0
    ensures ComputeDeviationRepwise(repAverages, Band(60.0, 120.0), DefaultCap) == 83.33
  {
    var reps := ClampReps(repAverages);
    assert Max(reps) in reps;
    assert Max(reps) == 10.0;
    var raw := (60.0 - 10.0) / 60.0 * 100.0;
    assert raw == 25000.0 / 300.0;
    assert (raw * 100.0).Floor == 8333;
    AllBelowBandScoresDistance(repAverages, Band(60.0, 120.0), DefaultCap);
  }

  /** Identical reps have no extremes apart and no spread. */
  lemma IdenticalRepsMeasure(reps: seq<real>, v: real, b: ClampedBand)
    requires reps != []
    requires forall i :: 0 <= i < |reps| ==> reps[i] == v
    ensures Measure(reps, b).repMin == v && Measure(reps, b).repMax == v
    ensures Measure(reps, b).spread == 0.0
  {
    assert Min(reps) in reps && Max(reps) in reps;
    IqrConstant(reps, v);
  }

  /** On measured reps: identical reps inside the band score 0.0. */
  lemma IdenticalInBandRepsScoreZeroMeasured(reps: seq<real>, v: real, b: ClampedBand, cap: real)
    requires reps != [] && 0.0 <= cap && b.width > 0.0
    requires forall i :: 0 <= i < |reps| ==> reps[i] == v
    requires b.lo <= v <= b.hi
    ensures ScoreOf(Measure(reps, b), b, cap) == 0.0
  {
    IdenticalRepsMeasure(reps, v, b);
  }

  /** Identical reps inside the band score 0.0 for any number of reps: the IQR
      fallback `min(0.01, rep_range)` is 0.0 when the range is. */
  lemma IdenticalInBandRepsScoreZero(repAverages: seq<real>, c: real, opt: OptRange, cap: real)
    requires repAverages != [] && 0.0 <= cap
    requires forall i :: 0 <= i < |repAverages| ==> repAverages[i] == c
    requires ClampBand(opt).lo <= ClampAngle(c) <= ClampBand(opt).hi
    ensures ComputeDeviationRepwise(repAverages, opt, cap) == 0.0
  {
    var reps := ClampReps(repAverages);
    assert forall i :: 0 <= i < |reps| ==> reps[i] == ClampAngle(c);
    IdenticalInBandRepsScoreZeroMeasured(reps, ClampAngle(c), ClampBand(opt), cap);
    DeviationUnfold(repAverages, opt, cap);
    Round2Exact(0.0);
  }

  /** With three reps the central gap is always zero, so the spread is the full
      rep range. */
  lemma ThreeRepSpreadIsRange(reps: seq<real>, repRange: real)
    requires |reps| == 3 && repRange >= 0.0
    ensures Spread(reps, repRange) == repRange
  {
  }

  /** The spread never exceeds the rep range, and it is 0.0 only when every rep
      is the same: the fallbacks `min(0.01, rep_range)` for a zero IQR and
      `rep_range` for a zero central gap keep unequal reps from a perfect
      spread. */
  lemma SpreadMeaning(reps: seq<real>, repRange: real)
    requires reps != [] && repRange == Max(reps) - Min(reps)
    ensures Spread(reps, repRange) <= repRange
    ensures Spread(reps, repRange) == 0.0 <==> Max(reps) == Min(reps)
  {
    if |reps| >= 4 {
      SpreadOfManyReps(reps, repRange);
    } else {
      SpreadOfFewReps(reps, repRange);
    }
  }

  /** Four reps or more: the IQR lies within the range, and a zero IQR falls back
      to `min(0.01, rep_range)`. */
  lemma SpreadOfManyReps(reps: seq<real>, repRange: real)
    requires |reps| >= 4 && repRange == Max(reps) - Min(reps)
    ensures Spread(reps, repRange) <= repRange
    ensures Spread(reps, repRange) == 0.0 <==> repRange == 0.0
  {
    IqrRange(reps);
    FallbackSpread(Iqr(reps), repRange);
  }

  lemma FallbackSpread(q: real, repRange: real)
    requires 0.0 <= q <= repRange
    ensures var s := if q <= 0.0 then (if 0.01 < repRange then 0.01 else repRange) else q;
      s <= repRange && (s == 0.0 <==> repRange == 0.0)
  {
  }

  /** One to three reps: no spread for one rep, the range for two or three. */
  lemma SpreadOfFewReps(reps: seq<real>, repRange: real)
    requires 1 <= |reps| <= 3 && repRange == Max(reps) - Min(reps)
    ensures Spread(reps, repRange) <= repRange
    ensures Spread(reps, repRange) == 0.0 <==> repRange == 0.0
  {
    if |reps| == 1 {
      assert Min(reps) in reps && Max(reps) in reps;
    } else if |reps| == 3 {
      ThreeRepSpreadIsRange(reps, repRange);
    }
  }

  /** Before rounding, a score of 0.0 means exactly that the reps are all the
      same and lie inside the band, for any positive cap. */
  lemma ZeroScoreMeansIdenticalInBand(reps: seq<real>, b: ClampedBand, cap: real)
    requires reps != [] && b.width > 0.0 && cap > 0.0
    ensures ScoreOf(Measure(reps, b), b, cap) == 0.0
        <==> Min(reps) == Max(reps) && b.lo <= Min(reps) <= b.hi
  {
    var st := Measure(reps, b);
    if Min(reps) == Max(reps) && b.lo <= Min(reps) <= b.hi {
      assert forall i :: 0 <= i < |reps| ==> reps[i] == Min(reps);
      IdenticalInBandRepsScoreZeroMeasured(reps, Min(reps), b, cap);
    } else if ScoreOf(st, b, cap) == 0.0 {
      SpreadMeaning(reps, Max(reps) - Min(reps));
      ZeroScoreHasNoSpread(st, b, cap);
    }
  }

  /** On measured reps: reps that miss the band never score 0.0. */
  lemma GapScoresPositive(st: RepStats, b: ClampedBand, cap: real)
    requires WellFormed(st) && b.width > 0.0 && cap > 0.0
    ensures DistanceToBand(st.repMin, st.repMax, b) > 0.0 ==> ScoreOf(st, b, cap) > 0.0
  {
    var distance := DistanceToBand(st.repMin, st.repMax, b);
    assert distance > 0.0 ==> distance / b.width * 100.0 > 0.0;
  }

  /** On measured reps: a zero score leaves no gap to the band and no spread. */
  lemma ZeroScoreHasNoSpread(st: RepStats, b: ClampedBand, cap: real)
    requires WellFormed(st) && b.width > 0.0 && cap > 0.0
    requires ScoreOf(st, b, cap) == 0.0
    ensures DistanceToBand(st.repMin, st.repMax, b) == 0.0 && st.spread == 0.0
  {
    GapScoresPositive(st, b, cap);
    if DistanceToBand(st.repMin, st.repMax, b) == 0.0 {
      var m := 1.0 + (1.0 - st.inliers as real / st.count as real);
      FractionRange(st.inliers, st.count);
      var baseDev := st.spread / b.width * 100.0;
      assert baseDev * m >= baseDev;
      assert baseDev <= 0.0;
    }
  }

  /** The reps 90 and 90.001 against the band (60, 120): both in the band, two
      reps apart by 0.001. */
  lemma TwoCloseRepsMeasured()
    ensures ClampBand(Band(60.0, 120.0)) == ClampedBand(60.0, 120.0, 60.0)
    ensures Measured([90.0, 90.001], Band(60.0, 120.0)) == RepStats(2, 90.0, 90.001, 2, 0.001)
  {
    assert ClampReps([90.0, 90.001]) == [90.0, 90.001];
  }

  /** Their raw score is the spread in band widths, 1/600 of a percent. */
  lemma TwoCloseRepsScore()
    ensures ScoreOf(RepStats(2, 90.0, 90.001, 2, 0.001), ClampedBand(60.0, 120.0, 60.0), DefaultCap)
         == 1.0 / 600.0
  {
  }

  /** Rounding to two decimals undoes the converse of
      `ZeroScoreMeansIdenticalInBand`: two unequal reps inside the band have a
      positive raw score but are reported as 0.0, a "perfect" score. */
  lemma RoundingHidesSmallSpread()
    ensures ScoreOf(Measured([90.0, 90.001], Band(60.0, 120.0)), ClampBand(Band(60.0, 120.0)), DefaultCap) > 0.0
    ensures ComputeDeviationRepwise([90.0, 90.001], Band(60.0, 120.0), DefaultCap) == 0.0
  {
    TwoCloseRepsMeasured();
    TwoCloseRepsScore();
    assert (1.0 / 600.0 * 100.0).Floor == 0;
  }

  /** Reps that touch the band but spread wider than it are reported with at
      least the `extra` term, or the cap, rounded: one outlier rep cannot hide
      behind a tight IQR. */
  lemma WideRepsDeviationAtLeastExtra(repAverages: seq<real>, opt: OptRange, cap: real)
    requires repAverages != []
    requires var st := Measured(repAverages, opt);
      DistanceToBand(st.repMin, st.repMax, ClampBand(opt)) == 0.0
      && st.repMax - st.repMin > ClampBand(opt).width
    ensures var st := Measured(repAverages, opt);
      var e := Extra(st.repMax - st.repMin, ClampBand(opt));
      ComputeDeviationRepwise(repAverages, opt, cap) >= Round2(if e < cap then e else cap)
  {
    DeviationUnfold(repAverages, opt, cap);
    WideRepsScoreAtLeastExtra(Measured(repAverages, opt), ClampBand(opt), cap);
  }

  /** On measured reps: reps that touch the band but spread wider than it score
      at least the `extra` term, or the cap, before and after rounding. */
  lemma WideRepsScoreAtLeastExtra(st: RepStats, b: ClampedBand, cap: real)
    requires WellFormed(st) && b.width > 0.0
    requires DistanceToBand(st.repMin, st.repMax, b) == 0.0
    requires st.repMax - st.repMin > b.width
    ensures var e := Extra(st.repMax - st.repMin, b);
      ScoreOf(st, b, cap) >= (if e < cap then e else cap)
    ensures var e := Extra(st.repMax - st.repMin, b);
      Round2(ScoreOf(st, b, cap)) >= Round2(if e < cap then e else cap)
  {
    var e := Extra(st.repMax - st.repMin, b);
    Round2Monotone(if e < cap then e else cap, ScoreOf(st, b, cap));
  }

  /** The reps 0 and 160, clamped and measured, reach up to 160. */
  lemma TwoRepsReachUpTo160(opt: OptRange)
    ensures Measured([0.0, 160.0], opt).repMax == 160.0
  {
    var reps := ClampReps([0.0, 160.0]);
    assert reps[0] == 0.0 && reps[1] == 160.0;
    assert Max(reps) in reps;
  }

  /** The `extra` term is applied only when the reps touch the band: reps at 0 and
      160 against the band (170, 180) score 100, although their range exceeds
      the band's width by 1500 percent. */
  lemma ExtraIgnoredOutOfBand()
    ensures Extra(160.0, ClampBand(Band(170.0, 180.0))) == 1500.0
    ensures ComputeDeviationRepwise([0.0, 160.0], Band(170.0, 180.0), DefaultCap) == 100.0
  {
    var opt := Band(170.0, 180.0);
    assert ClampBand(opt) == ClampedBand(170.0, 180.0, 10.0);
    TwoRepsReachUpTo160(opt);
    AllBelowBandScoresDistance([0.0, 160.0], opt, DefaultCap);
    Round2Exact(100.0);
  }

  /** An absent band is scored exactly as the full range (0, 180). */
  lemma NoBandScoresAsFullRange(repAverages: seq<real>, cap: real)
    ensures ComputeDeviationRepwise(repAverages, NoBand, cap)
         == ComputeDeviationRepwise(repAverages, Band(0.0, 180.0), cap)
  {
    assert ClampBand(NoBand) == ClampBand(Band(0.0, 180.0));
  }

  lemma FractionRange(c: nat, n: nat)
    requires 0 < n && c <= n
    ensures 0.0 <= c as real / n as real <= 1.0
    ensures c as real / n as real == 1.0 <==> c == n
    ensures c as real / n as real == 0.0 <==> c == 0
  {
    var q := c as real / n as real;
    assert q * n as real == c as real;
  }

  /** In the overlapping branch the inlier multiplier `1 + (1 - inlier_frac)` lies
      in [1, 2]: 1 when every rep is inside the band, 2 when none is. */
  lemma InlierMultiplierRange(reps: seq<real>, lo: real, hi: real)
    requires reps != []
    ensures var m := 1.0 + (1.0 - CountInliers(reps, lo, hi) as real / |reps| as real);
      1.0 <= m <= 2.0
      && (m == 1.0 <==> forall i :: 0 <= i < |reps| ==> lo <= reps[i] <= hi)
      && (m == 2.0 <==> forall i :: 0 <= i < |reps| ==> !(lo <= reps[i] <= hi))
  {
    CountInliersSpec(reps, lo, hi);
    FractionRange(CountInliers(reps, lo, hi), |reps|);
  }
}
