/** Calibration of a custom exercise: while the therapist performs it, every
    measurable joint's normalised angle is collected frame by frame; at the end
    each joint with samples gets the limits `[mn, mx]` of what was recorded, and
    the joint whose limits are widest becomes the exercise's primary joint. */
module Calibration {
  import opened Numeric
  import opened Stats
  import opened Util
  import opened Catalog

  /** A joint's calibrated limits `[mn, mx]`. */
  datatype Limit = Limit(mn: real, mx: real)

  /** `mx - mn` */
  function Span(l: Limit): real
  {
    l.mx - l.mn
  }

  predicate InAngleRange(s: seq<real>)
  {
    forall i :: 0 <= i < |s| ==> 0.0 <= s[i] <= 180.0
  }

  /** What one joint contributes to a frame: its normalised angle, or nothing when
      the angle could not be measured (the `except Exception: pass` path). */
  function FrameSample(angle: Option<real>): (r: seq<real>)
    ensures |r| <= 1
    ensures angle.Some? ==> r == [Normalize(angle.value)]
    ensures angle.None? ==> r == []
    ensures forall i :: 0 <= i < |r| ==> 0.0 <= r[i] < 180.0
  {
    if angle.Some? then [Normalize(angle.value)] else []
  }

  /** The per-joint sample lists `joint_samples` of a calibration recording, one
      entry per joint of `JOINT_TRIPLES`, in the same order. */
  class Recording {
    var samples: seq<(string, seq<real>)>

    ghost predicate Valid()
      reads this
    {
      |samples| == |JointTriples|
      && (forall i :: 0 <= i < |samples| ==> samples[i].0 == JointTriples[i].0)
      && (forall i, k :: 0 <= i < |samples| && 0 <= k < |samples[i].1| ==> 0.0 <= samples[i].1[k] < 180.0)
    }

    /** `{j: [] for j in JOINT_TRIPLES.keys()}` */
    constructor()
      ensures Valid()
      ensures forall i :: 0 <= i < |samples| ==> samples[i].1 == []
    {
      samples := seq(|JointTriples|, i requires 0 <= i < |JointTriples| => (JointTriples[i].0, []));
    }

    /** One collecting frame with a detected pose: `angles[i]` is the raw angle at
        the i-th joint, or `None` when it could not be computed. Each measured
        angle is normalised and appended to its joint's list; no other list
        changes. */
    method RecordFrame(angles: seq<Option<real>>)
      requires Valid() && |angles| == |samples|
      modifies this
      ensures Valid()
      ensures |samples| == |old(samples)|
      ensures forall i :: 0 <= i < |samples| ==>
        samples[i] == (old(samples)[i].0, old(samples)[i].1 + FrameSample(angles[i]))
    {
      var i := 0;
      while i < |angles|
        invariant 0 <= i <= |angles| && |samples| == |old(samples)|
        invariant Valid()
        invariant forall m :: 0 <= m < i ==>
          samples[m] == (old(samples)[m].0, old(samples)[m].1 + FrameSample(angles[m]))
        invariant forall m :: i <= m < |samples| ==> samples[m] == old(samples)[m]
      {
        if angles[i].Some? {
          var ang := Normalize(angles[i].value);
          samples := samples[i := (samples[i].0, samples[i].1 + [ang])];
        } else {
          assert old(samples)[i].1 + FrameSample(angles[i]) == old(samples)[i].1;
        }
        i := i + 1;
      }
    }
  }

  /** The limits one joint's samples give: the rounded minimum and maximum, and
      when the two coincide, one degree either side of that value, kept inside
      [0, 180]. */
  function LimitFor(samples: seq<real>): Limit
    requires samples != []
  {
    var mn := Round2(Min(samples));
    var mx := Round2(Max(samples));
    if mn == mx then
      Limit(if mn - 1.0 > 0.0 then mn - 1.0 else 0.0, if mx + 1.0 < 180.0 then mx + 1.0 else 180.0)
    else Limit(mn, mx)
  }

  /** Samples within [0, 180] give proper limits inside [0, 180] that cover the
      rounded extremes of the samples. */
  lemma LimitForBounds(samples: seq<real>)
    requires samples != [] && InAngleRange(samples)
    ensures 0.0 <= LimitFor(samples).mn < LimitFor(samples).mx <= 180.0
    ensures LimitFor(samples).mn <= Round2(Min(samples))
    ensures Round2(Max(samples)) <= LimitFor(samples).mx
  {
    var lo, hi := Min(samples), Max(samples);
    assert IsHundredths(0.0) && IsHundredths(180.0);
    Round2Within(lo, 0.0, 180.0);
    Round2Within(hi, 0.0, 180.0);
    Round2Monotone(lo, hi);
  }

  /** A joint that never moved, every sample at v, gets the two-degree band
      around its rounded angle, clamped into [0, 180]. */
  lemma SingleValueLimit(samples: seq<real>, v: real)
    requires samples != []
    requires forall i :: 0 <= i < |samples| ==> samples[i] == v
    ensures var r := Round2(v);
      LimitFor(samples) == Limit(if r - 1.0 > 0.0 then r - 1.0 else 0.0, if r + 1.0 < 180.0 then r + 1.0 else 180.0)
  {
    assert Min(samples) == v && Max(samples) == v;
  }

  /** A joint whose rounded extremes differ keeps exactly those extremes. */
  lemma MovingJointLimit(samples: seq<real>)
    requires samples != []
    requires Round2(Min(samples)) != Round2(Max(samples))
    ensures LimitFor(samples) == Limit(Round2(Min(samples)), Round2(Max(samples)))
    ensures Span(LimitFor(samples)) > 0.0
  {
    Round2Monotone(Min(samples), Max(samples));
  }

  /** The `joint_limits` dictionary the limit loop builds: an entry per joint with
      samples, in the order of the joints. */
  function JointLimits(jointSamples: seq<(string, seq<real>)>): seq<(string, Limit)>
  {
    if jointSamples == [] then []
    else
      var n := |jointSamples|;
      var (j, samples) := jointSamples[n - 1];
      JointLimits(jointSamples[..n - 1]) + (if samples != [] then [(j, LimitFor(samples))] else [])
  }

  /** The limit loop over `joint_samples.items()`. */
  method DeriveJointLimits(jointSamples: seq<(string, seq<real>)>) returns (limits: seq<(string, Limit)>)
    ensures limits == JointLimits(jointSamples)
  {
    limits := [];
    var i := 0;
    while i < |jointSamples|
      invariant 0 <= i <= |jointSamples|
      invariant limits == JointLimits(jointSamples[..i])
    {
      var (j, samples) := jointSamples[i];
      if samples != [] {
        var mn := Round2(Min(samples));
        var mx := Round2(Max(samples));
        if mn == mx {
          mn := if mn - 1.0 > 0.0 then mn - 1.0 else 0.0;
          mx := if mx + 1.0 < 180.0 then mx + 1.0 else 180.0;
        }
        limits := limits + [(j, Limit(mn, mx))];
      }
      assert jointSamples[..i + 1][..i] == jointSamples[..i];
      i := i + 1;
    }
    assert jointSamples[..i] == jointSamples;
  }

  /** Every entry of the limits comes from a joint with samples, paired with the
      limits of those samples. */
  lemma {:induction false} JointLimitsSound(jointSamples: seq<(string, seq<real>)>)
    ensures forall m :: 0 <= m < |JointLimits(jointSamples)| ==>
      exists i :: 0 <= i < |jointSamples| && jointSamples[i].1 != []
        && JointLimits(jointSamples)[m] == (jointSamples[i].0, LimitFor(jointSamples[i].1))
  {
    if jointSamples != [] {
      var n := |jointSamples|;
      var init := jointSamples[..n - 1];
      JointLimitsSound(init);
      var prefix := JointLimits(init);
      var out := JointLimits(jointSamples);
      var last := jointSamples[n - 1];
      assert out == prefix + (if last.1 != [] then [(last.0, LimitFor(last.1))] else []);
      forall m | 0 <= m < |out|
        ensures exists i :: (0 <= i < n && jointSamples[i].1 != []
          && out[m] == (jointSamples[i].0, LimitFor(jointSamples[i].1)))
      {
        if m < |prefix| {
          assert out[m] == prefix[m];
          var i :| 0 <= i < n - 1 && init[i].1 != [] && prefix[m] == (init[i].0, LimitFor(init[i].1));
          assert init[i] == jointSamples[i];
        } else {
          assert jointSamples[n - 1].1 != [];
          assert out[m] == (jointSamples[n - 1].0, LimitFor(jointSamples[n - 1].1));
        }
      }
    } else {
      assert JointLimits(jointSamples) == [];
    }
  }

  /** Every joint with samples has its entry in the limits. */
  lemma {:induction false} JointLimitsComplete(jointSamples: seq<(string, seq<real>)>)
    ensures forall i :: 0 <= i < |jointSamples| && jointSamples[i].1 != [] ==>
      (jointSamples[i].0, LimitFor(jointSamples[i].1)) in JointLimits(jointSamples)
  {
    if jointSamples != [] {
      var n := |jointSamples|;
      var init := jointSamples[..n - 1];
      JointLimitsComplete(init);
      assert forall i :: 0 <= i < n - 1 ==> init[i] == jointSamples[i];
    }
  }

  /** One more joint adds its own entry, if any, at the end. */
  lemma JointLimitsSnoc(init: seq<(string, seq<real>)>, entry: (string, seq<real>))
    ensures JointLimits(init + [entry]) == JointLimits(init) + JointLimits([entry])
  {
    var all := init + [entry];
    assert all[..|all| - 1] == init && all[|all| - 1] == entry;
    assert [entry][..0] == [];
  }

  /** The limit loop visits the joints in order: the limits of two runs of joints
      are the limits of the first followed by those of the second. */
  lemma {:induction false} JointLimitsAppend(a: seq<(string, seq<real>)>, b: seq<(string, seq<real>)>)
    ensures JointLimits(a + b) == JointLimits(a) + JointLimits(b)
  {
    if b == [] {
      assert a + b == a;
    } else {
      var n := |b|;
      var init, last := b[..n - 1], b[n - 1];
      assert b == init + [last];
      assert a + b == (a + init) + [last];
      JointLimitsSnoc(a + init, last);
      JointLimitsSnoc(init, last);
      JointLimitsAppend(a, init);
    }
  }

  /** A single joint gives its entry when it has samples, and nothing otherwise. */
  lemma JointLimitsSingle(entry: (string, seq<real>))
    ensures JointLimits([entry]) == if entry.1 != [] then [(entry.0, LimitFor(entry.1))] else []
  {
    assert [entry][..0] == [];
  }

  /** The limits keep the joints' order: of two joints with samples, the entry of
      the earlier one comes first. After calibration this is the order of
      `JOINT_TRIPLES`, which decides `TieGoesToFirstJoint`. */
  lemma JointLimitsKeepOrder(jointSamples: seq<(string, seq<real>)>, i: nat, k: nat)
    requires i < k < |jointSamples|
    requires jointSamples[i].1 != [] && jointSamples[k].1 != []
    ensures var out := JointLimits(jointSamples);
      exists m, p :: 0 <= m < p < |out|
        && out[m] == (jointSamples[i].0, LimitFor(jointSamples[i].1))
        && out[p] == (jointSamples[k].0, LimitFor(jointSamples[k].1))
  {
    var front, back := jointSamples[..k], jointSamples[k..];
    var first := (jointSamples[i].0, LimitFor(jointSamples[i].1));
    var second := (jointSamples[k].0, LimitFor(jointSamples[k].1));
    assert jointSamples == front + back;
    assert back == [jointSamples[k]] + back[1..];
    JointLimitsAppend(front, back);
    JointLimitsAppend([jointSamples[k]], back[1..]);
    JointLimitsSingle(jointSamples[k]);
    var prefix, rest := JointLimits(front), JointLimits(back);
    assert rest[0] == second;
    JointLimitsComplete(front);
    assert front[i] == jointSamples[i];
    assert first in prefix;
    var m :| 0 <= m < |prefix| && prefix[m] == first;
    var out := JointLimits(jointSamples);
    assert out == prefix + rest;
    assert out[m] == first && out[|prefix|] == second;
  }

  /** Joints that are distinct keep distinct entries: the limits form a dictionary. */
  lemma {:induction false} JointLimitsDistinct(jointSamples: seq<(string, seq<real>)>)
    requires DistinctKeys(jointSamples)
    ensures DistinctKeys(JointLimits(jointSamples))
  {
    if jointSamples != [] {
      var n := |jointSamples|;
      var init := jointSamples[..n - 1];
      JointLimitsDistinct(init);
      JointLimitsSound(init);
      var prefix := JointLimits(init);
      var out := JointLimits(jointSamples);
      forall a, b | 0 <= a < b < |out|
        ensures out[a].0 != out[b].0
      {
        if b >= |prefix| {
          assert out[b].0 == jointSamples[n - 1].0;
          assert out[a] == prefix[a];
          var i :| 0 <= i < n - 1 && init[i].1 != [] && prefix[a] == (init[i].0, LimitFor(init[i].1));
          assert init[i] == jointSamples[i];
        } else {
          assert out[a] == prefix[a] && out[b] == prefix[b];
        }
      }
    }
  }

  /** In the dictionary the limit loop builds, a joint with samples is found with
      the limits of its samples, and a joint without samples is not found. */
  lemma JointLimitsLookup(jointSamples: seq<(string, seq<real>)>, i: nat)
    requires DistinctKeys(jointSamples) && i < |jointSamples|
    ensures jointSamples[i].1 != [] ==>
      Lookup(JointLimits(jointSamples), jointSamples[i].0) == Some(LimitFor(jointSamples[i].1))
    ensures jointSamples[i].1 == [] ==> Lookup(JointLimits(jointSamples), jointSamples[i].0) == None
  {
    JointLimitsSound(jointSamples);
    JointLimitsComplete(jointSamples);
    var out := JointLimits(jointSamples);
    var j := jointSamples[i].0;
    if jointSamples[i].1 != [] {
      assert (j, LimitFor(jointSamples[i].1)) in out;
      var r := Lookup(out, j);
      var m :| 0 <= m < |out| && out[m] == (j, r.value);
      var i' :| 0 <= i' < |jointSamples| && jointSamples[i'].1 != []
        && out[m] == (jointSamples[i'].0, LimitFor(jointSamples[i'].1));
      assert i' == i;
    } else {
      forall m | 0 <= m < |out|
        ensures out[m].0 != j
      {
        var i' :| 0 <= i' < |jointSamples| && jointSamples[i'].1 != []
          && out[m] == (jointSamples[i'].0, LimitFor(jointSamples[i'].1));
        assert i' != i;
      }
    }
  }

  /** A recording whose samples all lie in [0, 180] yields only proper limits
      inside [0, 180]. */
  lemma JointLimitsInRange(jointSamples: seq<(string, seq<real>)>)
    requires forall i :: 0 <= i < |jointSamples| ==> InAngleRange(jointSamples[i].1)
    ensures forall m :: 0 <= m < |JointLimits(jointSamples)| ==>
      0.0 <= JointLimits(jointSamples)[m].1.mn < JointLimits(jointSamples)[m].1.mx <= 180.0
  {
    JointLimitsSound(jointSamples);
    var out := JointLimits(jointSamples);
    forall m | 0 <= m < |out|
      ensures 0.0 <= out[m].1.mn < out[m].1.mx <= 180.0
    {
      var i :| 0 <= i < |jointSamples| && jointSamples[i].1 != []
        && out[m] == (jointSamples[i].0, LimitFor(jointSamples[i].1));
      LimitForBounds(jointSamples[i].1);
    }
  }

  /** The state of `pick_primary_joint_from_limits` after the first n entries:
      the best joint so far and its range, starting from `(None, -1.0)`. Only a
      strictly larger range replaces the best joint. */
  function Scan(limits: seq<(string, Limit)>, n: nat): (Option<string>, real)
    requires n <= |limits|
  {
    if n == 0 then (None, -1.0)
    else
      var prev := Scan(limits, n - 1);
      var rng := Span(limits[n - 1].1);
      if rng > prev.1 then (Some(limits[n - 1].0), rng) else prev
  }

  /** `pick_primary_joint_from_limits(joint_limits)` */
  function PrimaryJoint(limits: seq<(string, Limit)>): Option<string>
  {
    if limits == [] then None else Scan(limits, |limits|).0
  }

  method PickPrimaryJoint(limits: seq<(string, Limit)>) returns (best: Option<string>)
    ensures best == PrimaryJoint(limits)
  {
    if limits == [] {
      return None;
    }
    best := None;
    var bestRange := -1.0;
    var i := 0;
    while i < |limits|
      invariant 0 <= i <= |limits|
      invariant (best, bestRange) == Scan(limits, i)
    {
      var (j, l) := limits[i];
      var rng := l.mx - l.mn;
      if rng > bestRange {
        best := Some(j);
        bestRange := rng;
      }
      i := i + 1;
    }
  }

  /** Entry i has the widest range among the first n entries, beats the initial
      -1.0, and every earlier entry is strictly narrower: the first maximum. */
  predicate IsFirstMax(limits: seq<(string, Limit)>, n: nat, i: int)
    requires n <= |limits|
  {
    0 <= i < n
    && Span(limits[i].1) > -1.0
    && (forall k :: 0 <= k < i ==> Span(limits[k].1) < Span(limits[i].1))
    && (forall k :: i < k < n ==> Span(limits[k].1) <= Span(limits[i].1))
  }

  lemma {:induction false} ScanSpec(limits: seq<(string, Limit)>, n: nat)
    requires n <= |limits|
    ensures Scan(limits, n).0.None? <==> forall k :: 0 <= k < n ==> Span(limits[k].1) <= -1.0
    ensures Scan(limits, n).0.None? ==> Scan(limits, n).1 == -1.0
    ensures Scan(limits, n).0.Some? ==>
      exists i :: IsFirstMax(limits, n, i) && Scan(limits, n) == (Some(limits[i].0), Span(limits[i].1))
  {
    if n > 0 {
      ScanSpec(limits, n - 1);
      var prev := Scan(limits, n - 1);
      var rng := Span(limits[n - 1].1);
      if rng > prev.1 {
        assert IsFirstMax(limits, n, n - 1) by {
          if prev.0.Some? {
            var i :| IsFirstMax(limits, n - 1, i) && prev == (Some(limits[i].0), Span(limits[i].1));
            assert forall k :: 0 <= k < n - 1 ==> Span(limits[k].1) <= Span(limits[i].1);
          }
        }
      } else if prev.0.Some? {
        var i :| IsFirstMax(limits, n - 1, i) && prev == (Some(limits[i].0), Span(limits[i].1));
        assert IsFirstMax(limits, n, i);
      }
    }
  }

  /** The primary joint is the key of the first entry with the widest range; there
      is none exactly when every range is at most -1 (in particular for no
      limits), which calibrated limits never are. */
  lemma PrimaryJointSpec(limits: seq<(string, Limit)>)
    ensures PrimaryJoint(limits).None? <==> forall k :: 0 <= k < |limits| ==> Span(limits[k].1) <= -1.0
    ensures forall i :: IsFirstMax(limits, |limits|, i) ==> PrimaryJoint(limits) == Some(limits[i].0)
    ensures PrimaryJoint(limits).Some? ==>
      exists i :: IsFirstMax(limits, |limits|, i) && PrimaryJoint(limits).value == limits[i].0
  {
    ScanSpec(limits, |limits|);
    forall i | IsFirstMax(limits, |limits|, i)
      ensures PrimaryJoint(limits) == Some(limits[i].0)
    {
      var i' :| IsFirstMax(limits, |limits|, i') && Scan(limits, |limits|) == (Some(limits[i'].0), Span(limits[i'].1));
      FirstMaxUnique(limits, |limits|, i, i');
    }
  }

  /** At most one entry is the first maximum. */
  lemma FirstMaxUnique(limits: seq<(string, Limit)>, n: nat, i: int, i': int)
    requires n <= |limits|
    requires IsFirstMax(limits, n, i) && IsFirstMax(limits, n, i')
    ensures i == i'
  {
  }

  /** Two joints tied on the widest range: the first one wins. */
  lemma TieGoesToFirstJoint()
    ensures PrimaryJoint([("LEFT_ELBOW", Limit(20.0, 150.0)), ("RIGHT_ELBOW", Limit(30.0, 160.0))])
         == Some("LEFT_ELBOW")
  {
    var limits := [("LEFT_ELBOW", Limit(20.0, 150.0)), ("RIGHT_ELBOW", Limit(30.0, 160.0))];
    assert IsFirstMax(limits, 2, 0);
    PrimaryJointSpec(limits);
  }

  /** Calibrated limits (mn <= mx) always yield a primary joint, unless empty. */
  lemma CalibratedLimitsHavePrimary(limits: seq<(string, Limit)>)
    requires limits != []
    requires forall k :: 0 <= k < |limits| ==> limits[k].1.mn <= limits[k].1.mx
    ensures PrimaryJoint(limits).Some?
  {
    PrimaryJointSpec(limits);
    assert Span(limits[0].1) > -1.0;
  }
}
