/** The statistics the session summary and the deviation scorer rely on:
    `np.mean`, `min`, `max`, `sorted`, `np.percentile` with its default linear
    interpolation, the inter-quartile range `_iqr` and the low/high band
    averages `_range_average_low_high`. */
module Stats {

  function Sum(s: seq<real>): real
  {
    if s == [] then 0.0 else s[0] + Sum(s[1..])
  }

  /** `np.mean` of a non-empty list. */
  function Mean(s: seq<real>): real
    requires s != []
  {
    Sum(s) / |s| as real
  }

  function Min(s: seq<real>): (m: real)
    requires s != []
    ensures m in s
    ensures forall i :: 0 <= i < |s| ==> m <= s[i]
  {
    if |s| == 1 then s[0]
    else
      var rest := Min(s[1..]);
      if s[0] <= rest then s[0] else rest
  }

  function Max(s: seq<real>): (m: real)
    requires s != []
    ensures m in s
    ensures forall i :: 0 <= i < |s| ==> s[i] <= m
  {
    if |s| == 1 then s[0]
    else
      var rest := Max(s[1..]);
      if s[0] >= rest then s[0] else rest
  }

  /** Every element within [lo, hi] puts the sum within [|s| * lo, |s| * hi]. */
  lemma {:induction false} SumBounds(s: seq<real>, lo: real, hi: real)
    requires forall i :: 0 <= i < |s| ==> lo <= s[i] <= hi
    ensures |s| as real * lo <= Sum(s) <= |s| as real * hi
  {
    if s != [] {
      SumBounds(s[1..], lo, hi);
    }
  }

  /** A mean lies between the smallest and the largest sample. */
  lemma MeanBounds(s: seq<real>, lo: real, hi: real)
    requires s != []
    requires forall i :: 0 <= i < |s| ==> lo <= s[i] <= hi
    ensures lo <= Mean(s) <= hi
  {
    SumBounds(s, lo, hi);
    QuotientBetween(Sum(s), |s| as real, lo, hi);
  }

  /** Dividing by a positive n keeps n * lo <= x <= n * hi within [lo, hi]. */
  lemma QuotientBetween(x: real, n: real, lo: real, hi: real)
    requires n > 0.0 && n * lo <= x <= n * hi
    ensures lo <= x / n <= hi
  {
    assert x / n - lo == (x - n * lo) / n;
    assert hi - x / n == (n * hi - x) / n;
  }

  /** Adding element by element never decreases a sum. */
  lemma {:induction false} SumPointwise(a: seq<real>, b: seq<real>)
    requires |a| == |b|
    requires forall i :: 0 <= i < |a| ==> a[i] <= b[i]
    ensures Sum(a) <= Sum(b)
  {
    if a != [] {
      SumPointwise(a[1..], b[1..]);
    }
  }

  /** The sum of identical values is |s| times that value. */
  lemma {:induction false} SumConstant(s: seq<real>, c: real)
    requires forall i :: 0 <= i < |s| ==> s[i] == c
    ensures Sum(s) == |s| as real * c
  {
    if s != [] {
      SumConstant(s[1..], c);
    }
  }

  /** The mean of identical values is that value: a rep held at one angle
      averages to that angle. */
  lemma MeanConstant(s: seq<real>, c: real)
    requires s != []
    requires forall i :: 0 <= i < |s| ==> s[i] == c
    ensures Mean(s) == c
  {
    SumConstant(s, c);
    var n := |s| as real;
    assert n * c / n == c;
  }

  ghost predicate SortedSeq(s: seq<real>)
  {
    forall i, j :: 0 <= i <= j < |s| ==> s[i] <= s[j]
  }

  /** Places `x` before the first element larger than it. */
  function Insert(x: real, s: seq<real>): (r: seq<real>)
    ensures |r| == |s| + 1
  {
    if s == [] || x <= s[0] then [x] + s
    else [s[0]] + Insert(x, s[1..])
  }

  /** Python's `sorted` on a list of numbers (insertion sort). */
  function Sort(s: seq<real>): (r: seq<real>)
    ensures |r| == |s|
  {
    if s == [] then [] else Insert(s[0], Sort(s[1..]))
  }

  /** A value no larger than the head of a sorted list can go in front of it. */
  lemma PrependSorted(x: real, s: seq<real>)
    requires SortedSeq(s)
    requires s == [] || x <= s[0]
    ensures SortedSeq([x] + s)
  {
    var r := [x] + s;
    forall i, j | 0 <= i <= j < |r|
      ensures r[i] <= r[j]
    {
      if i > 0 {
        assert r[i] == s[i - 1] && r[j] == s[j - 1];
      } else if j > 0 {
        assert r[j] == s[j - 1] && s[0] <= s[j - 1];
      }
    }
  }

  lemma {:induction false} InsertSpec(x: real, s: seq<real>)
    requires SortedSeq(s)
    ensures SortedSeq(Insert(x, s))
    ensures multiset(Insert(x, s)) == multiset(s) + multiset{x}
  {
    if s == [] || x <= s[0] {
      PrependSorted(x, s);
    } else {
      var tail := Insert(x, s[1..]);
      InsertSpec(x, s[1..]);
      assert s == [s[0]] + s[1..];
      assert tail[0] in multiset(tail);
      assert s[0] <= tail[0] by {
        if tail[0] != x {
          assert tail[0] in multiset(s[1..]);
          var k :| 0 <= k < |s[1..]| && s[1..][k] == tail[0];
          assert s[k + 1] == tail[0];
        }
      }
      PrependSorted(s[0], tail);
    }
  }

  /** `sorted` returns an ordered permutation of its input. */
  lemma {:induction false} SortSpec(s: seq<real>)
    ensures SortedSeq(Sort(s))
    ensures multiset(Sort(s)) == multiset(s)
  {
    if s != [] {
      SortSpec(s[1..]);
      InsertSpec(s[0], Sort(s[1..]));
      assert s == [s[0]] + s[1..];
    }
  }

  /** The sorted copy starts at the minimum and ends at the maximum, and each of
      its elements lies between the two. */
  lemma SortRange(s: seq<real>)
    requires s != []
    ensures Sort(s)[0] == Min(s) && Sort(s)[|s| - 1] == Max(s)
    ensures forall i :: 0 <= i < |s| ==> Min(s) <= Sort(s)[i] <= Max(s)
  {
    SortSpec(s);
    var r := Sort(s);
    forall i | 0 <= i < |s|
      ensures Min(s) <= r[i] <= Max(s)
    {
      assert r[i] in multiset(r);
      assert r[i] in multiset(s);
    }
    assert Min(s) in multiset(s);
    assert Max(s) in multiset(s);
    assert Min(s) in r && Max(s) in r;
  }

  /** The virtual index (n - 1) * p / 100 of `np.percentile`'s linear method. */
  function VirtualIndex(n: nat, p: real): (idx: real)
    requires n > 0 && 0.0 <= p <= 100.0
    ensures 0.0 <= idx <= (n - 1) as real
  {
    var m := (n - 1) as real;
    assert m * p <= m * 100.0;
    m * p / 100.0
  }

  /** Linear interpolation `a + t * (b - a)`. */
  function Lerp(a: real, b: real, t: real): real
  {
    a + t * (b - a)
  }

  lemma LerpBetween(a: real, b: real, t: real)
    requires a <= b && 0.0 <= t <= 1.0
    ensures a <= Lerp(a, b, t) <= b
  {
    var d := b - a;
    assert 0.0 <= t * d;
    assert t * d <= d by { assert 0.0 <= (1.0 - t) * d; }
  }

  lemma LerpMonotone(a: real, b: real, s: real, t: real)
    requires a <= b && 0.0 <= s <= t <= 1.0
    ensures Lerp(a, b, s) <= Lerp(a, b, t)
  {
    var d := b - a;
    assert 0.0 <= (t - s) * d;
    assert (t - s) * d == t * d - s * d;
  }

  /** The linear-method percentile of an ordered, non-empty list: the value at
      the virtual index, interpolated between its two neighbours. */
  function SortedPercentile(v: seq<real>, p: real): real
    requires v != [] && 0.0 <= p <= 100.0
  {
    var idx := VirtualIndex(|v|, p);
    var lo := idx.Floor;
    if lo + 1 < |v| then Lerp(v[lo], v[lo + 1], idx - lo as real) else v[lo]
  }

  /** `np.percentile(values, p)`: numpy orders the values first. */
  function Percentile(values: seq<real>, p: real): real
    requires values != [] && 0.0 <= p <= 100.0
  {
    SortedPercentile(Sort(values), p)
  }

  lemma SortedPercentileBetween(v: seq<real>, p: real)
    requires v != [] && SortedSeq(v) && 0.0 <= p <= 100.0
    ensures v[0] <= SortedPercentile(v, p) <= v[|v| - 1]
  {
    var idx := VirtualIndex(|v|, p);
    var lo := idx.Floor;
    if lo + 1 < |v| {
      LerpBetween(v[lo], v[lo + 1], idx - lo as real);
    }
  }

  /** A higher percentile is never smaller. */
  lemma SortedPercentileMonotone(v: seq<real>, p: real, q: real)
    requires v != [] && SortedSeq(v)
    requires 0.0 <= p <= q <= 100.0
    ensures SortedPercentile(v, p) <= SortedPercentile(v, q)
  {
    var m := (|v| - 1) as real;
    assert 0.0 <= m * (q - p);
    assert m * (q - p) == m * q - m * p;
    var ip, iq := VirtualIndex(|v|, p), VirtualIndex(|v|, q);
    assert ip <= iq;
    var lp, lq := ip.Floor, iq.Floor;
    assert lp <= lq;
    if lp < lq {
      if lp + 1 < |v| {
        LerpBetween(v[lp], v[lp + 1], ip - lp as real);
      }
      assert SortedPercentile(v, p) <= v[lp + 1];
      assert v[lp + 1] <= v[lq];
      if lq + 1 < |v| {
        LerpBetween(v[lq], v[lq + 1], iq - lq as real);
      }
      assert v[lq] <= SortedPercentile(v, q);
    } else if lp + 1 < |v| {
      LerpMonotone(v[lp], v[lp + 1], ip - lp as real, iq - lq as real);
    }
  }

  /** All values equal: every percentile is that value. */
  lemma SortedPercentileConstant(v: seq<real>, p: real, c: real)
    requires v != [] && 0.0 <= p <= 100.0
    requires forall i :: 0 <= i < |v| ==> v[i] == c
    ensures SortedPercentile(v, p) == c
  {
  }

  /** `_iqr`: the 75th minus the 25th percentile, 0.0 for an empty list. */
  function Iqr(values: seq<real>): real
  {
    if values == [] then 0.0
    else Percentile(values, 75.0) - Percentile(values, 25.0)
  }

  /** The inter-quartile range is never negative and never exceeds the full
      spread of the values. */
  lemma IqrRange(values: seq<real>)
    requires values != []
    ensures 0.0 <= Iqr(values) <= Max(values) - Min(values)
  {
    var v := Sort(values);
    SortSpec(values);
    SortedPercentileMonotone(v, 25.0, 75.0);
    SortedPercentileBetween(v, 25.0);
    SortedPercentileBetween(v, 75.0);
    SortRange(values);
  }

  /** Identical values have no inter-quartile spread. */
  lemma IqrConstant(values: seq<real>, c: real)
    requires forall i :: 0 <= i < |values| ==> values[i] == c
    ensures Iqr(values) == 0.0
  {
    if values != [] {
      SortRange(values);
      var v := Sort(values);
      assert Min(values) == c && Max(values) == c;
      SortedPercentileConstant(v, 25.0, c);
      SortedPercentileConstant(v, 75.0, c);
    }
  }

  /** `max(1, int(np.ceil(n * 0.3)))`, the size of each band group, taken on exact
      rationals: the least k >= 1 with 10 * k >= 3 * n. */
  function GroupSize(n: nat): (k: int)
    requires n > 0
    ensures 1 <= k <= n
    ensures 10 * k >= 3 * n
    ensures k == 1 || 10 * (k - 1) < 3 * n
  {
    var c := (3 * n + 9) / 10;
    if c < 1 then 1 else c
  }

  /** `_range_average_low_high(samples, 0.3)`: the mean of the k smallest and the
      mean of the k largest samples, (0.0, 0.0) for no samples. */
  function RangeAverageLowHigh(samples: seq<real>): (r: (real, real))
    ensures samples == [] ==> r == (0.0, 0.0)
    ensures samples != [] ==> Min(samples) <= r.0 <= r.1 <= Max(samples)
  {
    if samples == [] then (0.0, 0.0)
    else
      var n := |samples|;
      var k := GroupSize(n);
      var sorted := Sort(samples);
      var low, high := sorted[..k], sorted[n - k..];
      SortedWithin(samples, sorted);
      BandMeansOrdered(sorted, k, Min(samples), Max(samples));
      (Mean(low), Mean(high))
  }

  /** Dividing by the same positive count keeps the order. */
  lemma DivideOrdered(a: real, b: real, k: nat)
    requires k > 0 && a <= b
    ensures a / k as real <= b / k as real
  {
  }

  /** In a sorted list the k first elements average no more than the k last. */
  lemma LowGroupBelowHighGroup(sorted: seq<real>, k: nat)
    requires SortedSeq(sorted)
    requires 1 <= k <= |sorted|
    ensures Mean(sorted[..k]) <= Mean(sorted[|sorted| - k..])
  {
    var n := |sorted|;
    var low, high := sorted[..k], sorted[n - k..];
    forall i | 0 <= i < k
      ensures low[i] <= high[i]
    {
      assert low[i] == sorted[i] && high[i] == sorted[n - k + i];
    }
    SumPointwise(low, high);
    DivideOrdered(Sum(low), Sum(high), k);
  }

  /** The two band groups of a sorted list within [lo, hi] average within [lo, hi],
      the low one no higher than the high one. */
  lemma BandMeansOrdered(sorted: seq<real>, k: nat, lo: real, hi: real)
    requires SortedSeq(sorted)
    requires forall m :: 0 <= m < |sorted| ==> lo <= sorted[m] <= hi
    requires 1 <= k <= |sorted|
    ensures lo <= Mean(sorted[..k]) <= Mean(sorted[|sorted| - k..]) <= hi
  {
    var n := |sorted|;
    var low, high := sorted[..k], sorted[n - k..];
    forall m | 0 <= m < k
      ensures lo <= low[m] <= hi && lo <= high[m] <= hi
    {
      assert low[m] == sorted[m] && high[m] == sorted[n - k + m];
    }
    MeanBounds(low, lo, hi);
    MeanBounds(high, lo, hi);
    LowGroupBelowHighGroup(sorted, k);
  }

  /** Every element of the sorted copy lies within the samples' range. */
  lemma SortedWithin(samples: seq<real>, sorted: seq<real>)
    requires samples != [] && sorted == Sort(samples)
    ensures SortedSeq(sorted)
    ensures forall m :: 0 <= m < |sorted| ==> Min(samples) <= sorted[m] <= Max(samples)
  {
    SortSpec(samples);
    SortRange(samples);
  }
}
