/** Real-valued helpers shared by the whole engine: the clamp into the joint-angle
    range, the `% 180.0` normalisation applied to every recorded angle, and the
    two-decimal rounding applied to every reported number. */
module Numeric {

  /** `max(0.0, min(x, 180.0))`: pushes a value into the closed angle range. */
  function ClampAngle(x: real): (r: real)
    ensures 0.0 <= r <= 180.0
    ensures 0.0 <= x <= 180.0 ==> r == x
    ensures x < 0.0 ==> r == 0.0
    ensures x > 180.0 ==> r == 180.0
  {
    var upper := if x < 180.0 then x else 180.0;
    if 0.0 < upper then upper else 0.0
  }

  /** Python's float `a % 180.0`: the divisor is positive, so the remainder has
      the divisor's sign (it is the floor remainder, never negative). */
  function Mod180(a: real): real
  {
    a - 180.0 * (a / 180.0).Floor as real
  }

  /** `max(0.0, min(float(a % 180.0), 180.0))`, the normalisation applied before an
      angle is buffered. The result is in [0, 180) and differs from `a` by a whole
      number of half-turns. */
  function Normalize(a: real): (r: real)
    ensures 0.0 <= r < 180.0
    ensures (a - r) / 180.0 == ((a - r) / 180.0).Floor as real
    ensures 0.0 <= a < 180.0 ==> r == a
  {
    var m := Mod180(a);
    assert 0.0 <= m < 180.0;
    assert 0.0 <= a < 180.0 ==> (a / 180.0).Floor == 0;
    assert (a - m) / 180.0 == (a / 180.0).Floor as real;
    ClampAngle(m)
  }

  lemma NormalizeIdempotent(a: real)
    ensures Normalize(Normalize(a)) == Normalize(a)
  {
  }

  /** 180 degrees and 0 degrees denote the same normalised angle. */
  lemma NormalizeHalfTurn(a: real)
    ensures Normalize(a + 180.0) == Normalize(a)
  {
    var q := (a / 180.0).Floor;
    assert (a + 180.0) / 180.0 == a / 180.0 + 1.0;
    assert ((a + 180.0) / 180.0).Floor == q + 1;
  }

  /** Round half to even of a real to an integer: Python's `round` rule. */
  function RoundHalfEven(x: real): (n: int)
    ensures x - 0.5 <= n as real <= x + 0.5
  {
    var f := x.Floor;
    var d := x - f as real;
    if d < 0.5 then f
    else if d > 0.5 then f + 1
    else if f % 2 == 0 then f
    else f + 1
  }

  /** `round(x, 2)`, taken on exact reals: the nearest multiple of 0.01, ties to
      the even hundredth. */
  function Round2(x: real): (r: real)
    ensures x - 0.005 <= r <= x + 0.005
    ensures r * 100.0 == (r * 100.0).Floor as real
  {
    RoundHalfEven(x * 100.0) as real / 100.0
  }

  /** A value that is already a whole number of hundredths. */
  predicate IsHundredths(x: real)
  {
    x * 100.0 == (x * 100.0).Floor as real
  }

  lemma {:induction false} RoundHalfEvenMonotone(x: real, y: real)
    requires x <= y
    ensures RoundHalfEven(x) <= RoundHalfEven(y)
  {
    var fx, fy := x.Floor, y.Floor;
    if fx == fy {
      assert x - fx as real <= y - fy as real;
    } else {
      assert fx + 1 <= fy;
      assert RoundHalfEven(x) <= fx + 1;
      assert fy <= RoundHalfEven(y);
    }
  }

  /** Rounding never reorders two values. */
  lemma Round2Monotone(x: real, y: real)
    requires x <= y
    ensures Round2(x) <= Round2(y)
  {
    RoundHalfEvenMonotone(x * 100.0, y * 100.0);
  }

  /** A whole number of hundredths is left alone. */
  lemma Round2Exact(x: real)
    requires IsHundredths(x)
    ensures Round2(x) == x
  {
    var f := (x * 100.0).Floor;
    assert RoundHalfEven(x * 100.0) == f;
  }

  /** Rounding twice (`round(round(x, 2), 2)`) is rounding once. */
  lemma Round2Idempotent(x: real)
    ensures Round2(Round2(x)) == Round2(x)
  {
    Round2Exact(Round2(x));
  }

  /** Rounding keeps a value inside any interval whose ends are whole hundredths. */
  lemma Round2Within(x: real, lo: real, hi: real)
    requires IsHundredths(lo) && IsHundredths(hi)
    requires lo <= x <= hi
    ensures lo <= Round2(x) <= hi
  {
    Round2Monotone(lo, x);
    Round2Monotone(x, hi);
    Round2Exact(lo);
    Round2Exact(hi);
  }
}
