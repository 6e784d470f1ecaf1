/** Python numeric conversions used throughout the services. */
module Numeric {

  /** Python's `int(x)` on a float: truncation toward zero. */
  function Trunc(x: real): (r: int)
    ensures x >= 0.0 ==> r as real <= x < r as real + 1.0
    ensures x < 0.0 ==> r as real - 1.0 < x <= r as real
    ensures 0.0 <= x ==> 0 <= r
  {
    if x >= 0.0 then x.Floor else -((-x).Floor)
  }

  /** Truncating a whole number gives it back. */
  lemma TruncOfInt(n: int)
    ensures Trunc(n as real) == n
  {
  }

  /** Truncation is monotone on reals. */
  lemma {:induction false} TruncMonotone(x: real, y: real)
    requires x <= y
    ensures Trunc(x) <= Trunc(y)
  {
    if x < 0.0 && y >= 0.0 {
    } else if x >= 0.0 {
      assert x.Floor <= y.Floor;
    } else {
      assert (-y).Floor <= (-x).Floor;
    }
  }

  function Max(a: real, b: real): real { if a >= b then a else b }

  function Min(a: real, b: real): real { if a <= b then a else b }

  function IntMax(a: int, b: int): int { if a >= b then a else b }

  function IntMin(a: int, b: int): int { if a <= b then a else b }

  function Sum(s: seq<real>): real
  {
    if s == [] then 0.0 else Sum(s[..|s| - 1]) + s[|s| - 1]
  }

  /** numpy's `mean` of a non-empty list. */
  function Mean(s: seq<real>): real
    requires |s| > 0
  {
    Sum(s) / |s| as real
  }

  /** Each term of a sum lying in [lo, hi] puts the mean in [lo, hi]. */
  lemma {:induction false} SumBounds(s: seq<real>, lo: real, hi: real)
    requires forall i :: 0 <= i < |s| ==> lo <= s[i] <= hi
    ensures |s| as real * lo <= Sum(s) <= |s| as real * hi
  {
    if s != [] {
      SumBounds(s[..|s| - 1], lo, hi);
    }
  }

  lemma MeanBounds(s: seq<real>, lo: real, hi: real)
    requires |s| > 0
    requires forall i :: 0 <= i < |s| ==> lo <= s[i] <= hi
    ensures lo <= Mean(s) <= hi
  {
    SumBounds(s, lo, hi);
    var n := |s| as real;
    assert n * lo <= Sum(s) <= n * hi;
    assert lo == (n * lo) / n;
    assert hi == (n * hi) / n;
  }

  /** Terms all at least `lo` put the mean at least at `lo`. */
  lemma {:induction false} MeanAtLeast(s: seq<real>, lo: real)
    requires |s| > 0
    requires forall i :: 0 <= i < |s| ==> lo <= s[i]
    ensures lo <= Mean(s)
  {
    SumAtLeast(s, lo);
    var n := |s| as real;
    assert lo == (n * lo) / n;
  }

  lemma {:induction false} SumAtLeast(s: seq<real>, lo: real)
    requires forall i :: 0 <= i < |s| ==> lo <= s[i]
    ensures |s| as real * lo <= Sum(s)
  {
    if s != [] {
      SumAtLeast(s[..|s| - 1], lo);
    }
  }

  /**
   * Python's `round(x, 2)`: the nearest multiple of 0.01, ties to the even
   * multiple. The computation is done on exact reals.
   */
  function Round2(x: real): (r: real)
    ensures (r * 100.0).Floor as real == r * 100.0
    ensures -1.0 / 200.0 <= r - x <= 1.0 / 200.0
    ensures (x * 100.0 - r * 100.0 == 0.5 || r * 100.0 - x * 100.0 == 0.5) ==> (r * 100.0).Floor % 2 == 0
    ensures 0.0 <= x <= 1.0 ==> 0.0 <= r <= 1.0
  {
    var n := (x * 100.0).Floor;
    var frac := x * 100.0 - n as real;
    var k := if frac < 0.5 then n
             else if frac > 0.5 then n + 1
             else if n % 2 == 0 then n else n + 1;
    k as real / 100.0
  }
}
