/** Sums, extrema and means over real sequences, as `reduce((a, b) => a + b, 0)`, `Math.max(...xs)` and `sum(xs)` compute them. */
module Reals {

  /** The left fold of `+` from 0. */
  function Sum(xs: seq<real>): real {
    if xs == [] then 0.0 else Sum(xs[..|xs| - 1]) + xs[|xs| - 1]
  }

  lemma {:induction false} SumAppend(xs: seq<real>, ys: seq<real>)
    ensures Sum(xs + ys) == Sum(xs) + Sum(ys)
    decreases |ys|
  {
    if ys != [] {
      var l := ys[..|ys| - 1];
      assert (xs + ys)[..|xs + ys| - 1] == xs + l;
      assert (xs + ys)[|xs + ys| - 1] == ys[|ys| - 1];
      SumAppend(xs, l);
    } else {
      assert xs + ys == xs;
    }
  }

  lemma {:induction false} SumSingleton(x: real)
    ensures Sum([x]) == x
  {
    assert [x][..0] == [];
  }

  lemma {:induction false} SumNonNegative(xs: seq<real>)
    requires forall i :: 0 <= i < |xs| ==> xs[i] >= 0.0
    ensures Sum(xs) >= 0.0
  {
    if xs != [] {
      SumNonNegative(xs[..|xs| - 1]);
    }
  }

  /** A sum of non-negative terms is at least each of its terms. */
  lemma {:induction false} SumAtLeast(xs: seq<real>, k: int)
    requires forall i :: 0 <= i < |xs| ==> xs[i] >= 0.0
    requires 0 <= k < |xs|
    ensures xs[k] <= Sum(xs)
  {
    var n := |xs| - 1;
    if k == n {
      SumNonNegative(xs[..n]);
    } else {
      SumAtLeast(xs[..n], k);
    }
  }

  /** Summing element-wise larger terms gives a larger sum. */
  lemma {:induction false} SumMonotone(xs: seq<real>, ys: seq<real>)
    requires |xs| == |ys|
    requires forall i :: 0 <= i < |xs| ==> xs[i] <= ys[i]
    ensures Sum(xs) <= Sum(ys)
  {
    if xs != [] {
      SumMonotone(xs[..|xs| - 1], ys[..|ys| - 1]);
    }
  }

  /** A sum of terms each between `lo` and `hi` lies between `|xs| * lo` and `|xs| * hi`. */
  lemma {:induction false} SumBetween(xs: seq<real>, lo: real, hi: real)
    requires forall i :: 0 <= i < |xs| ==> lo <= xs[i] <= hi
    ensures |xs| as real * lo <= Sum(xs) <= |xs| as real * hi
  {
    if xs != [] {
      SumBetween(xs[..|xs| - 1], lo, hi);
      assert |xs| as real * lo == (|xs| - 1) as real * lo + lo;
      assert |xs| as real * hi == (|xs| - 1) as real * hi + hi;
    }
  }

  /** `Math.max(...xs)` of a non-empty list. */
  function Max(xs: seq<real>): (m: real)
    requires |xs| > 0
    ensures m in xs
    ensures forall i :: 0 <= i < |xs| ==> xs[i] <= m
  {
    if |xs| == 1 then xs[0]
    else
      var m := Max(xs[1..]);
      assert forall i :: 1 <= i < |xs| ==> xs[i] == xs[1..][i - 1];
      if xs[0] >= m then xs[0] else m
  }

  /** `Math.min(...xs)` of a non-empty list. */
  function Min(xs: seq<real>): (m: real)
    requires |xs| > 0
    ensures m in xs
    ensures forall i :: 0 <= i < |xs| ==> m <= xs[i]
  {
    if |xs| == 1 then xs[0]
    else
      var m := Min(xs[1..]);
      assert forall i :: 1 <= i < |xs| ==> xs[i] == xs[1..][i - 1];
      if xs[0] <= m then xs[0] else m
  }

  /** The arithmetic mean, 0 for an empty list. */
  function Mean(xs: seq<real>): real {
    if xs == [] then 0.0 else Sum(xs) / |xs| as real
  }

  /** A mean lies between the smallest and the largest term. */
  lemma {:induction false} MeanBetween(xs: seq<real>)
    requires |xs| > 0
    ensures Min(xs) <= Mean(xs) <= Max(xs)
  {
    var lo, hi := Min(xs), Max(xs);
    SumBetween(xs, lo, hi);
    DivideBetween(Sum(xs), |xs| as real, lo, hi);
  }

  lemma {:induction false} DivideBetween(s: real, n: real, lo: real, hi: real)
    requires n > 0.0 && n * lo <= s <= n * hi
    ensures lo <= s / n <= hi
  {
    assert s / n * n == s;
  }

  /** Truncation toward zero, as Python's `int()` of a float and JavaScript's `parseInt` of a printed number. */
  function Trunc(x: real): (r: int)
    ensures x >= 0.0 ==> r as real <= x < r as real + 1.0
    ensures x < 0.0 ==> r as real - 1.0 < x <= r as real
  {
    if x >= 0.0 then x.Floor else -((-x).Floor)
  }

  /** JavaScript `Math.round`: the nearest integer, halves rounded up. */
  function JsRound(x: real): (r: int)
    ensures x - 0.5 < r as real <= x + 0.5
  {
    (x + 0.5).Floor
  }

  /** The affine map `x => a * x + b`. */
  function Lin(a: real, b: real, x: real): real {
    a * x + b
  }

  lemma {:induction false} LinMonotone(a: real, b: real, x: real, y: real)
    requires a > 0.0 && x <= y
    ensures Lin(a, b, x) <= Lin(a, b, y)
  {
  }

  lemma {:induction false} MaxAt(xs: seq<real>, k: int)
    requires 0 <= k < |xs| && forall i :: 0 <= i < |xs| ==> xs[i] <= xs[k]
    ensures Max(xs) == xs[k]
  {
  }

  lemma {:induction false} MinAt(xs: seq<real>, k: int)
    requires 0 <= k < |xs| && forall i :: 0 <= i < |xs| ==> xs[k] <= xs[i]
    ensures Min(xs) == xs[k]
  {
  }

  /** An increasing affine map carries the maximum to the maximum. */
  lemma {:induction false} MaxAffine(xs: seq<real>, ys: seq<real>, a: real, b: real)
    requires |xs| > 0 && a > 0.0
    requires |ys| == |xs| && forall i :: 0 <= i < |xs| ==> ys[i] == Lin(a, b, xs[i])
    ensures Max(ys) == Lin(a, b, Max(xs))
  {
    var k :| 0 <= k < |xs| && xs[k] == Max(xs);
    forall i | 0 <= i < |xs| ensures ys[i] <= ys[k] {
      assert xs[i] <= Max(xs);
      LinMonotone(a, b, xs[i], xs[k]);
    }
    MaxAt(ys, k);
  }

  /** An increasing affine map carries the minimum to the minimum. */
  lemma {:induction false} MinAffine(xs: seq<real>, ys: seq<real>, a: real, b: real)
    requires |xs| > 0 && a > 0.0
    requires |ys| == |xs| && forall i :: 0 <= i < |xs| ==> ys[i] == Lin(a, b, xs[i])
    ensures Min(ys) == Lin(a, b, Min(xs))
  {
    var k :| 0 <= k < |xs| && xs[k] == Min(xs);
    forall i | 0 <= i < |xs| ensures ys[k] <= ys[i] {
      assert Min(xs) <= xs[i];
      LinMonotone(a, b, xs[k], xs[i]);
    }
    MinAt(ys, k);
  }
}
