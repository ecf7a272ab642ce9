/** The vector primitives of Accelerate (vDSP) that the processors use,
    stated by their mathematical effect over reals. */
module Vectors {

  /** vDSP_vclipD on one element: first raised to `lo`, then lowered to `hi`.
      When `lo <= hi` this is the usual clamp into [lo, hi]. */
  function Clip(v: real, lo: real, hi: real): (r: real)
    ensures lo <= hi ==> lo <= r <= hi
    ensures lo <= v <= hi ==> r == v
    ensures v <= lo <= hi ==> r == lo
    ensures lo <= hi <= v ==> r == hi
  {
    var raised := if v < lo then lo else v;
    if raised > hi then hi else raised
  }

  /** Clipping is monotone when the bounds are ordered. */
  lemma ClipMonotone(a: real, b: real, lo: real, hi: real)
    requires a <= b && lo <= hi
    ensures Clip(a, lo, hi) <= Clip(b, lo, hi)
  {
  }

  /** vDSP_minvD: the smallest element. */
  function Min(s: seq<real>): (m: real)
    requires |s| > 0
    ensures m in s
    ensures forall i :: 0 <= i < |s| ==> m <= s[i]
  {
    if |s| == 1 then s[0]
    else
      var rest := Min(s[1..]);
      assert forall i :: 1 <= i < |s| ==> s[i] == s[1..][i - 1];
      if s[0] < rest then s[0] else rest
  }

  /** vDSP_maxvD: the largest element. */
  function Max(s: seq<real>): (m: real)
    requires |s| > 0
    ensures m in s
    ensures forall i :: 0 <= i < |s| ==> s[i] <= m
  {
    if |s| == 1 then s[0]
    else
      var rest := Max(s[1..]);
      assert forall i :: 1 <= i < |s| ==> s[i] == s[1..][i - 1];
      if s[0] > rest then s[0] else rest
  }

  /** A value that is in `s` and below every element is its minimum. */
  lemma MinUnique(s: seq<real>, m: real)
    requires m in s && forall i :: 0 <= i < |s| ==> m <= s[i]
    ensures Min(s) == m
  {
    var k :| 0 <= k < |s| && s[k] == Min(s);
  }

  /** A value that is in `s` and above every element is its maximum. */
  lemma MaxUnique(s: seq<real>, m: real)
    requires m in s && forall i :: 0 <= i < |s| ==> s[i] <= m
    ensures Max(s) == m
  {
    var k :| 0 <= k < |s| && s[k] == Max(s);
  }

  /** vDSP_sveD: the sum of the elements. */
  function Sum(s: seq<real>): real {
    if s == [] then 0.0 else Sum(s[..|s| - 1]) + s[|s| - 1]
  }

  /** vDSP_meanvD: the arithmetic mean. */
  function Mean(s: seq<real>): real
    requires |s| > 0
  {
    Sum(s) / |s| as real
  }

  lemma {:induction false} SumBounds(s: seq<real>, lo: real, hi: real)
    requires forall i :: 0 <= i < |s| ==> lo <= s[i] <= hi
    ensures lo * |s| as real <= Sum(s) <= hi * |s| as real
  {
    if s != [] {
      SumBounds(s[..|s| - 1], lo, hi);
      assert lo * |s| as real == lo * (|s| - 1) as real + lo;
      assert hi * |s| as real == hi * (|s| - 1) as real + hi;
    }
  }

  /** A mean lies within any bounds that hold of every element. */
  lemma MeanBounds(s: seq<real>, lo: real, hi: real)
    requires |s| > 0
    requires forall i :: 0 <= i < |s| ==> lo <= s[i] <= hi
    ensures lo <= Mean(s) <= hi
  {
    SumBounds(s, lo, hi);
    var n := |s| as real;
    assert Mean(s) * n == Sum(s);
  }

  lemma {:induction false} SumPositive(s: seq<real>)
    requires |s| > 0
    requires forall i :: 0 <= i < |s| ==> s[i] > 0.0
    ensures Sum(s) > 0.0
  {
    if |s| > 1 {
      SumPositive(s[..|s| - 1]);
    }
  }

  /** The mean of positive values is positive. */
  lemma MeanPositive(s: seq<real>)
    requires |s| > 0
    requires forall i :: 0 <= i < |s| ==> s[i] > 0.0
    ensures Mean(s) > 0.0
  {
    SumPositive(s);
  }

  /** Scaling every element scales the sum (and so the mean) by the same
      factor. */
  lemma {:induction false} SumScale(s: seq<real>, t: seq<real>, c: real)
    requires |t| == |s|
    requires forall i :: 0 <= i < |s| ==> t[i] == c * s[i]
    ensures Sum(t) == c * Sum(s)
  {
    if s != [] {
      var n := |s|;
      SumScale(s[..n - 1], t[..n - 1], c);
    }
  }

  lemma MeanScale(s: seq<real>, t: seq<real>, c: real)
    requires |t| == |s| > 0
    requires forall i :: 0 <= i < |s| ==> t[i] == c * s[i]
    ensures Mean(t) == c * Mean(s)
  {
    SumScale(s, t, c);
  }
}
