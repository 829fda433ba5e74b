/**
 * The numeric vocabulary of the dashboard: the source computes with float64
 * columns; the model computes with reals, extended with the non-finite values
 * that a float division by zero yields (no rounding is modelled).
 */
module Numbers {

  /** A float64 value without rounding: a real, an infinity, or NaN. */
  datatype Float = Num(v: real) | PosInf | NegInf | NaN

  /** Float division `a / b`; a zero divisor is taken to be +0.0. */
  function Div(a: real, b: real): (r: Float)
    ensures r.Num? <==> b != 0.0
    ensures r.Num? ==> r.v == a / b
    ensures r == NaN <==> a == 0.0 && b == 0.0
  {
    if b != 0.0 then Num(a / b)
    else if a > 0.0 then PosInf
    else if a < 0.0 then NegInf
    else NaN
  }

  /** Float addition: NaN absorbs, opposite infinities give NaN. */
  function Add(x: Float, y: Float): (r: Float)
    ensures x.Num? && y.Num? ==> r == Num(x.v + y.v)
    ensures r.Num? ==> x.Num? && y.Num?
  {
    match (x, y)
    case (Num(a), Num(b)) => Num(a + b)
    case (NaN, _) => NaN
    case (_, NaN) => NaN
    case (PosInf, NegInf) => NaN
    case (NegInf, PosInf) => NaN
    case (PosInf, _) => PosInf
    case (_, PosInf) => PosInf
    case (NegInf, _) => NegInf
    case (_, NegInf) => NegInf
  }

  /** Multiplication of a float by a positive constant. */
  function Scale(x: Float, c: real): (r: Float)
    requires c > 0.0
    ensures r.Num? <==> x.Num?
    ensures x.Num? ==> r.v == x.v * c
  {
    match x
    case Num(a) => Num(a * c)
    case _ => x
  }

  /** `x - 1`, as in pandas' `a / b - 1`. */
  function Minus1(x: Float): (r: Float)
    ensures r.Num? <==> x.Num?
    ensures x.Num? ==> r.v == x.v - 1.0
  {
    match x
    case Num(v) => Num(v - 1.0)
    case _ => x
  }

  /** The sum of a column (pandas `sum`); summed from the back. */
  function Sum(s: seq<real>): real {
    if s == [] then 0.0 else Sum(s[..|s| - 1]) + s[|s| - 1]
  }

  lemma {:induction false} SumAppend(a: seq<real>, b: seq<real>)
    ensures Sum(a + b) == Sum(a) + Sum(b)
  {
    if b == [] {
      assert a + b == a;
    } else {
      var b' := b[..|b| - 1];
      assert (a + b)[..|a + b| - 1] == a + b';
      SumAppend(a, b');
    }
  }

  /** The largest element of a column (pandas `max`). */
  function MaxOf(s: seq<real>): (r: real)
    requires s != []
    ensures r in s
    ensures forall i :: 0 <= i < |s| ==> s[i] <= r
  {
    if |s| == 1 then s[0]
    else
      var m := MaxOf(s[1..]);
      assert forall i :: 1 <= i < |s| ==> s[i] == s[1..][i - 1];
      if s[0] >= m then s[0] else m
  }

  /** The smallest element of a column (pandas `min`). */
  function MinOf(s: seq<real>): (r: real)
    requires s != []
    ensures r in s
    ensures forall i :: 0 <= i < |s| ==> r <= s[i]
  {
    if |s| == 1 then s[0]
    else
      var m := MinOf(s[1..]);
      assert forall i :: 1 <= i < |s| ==> s[i] == s[1..][i - 1];
      if s[0] <= m then s[0] else m
  }

  /** The arithmetic mean of a non-empty column (pandas `mean`). */
  function Mean(s: seq<real>): real
    requires s != []
  {
    Sum(s) / (|s| as real)
  }

  /** A sum is bounded by the length times the smallest and largest element. */
  lemma {:induction false} SumBounds(s: seq<real>, lo: real, hi: real)
    requires forall i :: 0 <= i < |s| ==> lo <= s[i] <= hi
    ensures (|s| as real) * lo <= Sum(s) <= (|s| as real) * hi
  {
    if s != [] {
      var init := s[..|s| - 1];
      assert forall i :: 0 <= i < |init| ==> init[i] == s[i];
      SumBounds(init, lo, hi);
      var x := s[|s| - 1];
      assert Sum(s) == Sum(init) + x;
      assert |s| as real == |init| as real + 1.0;
      BoundStep(|init| as real, lo, hi, Sum(init), x);
    }
  }

  lemma BoundStep(m: real, lo: real, hi: real, a: real, x: real)
    requires m * lo <= a <= m * hi && lo <= x <= hi
    ensures (m + 1.0) * lo <= a + x <= (m + 1.0) * hi
  {
    assert (m + 1.0) * lo == m * lo + lo;
    assert (m + 1.0) * hi == m * hi + hi;
  }

  /** The mean lies between the minimum and the maximum. */
  lemma MeanBetweenMinAndMax(s: seq<real>)
    requires s != []
    ensures MinOf(s) <= Mean(s) <= MaxOf(s)
  {
    MeanWithin(s, MinOf(s), MaxOf(s));
  }

  /** A mean lies within any bounds of its elements. */
  lemma MeanWithin(s: seq<real>, lo: real, hi: real)
    requires s != []
    requires forall i :: 0 <= i < |s| ==> lo <= s[i] <= hi
    ensures lo <= Mean(s) <= hi
  {
    SumBounds(s, lo, hi);
    DivBetween(Sum(s), |s| as real, lo, hi);
  }

  lemma DivBetween(x: real, n: real, lo: real, hi: real)
    requires n > 0.0 && n * lo <= x <= n * hi
    ensures lo <= x / n <= hi
  {
    var q := x / n;
    assert (q - lo) * n == x - n * lo;
    assert (hi - q) * n == n * hi - x;
  }
}
