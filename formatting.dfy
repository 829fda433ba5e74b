/**
 * The magnitude and sign choice of `format_large_number` and
 * `format_currency` (src/utils/helpers.py). A rendering is modelled as its
 * parts: the prefix, the scaled magnitude that `.2f` then prints, and the
 * tier suffix. The two-decimal printing itself is not modelled.
 */
module Formatting {

  /** What the formatters are handed: a missing value (None or NaN), a
      number, or anything else, which is printed with `str`. */
  datatype Value = Missing | Number(x: real) | Other(text: string)

  datatype Rendered = NA | Text(s: string) | Scaled(prefix: string, magnitude: real, suffix: string)

  datatype Tier = Units | Thousands | Millions | Billions | Trillions

  function Divisor(t: Tier): (d: real)
    ensures d >= 1.0
  {
    match t
    case Units => 1.0
    case Thousands => 1000.0
    case Millions => 1000000.0
    case Billions => 1000000000.0
    case Trillions => 1000000000000.0
  }

  function Suffix(t: Tier): string {
    match t
    case Units => ""
    case Thousands => "K"
    case Millions => "M"
    case Billions => "B"
    case Trillions => "T"
  }

  function Abs(x: real): (a: real)
    ensures a >= 0.0 && (a == x || a == -x)
  {
    if x < 0.0 then -x else x
  }

  /** The tier of `format_large_number`: the largest divisor not above the magnitude. */
  function LargeTier(a: real): (t: Tier)
    requires a >= 0.0
    ensures t == Units <==> a < 1000.0
    ensures t == Thousands <==> 1000.0 <= a < 1000000.0
    ensures t == Millions <==> 1000000.0 <= a < 1000000000.0
    ensures t == Billions <==> 1000000000.0 <= a < 1000000000000.0
    ensures t == Trillions <==> 1000000000000.0 <= a
  {
    if a < 1000.0 then Units
    else if a < 1000000.0 then Thousands
    else if a < 1000000000.0 then Millions
    else if a < 1000000000000.0 then Billions
    else Trillions
  }

  /** The tier of `format_currency`: there is no thousands tier. */
  function CurrencyTier(a: real): (t: Tier)
    requires a >= 0.0
    ensures t != Thousands
    ensures t == Units <==> a < 1000000.0
    ensures t == Millions <==> 1000000.0 <= a < 1000000000.0
    ensures t == Billions <==> 1000000000.0 <= a < 1000000000000.0
    ensures t == Trillions <==> 1000000000000.0 <= a
  {
    if a < 1000000.0 then Units
    else if a < 1000000000.0 then Millions
    else if a < 1000000000000.0 then Billions
    else Trillions
  }

  /** The printed magnitude lies in [1, 1000) in every tier but the first
      and the last. */
  predicate InRange(t: Tier, m: real) {
    && (t != Units ==> 1.0 <= m)
    && (t != Trillions ==> m < 1000.0)
  }

  lemma ScaledRange(a: real, t: Tier)
    requires a >= 0.0 && t == LargeTier(a)
    ensures InRange(t, a / Divisor(t))
  {
    var d := Divisor(t);
    if t != Units {
      assert d <= a;
      assert a / d >= 1.0 by { assert a / d * d == a; }
    }
    if t != Trillions {
      assert a < 1000.0 * d;
      assert a / d < 1000.0 by { assert a / d * d == a; }
    }
  }

  /** `format_large_number`. */
  function FormatLargeNumber(v: Value): (r: Rendered)
    ensures v.Missing? <==> r == NA
    ensures v.Other? ==> r == Text(v.text)
    ensures v.Number? ==> r.Scaled?
    ensures v.Number? ==> (r.prefix == "-" <==> v.x < 0.0) && (r.prefix == "" <==> v.x >= 0.0)
    ensures v.Number? ==> r.suffix == Suffix(LargeTier(Abs(v.x)))
    ensures v.Number? ==> r.magnitude * Divisor(LargeTier(Abs(v.x))) == Abs(v.x)
    ensures v.Number? ==> InRange(LargeTier(Abs(v.x)), r.magnitude)
  {
    match v
    case Missing => NA
    case Other(text) => Text(text)
    case Number(x) =>
      var a := Abs(x);
      var t := LargeTier(a);
      ScaledRange(a, t);
      Scaled(if x < 0.0 then "-" else "", a / Divisor(t), Suffix(t))
  }

  /** Negating a non-zero number toggles the "-" prefix and nothing else. */
  lemma LargeNumberNegation(x: real)
    requires x != 0.0
    ensures FormatLargeNumber(Number(-x)).magnitude == FormatLargeNumber(Number(x)).magnitude
    ensures FormatLargeNumber(Number(-x)).suffix == FormatLargeNumber(Number(x)).suffix
    ensures FormatLargeNumber(Number(-x)).prefix != FormatLargeNumber(Number(x)).prefix
  {
    assert Abs(-x) == Abs(x);
  }

  const CurrencySign: string := "R$ "

  /** `format_currency`: always "R$ ", and the magnitude of the number. */
  function FormatCurrency(v: Value): (r: Rendered)
    ensures v.Missing? <==> r == NA
    ensures v.Other? ==> r == Text(v.text)
    ensures v.Number? ==> r.Scaled?
    ensures v.Number? ==> r.prefix == CurrencySign
    ensures v.Number? ==> r.suffix == Suffix(CurrencyTier(Abs(v.x)))
    ensures v.Number? ==> r.magnitude * Divisor(CurrencyTier(Abs(v.x))) == Abs(v.x)
  {
    match v
    case Missing => NA
    case Other(text) => Text(text)
    case Number(x) =>
      var t := CurrencyTier(Abs(x));
      Scaled(CurrencySign, Abs(x) / Divisor(t), Suffix(t))
  }

  /** The sign of the number is dropped: f(x) == f(-x). */
  lemma CurrencyIgnoresSign(x: real)
    ensures FormatCurrency(Number(-x)) == FormatCurrency(Number(x))
  {
    assert Abs(-x) == Abs(x);
  }

  /** Values from one thousand up to one million are printed in full, with no
      "K" suffix, although the docstring lists K among the tiers. */
  lemma CurrencyHasNoThousands(x: real)
    requires 1000.0 <= Abs(x) < 1000000.0
    ensures FormatCurrency(Number(x)) == Scaled(CurrencySign, Abs(x), "")
    ensures FormatLargeNumber(Number(x)).suffix == "K"
  {
  }
}
