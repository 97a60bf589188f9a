/**
 * The two numeric primitives the pipeline borrows from the host language:
 * parsing a rating cell into a number, and rounding a mean to two places.
 * Ratings are exact reals; binary floating point is not modelled.
 */
module Decimal {
  import opened Common

  predicate IsDigit(c: char) { '0' <= c <= '9' }

  predicate AllDigits(s: string) { forall i :: 0 <= i < |s| ==> IsDigit(s[i]) }

  /** Value of a string of decimal digits, most significant first ("" is 0). */
  function DigitsValue(s: string): nat
    requires AllDigits(s)
  {
    if s == [] then 0 else DigitsValue(s[..|s| - 1]) * 10 + (s[|s| - 1] as int - '0' as int)
  }

  function Pow10(n: nat): (r: nat)
    ensures r >= 1
  {
    if n == 0 then 1 else 10 * Pow10(n - 1)
  }

  /** Value of the digits after the point: ".25" is 25 hundredths. */
  function FractionValue(f: string): (r: real)
    requires AllDigits(f)
    ensures 0.0 <= r
  {
    DigitsValue(f) as real / Pow10(|f|) as real
  }

  /** Position of the first '.' in `s`, or |s| when there is none. */
  function FindDot(s: string): (r: nat)
    ensures r <= |s|
    ensures r < |s| ==> s[r] == '.'
    ensures forall i :: 0 <= i < r ==> s[i] != '.'
  {
    if s == [] then 0 else if s[0] == '.' then 0 else 1 + FindDot(s[1..])
  }

  /** An unsigned decimal: digits, optionally a '.' and more digits, at least one digit in all. */
  function ParseUnsigned(s: string): (r: Option<real>)
    ensures r.Some? ==> r.value >= 0.0
  {
    var d := FindDot(s);
    var whole := s[..d];
    var frac := if d < |s| then s[d + 1..] else [];
    if AllDigits(whole) && AllDigits(frac) && |whole| + |frac| > 0 then
      Some(DigitsValue(whole) as real + FractionValue(frac))
    else
      None
  }

  /**
   * The rating cell conversion of `float(...)`: an optional sign followed by an
   * unsigned decimal. Anything else is a conversion failure (None).
   */
  function ParseDecimal(s: string): (r: Option<real>)
    ensures r.Some? ==> |s| > 0
    ensures r.Some? && s[0] == '-' ==> r.value <= 0.0
    ensures r.Some? && s[0] != '-' ==> r.value >= 0.0
  {
    if |s| > 0 && s[0] == '-' then
      match ParseUnsigned(s[1..])
      case Some(v) => Some(-v)
      case None => None
    else if |s| > 0 && s[0] == '+' then ParseUnsigned(s[1..])
    else ParseUnsigned(s)
  }

  /** Decimal digits of `n`, most significant first, without leading zeros ("0" for zero). */
  function NatToDigits(n: nat): (s: string)
    ensures |s| > 0 && AllDigits(s)
  {
    if n < 10 then ['0' + (n as char)] else NatToDigits(n / 10) + ['0' + ((n % 10) as char)]
  }

  lemma {:induction false} DigitsValueOfNat(n: nat)
    ensures DigitsValue(NatToDigits(n)) == n
  {
    if n >= 10 {
      DigitsValueOfNat(n / 10);
      var s := NatToDigits(n);
      assert s[..|s| - 1] == NatToDigits(n / 10);
    }
  }

  lemma {:induction false} FindDotOfDigits(s: string)
    requires AllDigits(s)
    ensures FindDot(s) == |s|
  {
    if s != [] {
      assert IsDigit(s[0]);
      FindDotOfDigits(s[1..]);
    }
  }

  /** Reading back the digits of a whole number gives that number, with either sign. */
  lemma ParseDecimalOfNat(n: nat)
    ensures ParseDecimal(NatToDigits(n)) == Some(n as real)
    ensures ParseDecimal(['-'] + NatToDigits(n)) == Some(-(n as real))
  {
    var s := NatToDigits(n);
    FindDotOfDigits(s);
    assert s[..|s|] == s;
    DigitsValueOfNat(n);
    assert (['-'] + s)[1..] == s;
  }

  /** The first '.' after a run of digits is the one right after them. */
  lemma {:induction false} FindDotAfterDigits(a: string, b: string)
    requires AllDigits(a)
    ensures FindDot(a + ['.'] + b) == |a|
  {
    if a != [] {
      assert IsDigit(a[0]);
      assert (a + ['.'] + b)[1..] == a[1..] + ['.'] + b;
      FindDotAfterDigits(a[1..], b);
    }
  }

  lemma ParseUnsignedFixedPoint(a: string, f: string)
    requires AllDigits(a) && |a| > 0 && AllDigits(f)
    ensures ParseUnsigned(a + ['.'] + f) ==
      Some(DigitsValue(a) as real + FractionValue(f))
  {
    var s := a + ['.'] + f;
    FindDotAfterDigits(a, f);
    assert s[..FindDot(s)] == a;
    assert s[FindDot(s) + 1..] == f;
  }

  /**
   * Reading back a whole number's digits, a '.' and any fraction digits gives
   * the whole number plus the fraction's value in units of its last place.
   */
  lemma ParseDecimalOfFixedPoint(w: nat, f: string)
    requires AllDigits(f)
    ensures ParseDecimal(NatToDigits(w) + ['.'] + f) ==
      Some(w as real + FractionValue(f))
  {
    var a := NatToDigits(w);
    var s := a + ['.'] + f;
    ParseUnsignedFixedPoint(a, f);
    DigitsValueOfNat(w);
    assert IsDigit(a[0]);
    assert s[0] == a[0];
  }

  /** A leading '-' negates exactly what the unsigned text denotes. */
  lemma ParseDecimalNegation(t: string)
    requires ParseDecimal(t).Some? && |t| > 0 && t[0] != '-' && t[0] != '+'
    ensures ParseDecimal(['-'] + t) == Some(-ParseDecimal(t).value)
  {
    assert (['-'] + t)[1..] == t;
  }

  /**
   * Round to the nearest integer, ties to the even neighbour: the rule Python's
   * round() applies to the exact value of its argument.
   */
  function RoundHalfEven(y: real): (n: int)
    ensures -0.5 <= n as real - y <= 0.5
    ensures (n as real - y == 0.5 || y - n as real == 0.5) ==> n % 2 == 0
  {
    var f := y.Floor;
    var d := y - f as real;
    if d < 0.5 then f
    else if d > 0.5 then f + 1
    else if f % 2 == 0 then f
    else f + 1
  }

  /** The two properties of RoundHalfEven determine it. */
  lemma RoundHalfEvenUnique(y: real, m: int)
    requires -0.5 <= m as real - y <= 0.5
    requires (m as real - y == 0.5 || y - m as real == 0.5) ==> m % 2 == 0
    ensures m == RoundHalfEven(y)
  {
    var n := RoundHalfEven(y);
  }

  lemma RoundHalfEvenMonotone(x: real, y: real)
    requires x <= y
    ensures RoundHalfEven(x) <= RoundHalfEven(y)
  {
    var n, m := RoundHalfEven(x), RoundHalfEven(y);
  }

  /** `round(x, 2)`: the nearest multiple of 1/100, ties to an even number of hundredths. */
  function Round2(x: real): (r: real)
    ensures -0.005 <= r - x <= 0.005
  {
    RoundHalfEven(x * 100.0) as real / 100.0
  }

  /** A number that already has at most two decimals is left as it is. */
  lemma Round2OfHundredths(n: int)
    ensures Round2(n as real / 100.0) == n as real / 100.0
  {
    assert n as real / 100.0 * 100.0 == n as real;
    RoundHalfEvenUnique(n as real, n);
  }

  lemma Round2Idempotent(x: real)
    ensures Round2(Round2(x)) == Round2(x)
  {
    Round2OfHundredths(RoundHalfEven(x * 100.0));
  }

  /** Rounding never reverses the order of two numbers (it may make them equal). */
  lemma Round2Monotone(x: real, y: real)
    requires x <= y
    ensures Round2(x) <= Round2(y)
  {
    RoundHalfEvenMonotone(x * 100.0, y * 100.0);
  }
}
