/** Rendering of numbers as the formatters print them: Python's `round(x)`
    and the fixed-point format `f"{x:.2f}"`, both on exact real values. */
module Numerals {
  import opened Wrappers
  import opened Text

  function Abs(n: int): nat { if n < 0 then -n else n }

  /** Python's `min(a, b)`. */
  function Min(a: int, b: int): int { if a < b then a else b }

  /** Python's `max(a, b)`. */
  function Max(a: int, b: int): int { if a < b then b else a }

  /** `round(x)`: the nearest integer, ties to the even neighbour. */
  function RoundHalfEven(x: real): (n: int)
    ensures -0.5 <= x - n as real <= 0.5
    ensures (x - n as real == 0.5 || n as real - x == 0.5) ==> n % 2 == 0
  {
    var f := x.Floor;
    var frac := x - f as real;
    if frac < 0.5 then f
    else if frac > 0.5 then f + 1
    else if f % 2 == 0 then f
    else f + 1
  }

  /** The two contract clauses of `RoundHalfEven` pin its result down: any
      integer within one half of `x`, even on a tie, is that result. */
  lemma RoundHalfEvenUnique(x: real, m: int)
    requires -0.5 <= x - m as real <= 0.5
    requires (x - m as real == 0.5 || m as real - x == 0.5) ==> m % 2 == 0
    ensures m == RoundHalfEven(x)
  {
  }

  /** An integer rounds to itself. */
  lemma RoundInteger(k: int)
    ensures RoundHalfEven(k as real) == k
  {
    RoundHalfEvenUnique(k as real, k);
  }

  /** The sign of a rounded value follows the sign of what was rounded. */
  lemma RoundSign(x: real)
    ensures x < 0.0 ==> RoundHalfEven(x) <= 0
    ensures x >= 0.0 ==> RoundHalfEven(x) >= 0
  {
  }

  /** `f"{x:.2f}"`: a minus sign for negative `x` (even when the rounded
      value is zero), the integer part, a point and two digits of the value
      rounded to hundredths. */
  function Fixed2(x: real): (r: string)
    ensures |r| >= 4 && r[|r| - 3] == '.'
    ensures IsDigit(r[|r| - 2]) && IsDigit(r[|r| - 1])
    ensures r[0] == '-' <==> x < 0.0
  {
    var m := Abs(RoundHalfEven(x * 100.0));
    (if x < 0.0 then "-" else "") + NatToDecimal(m / 100) + "." + [DigitChar(m % 100 / 10), DigitChar(m % 10)]
  }

  /** Reads a fixed-point numeral with exactly two decimals, as a count of
      hundredths. */
  function HundredthsValue(s: string): (r: Option<int>)
  {
    if |s| >= 4 && s[|s| - 3] == '.' && IsDigit(s[|s| - 2]) && IsDigit(s[|s| - 1]) then
      var whole := s[..|s| - 3];
      var frac := 10 * (s[|s| - 2] as int - '0' as int) + (s[|s| - 1] as int - '0' as int);
      match DecimalValue(whole)
      case None => None
      case Some(k) => Some(if whole[0] == '-' then 100 * k - frac else 100 * k + frac)
    else None
  }

  /** The digits of a natural number read back as an unsigned or a
      negated numeral. */
  lemma SignedDigitsValue(sign: string, q: nat)
    requires sign == "" || sign == "-"
    ensures DecimalValue(sign + NatToDecimal(q)) == Some(if sign == "" then q as int else -(q as int))
  {
    var t := NatToDecimal(q);
    DigitsOfNat(q);
    if sign == "-" {
      assert (sign + t)[1..] == t;
    } else {
      assert sign + t == t;
    }
  }

  /** Reading a numeral assembled from a sign, an integer part and two
      fraction digits. */
  lemma HundredthsOfParts(sign: string, q: nat, a: nat, b: nat)
    requires sign == "" || sign == "-"
    requires a < 10 && b < 10
    ensures var v := 100 * q + 10 * a + b;
      HundredthsValue(sign + NatToDecimal(q) + "." + [DigitChar(a), DigitChar(b)])
        == Some(if sign == "" then v else -v)
  {
    var whole := sign + NatToDecimal(q);
    var r := whole + "." + [DigitChar(a), DigitChar(b)];
    assert r[..|r| - 3] == whole;
    assert r[|r| - 3] == '.' && r[|r| - 2] == DigitChar(a) && r[|r| - 1] == DigitChar(b);
    var frac := 10 * (DigitChar(a) as int - '0' as int) + (DigitChar(b) as int - '0' as int);
    assert frac == 10 * a + b;
    SignedDigitsValue(sign, q);
    assert whole[0] == '-' <==> sign == "-";
    if sign == "-" {
      assert 100 * -(q as int) - frac == -(100 * q + 10 * a + b);
    }
  }

  /** Reading back `f"{x:.2f}"` gives `x` rounded to hundredths. */
  lemma Fixed2RoundTrip(x: real)
    ensures HundredthsValue(Fixed2(x)) == Some(RoundHalfEven(x * 100.0))
  {
    var n := RoundHalfEven(x * 100.0);
    RoundSign(x * 100.0);
    var m := Abs(n);
    HundredthsDigits(m);
    HundredthsOfParts(if x < 0.0 then "-" else "", m / 100, m % 100 / 10, m % 10);
    assert (if x < 0.0 then 0 - m as int else m as int) == n;
  }

  /** A count of hundredths splits into whole units and two digits. */
  lemma HundredthsDigits(m: nat)
    ensures m % 100 / 10 < 10 && m % 10 < 10
    ensures m == 100 * (m / 100) + 10 * (m % 100 / 10) + m % 10
  {
    var q, f := m / 100, m % 100;
    assert m == 100 * q + f;
    assert f == 10 * (f / 10) + f % 10;
    assert m == 10 * (10 * q + f / 10) + f % 10;
    assert m % 10 == f % 10;
  }
}
