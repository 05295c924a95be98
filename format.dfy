/**
 * The three conversions between numbers and text that the annotator uses:
 * `str(n)` on a Python int, `int(x)` on a float (truncation toward zero) and
 * the `f"{x:.2f}"` format of a confidence.  Floats are modelled by their exact
 * real value, so rounding is the correctly rounded, round-half-to-even
 * rounding that Python's formatter applies to that value.
 */
module Format {

  import opened Wrappers

  predicate IsDigit(c: char) {
    '0' <= c <= '9'
  }

  predicate AllDigits(s: string) {
    forall i :: 0 <= i < |s| ==> IsDigit(s[i])
  }

  function Digit(d: nat): (c: char)
    requires d < 10
    ensures IsDigit(c)
  {
    (('0' as int) + d) as char
  }

  function DigitValue(c: char): (d: nat)
    requires IsDigit(c)
    ensures d < 10 && Digit(d) == c
  {
    (c as int) - ('0' as int)
  }

  /** The number a string of decimal digits denotes (the reading side of `str`). */
  function DigitsValue(s: string): nat
    requires AllDigits(s)
  {
    if s == [] then 0 else DigitsValue(s[..|s| - 1]) * 10 + DigitValue(s[|s| - 1])
  }

  /** Python's `str(n)` for a non-negative int. */
  function NatToString(n: nat): (s: string)
    ensures |s| >= 1 && AllDigits(s)
    ensures |s| > 1 ==> s[0] != '0'
    decreases n
  {
    if n < 10 then [Digit(n)] else NatToString(n / 10) + [Digit(n % 10)]
  }

  /** Reading back what `str` wrote gives the number again. */
  lemma {:induction false} NatToStringRoundTrip(n: nat)
    ensures DigitsValue(NatToString(n)) == n
    decreases n
  {
    if n >= 10 {
      var s := NatToString(n);
      assert s[..|s| - 1] == NatToString(n / 10);
      NatToStringRoundTrip(n / 10);
    }
  }

  /** Python's `str(i)` for any int: a minus sign before the digits of a negative number. */
  function IntToString(i: int): (s: string)
  {
    if i < 0 then "-" + NatToString(-i) else NatToString(i)
  }

  /** Python's `int(s)` restricted to what `str` produces: an optional minus sign, then digits. */
  function ParseInt(s: string): Option<int>
  {
    if |s| >= 2 && s[0] == '-' && AllDigits(s[1..]) then Some(0 - DigitsValue(s[1..]))
    else if |s| >= 1 && AllDigits(s) then Some(DigitsValue(s))
    else None
  }

  /** A minus sign followed by the digits of n reads back as -n. */
  lemma NegativeReads(n: nat)
    ensures ParseInt("-" + NatToString(n)) == Some(0 - n)
  {
    var t := NatToString(n);
    var s := "-" + t;
    assert s[1..] == t;
    assert |s| >= 2 && s[0] == '-';
    NatToStringRoundTrip(n);
  }

  /** The digits of n read back as n. */
  lemma NonNegativeReads(n: nat)
    ensures ParseInt(NatToString(n)) == Some(n)
  {
    var t := NatToString(n);
    assert IsDigit(t[0]);
    NatToStringRoundTrip(n);
  }

  /** `str` on an int is invertible: the class id shown in a label can be read back. */
  lemma IntToStringRoundTrip(i: int)
    ensures ParseInt(IntToString(i)) == Some(i)
  {
    if i < 0 {
      NegativeReads(-i);
    } else {
      NonNegativeReads(i);
    }
  }

  /** Python's `int(x)` on a finite float: truncation toward zero. */
  function Trunc(x: real): int
  {
    if x >= 0.0 then x.Floor else -((-x).Floor)
  }

  /** `int(x)` drops the fractional part: it moves x less than one unit, toward zero. */
  lemma TruncTowardZero(x: real)
    ensures x >= 0.0 ==> Trunc(x) >= 0 && Trunc(x) as real <= x < Trunc(x) as real + 1.0
    ensures x < 0.0 ==> Trunc(x) <= 0 && Trunc(x) as real - 1.0 < x <= Trunc(x) as real
  {
  }

  /** Truncation is monotone, so a box with x1 <= x2 keeps that order after `int()`. */
  lemma TruncMonotone(x: real, y: real)
    requires x <= y
    ensures Trunc(x) <= Trunc(y)
  {
    if x >= 0.0 {
      assert (x.Floor as real) <= y;
    } else if y < 0.0 {
      assert ((-y).Floor as real) <= -x;
    }
  }

  /** Round to the nearest integer, ties to the even neighbour. */
  function RoundHalfEven(y: real): nat
    requires y >= 0.0
  {
    var f := y.Floor;
    var frac := y - f as real;
    if frac < 0.5 then f
    else if frac > 0.5 then f + 1
    else if f % 2 == 0 then f else f + 1
  }

  /** The rounded value is within one half of y, and on a tie it is even. */
  lemma RoundHalfEvenNearest(y: real)
    requires y >= 0.0
    ensures var n := RoundHalfEven(y);
            n as real - y <= 0.5 && y - n as real <= 0.5
            && ((n as real - y == 0.5 || y - n as real == 0.5) ==> n % 2 == 0)
  {
  }

  function Abs(x: real): real {
    if x < 0.0 then -x else x
  }

  /**
   * Python's `f"{x:.2f}"`: the sign of x (kept even when the rounded value is
   * zero, as in "-0.00"), the integer part, a point and two decimals.
   */
  function Fmt2(x: real): string
  {
    (if x < 0.0 then "-" else "") + Hundredths(RoundHalfEven(Abs(x) * 100.0))
  }

  /** n hundredths written as the integer part, a point and two decimals. */
  function Hundredths(n: nat): string
  {
    var cents := n / 10;
    NatToString(cents / 10) + "." + [Digit(cents % 10), Digit(n % 10)]
  }

  /** Reads digits, a point and exactly two decimals. */
  function ParseUnsignedFixed2(s: string): Option<real>
  {
    var k := |s|;
    if k >= 4 && s[k - 3] == '.' && IsDigit(s[k - 2]) && IsDigit(s[k - 1]) && AllDigits(s[..k - 3])
    then Some(DigitsValue(s[..k - 3]) as real + (DigitValue(s[k - 2]) as real) / 10.0
              + (DigitValue(s[k - 1]) as real) / 100.0)
    else None
  }

  /** Reads a fixed-point string with exactly two decimals and an optional minus sign. */
  function ParseFixed2(s: string): Option<real>
  {
    if |s| > 0 && s[0] == '-' then
      match ParseUnsignedFixed2(s[1..])
      case Some(v) => Some(-v)
      case None => None
    else ParseUnsignedFixed2(s)
  }

  lemma DigitRoundTrip(d: nat)
    requires d < 10
    ensures DigitValue(Digit(d)) == d
  {
  }

  /** Reading an integer part and two decimals gives their value. */
  lemma ParseUnsignedParts(q: nat, a: nat, b: nat)
    requires a < 10 && b < 10
    ensures ParseUnsignedFixed2(NatToString(q) + "." + [Digit(a), Digit(b)])
              == Some(q as real + (a as real) / 10.0 + (b as real) / 100.0)
  {
    var whole := NatToString(q);
    var s := whole + "." + [Digit(a), Digit(b)];
    var k := |s|;
    assert s[..k - 3] == whole;
    assert s[k - 3] == '.' && s[k - 2] == Digit(a) && s[k - 1] == Digit(b);
    DigitRoundTrip(a);
    DigitRoundTrip(b);
    NatToStringRoundTrip(q);
  }

  /** The three decimal digits of n that `Fmt2` prints after the integer part. */
  lemma DecimalSplit(n: nat)
    ensures var cents := n / 10;
            (n as real) / 100.0 == ((cents / 10) as real) + ((cents % 10) as real) / 10.0
                                  + ((n % 10) as real) / 100.0
  {
    var cents := n / 10;
    assert n == 10 * cents + n % 10;
    assert cents == 10 * (cents / 10) + cents % 10;
    assert n == 100 * (cents / 10) + 10 * (cents % 10) + n % 10;
  }

  /** The text of `Hundredths` starts with a digit and reads back as n / 100. */
  lemma HundredthsReads(n: nat)
    ensures ParseUnsignedFixed2(Hundredths(n)) == Some((n as real) / 100.0)
    ensures IsDigit(Hundredths(n)[0])
  {
    var cents := n / 10;
    ParseUnsignedParts(cents / 10, cents % 10, n % 10);
    DecimalSplit(n);
    assert Hundredths(n)[0] == NatToString(cents / 10)[0];
  }

  /** A leading minus sign negates what follows it; a leading digit is read unsigned. */
  lemma SignedReads(negative: bool, t: string)
    requires |t| > 0 && IsDigit(t[0])
    ensures var r := ParseFixed2((if negative then "-" else "") + t);
            if negative then r == (match ParseUnsignedFixed2(t) case Some(v) => Some(-v) case None => None)
            else r == ParseUnsignedFixed2(t)
  {
    if negative {
      assert ("-" + t)[1..] == t;
    } else {
      assert "" + t == t;
    }
  }

  /** The integer part of `Hundredths` is a canonical decimal: digits without a leading zero. */
  lemma HundredthsCanonical(n: nat)
    ensures var h := Hundredths(n); var w := h[..|h| - 3];
            |h| >= 4 && h[|h| - 3] == '.' && IsDigit(h[|h| - 2]) && IsDigit(h[|h| - 1])
            && AllDigits(w) && (|w| > 1 ==> w[0] != '0')
  {
    var h := Hundredths(n);
    assert h[..|h| - 3] == NatToString(n / 10 / 10);
  }

  /**
   * `Fmt2` writes the canonical form Python prints: an optional minus sign, an
   * integer part of digits without a leading zero, a point and two digits.
   * Together with `Fmt2Reads` this fixes the text completely.
   */
  lemma Fmt2Canonical(x: real)
    ensures var s := Fmt2(x); var start := if x < 0.0 then 1 else 0;
            |s| >= start + 4 && s[|s| - 3] == '.' && IsDigit(s[|s| - 2]) && IsDigit(s[|s| - 1])
            && AllDigits(s[start..|s| - 3])
            && (|s| - 3 - start > 1 ==> s[start] != '0')
  {
    var h := Hundredths(RoundHalfEven(Abs(x) * 100.0));
    HundredthsCanonical(RoundHalfEven(Abs(x) * 100.0));
    var s := Fmt2(x);
    if x < 0.0 {
      assert s == "-" + h;
      assert s[1..|s| - 3] == h[..|h| - 3];
    } else {
      assert s == h;
    }
  }

  /** The text of `Fmt2` reads back as the signed number of hundredths it rounded to. */
  lemma Fmt2Reads(x: real)
    ensures ParseFixed2(Fmt2(x)) == Some(
              var v := (RoundHalfEven(Abs(x) * 100.0) as real) / 100.0; if x < 0.0 then -v else v)
    ensures Fmt2(x)[0] == '-' <==> x < 0.0
  {
    var t := Hundredths(RoundHalfEven(Abs(x) * 100.0));
    HundredthsReads(RoundHalfEven(Abs(x) * 100.0));
    SignedReads(x < 0.0, t);
  }

  /**
   * What `f"{x:.2f}"` promises: the text reads back as a number at most half a
   * hundredth away from x, and it starts with a minus sign exactly when x is negative.
   */
  lemma Fmt2Nearest(x: real)
    ensures ParseFixed2(Fmt2(x)).Some?
    ensures var v := ParseFixed2(Fmt2(x)).value; v - x <= 0.005 && x - v <= 0.005
    ensures Fmt2(x)[0] == '-' <==> x < 0.0
  {
    Fmt2Reads(x);
    RoundHalfEvenNearest(Abs(x) * 100.0);
  }

  /** Worked examples of the two-decimal format, including a tie rounded to even. */
  lemma Fmt2Example()
    ensures Fmt2(0.8734) == "0.87"
    ensures Fmt2(0.91) == "0.91"
    ensures Fmt2(0.125) == "0.12"
  {
    assert (87.34).Floor == 87;
    assert (91.0).Floor == 91;
    assert (12.5).Floor == 12;
  }
}
