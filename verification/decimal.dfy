/** Decimal rendering of integers, as JavaScript's `String(n)` produces it
    for integral numbers, together with its inverse. */
module Decimal {

  predicate IsDigit(c: char) {
    '0' <= c <= '9'
  }

  function DigitChar(d: nat): (c: char)
    requires d < 10
    ensures IsDigit(c) && c as int - '0' as int == d
  {
    "0123456789"[d]
  }

  /** The decimal digits of `n`, most significant first, with no leading
      zero. */
  function NatToDecimal(n: nat): (s: string)
    ensures |s| >= 1
    ensures forall i :: 0 <= i < |s| ==> IsDigit(s[i])
    ensures |s| > 1 ==> s[0] != '0'
  {
    if n < 10 then [DigitChar(n)] else NatToDecimal(n / 10) + [DigitChar(n % 10)]
  }

  /** `String(n)` for an integral number: a minus sign before the digits of
      a negative value. */
  function IntToDecimal(n: int): (s: string)
    ensures |s| >= 1
    ensures n < 0 <==> s[0] == '-'
  {
    if n < 0 then "-" + NatToDecimal(-n) else NatToDecimal(n)
  }

  /** The value of a string of decimal digits. */
  function DecimalValue(s: string): nat
    requires forall i :: 0 <= i < |s| ==> IsDigit(s[i])
  {
    if |s| == 0 then 0
    else
      assert IsDigit(s[|s| - 1]);
      10 * DecimalValue(s[..|s| - 1]) + (s[|s| - 1] as int - '0' as int)
  }

  /** Reading back the digits gives the number. */
  lemma {:induction false} DecimalRoundTrip(n: nat)
    ensures DecimalValue(NatToDecimal(n)) == n
  {
    if n >= 10 {
      var s := NatToDecimal(n);
      DecimalRoundTrip(n / 10);
      assert s[..|s| - 1] == NatToDecimal(n / 10);
    }
  }

  /** Distinct numbers have distinct renderings. */
  lemma DecimalInjective(a: nat, b: nat)
    requires NatToDecimal(a) == NatToDecimal(b)
    ensures a == b
  {
    DecimalRoundTrip(a);
    DecimalRoundTrip(b);
  }

  lemma AllDecimalInjective()
    ensures forall a: nat, b: nat :: NatToDecimal(a) == NatToDecimal(b) ==> a == b
  {
    forall a: nat, b: nat | NatToDecimal(a) == NatToDecimal(b)
      ensures a == b
    {
      DecimalInjective(a, b);
    }
  }

  /** Distinct integers have distinct renderings. */
  lemma IntToDecimalInjective(a: int, b: int)
    requires IntToDecimal(a) == IntToDecimal(b)
    ensures a == b
  {
    SameSign(a, b);
    if a < 0 {
      NegativeDigits(a);
      NegativeDigits(b);
      DecimalInjective(-a, -b);
    } else {
      DecimalInjective(a, b);
    }
  }

  /** Equal renderings have the same sign. */
  lemma SameSign(a: int, b: int)
    requires IntToDecimal(a) == IntToDecimal(b)
    ensures a < 0 <==> b < 0
  {
    assert IntToDecimal(a)[0] == IntToDecimal(b)[0];
  }

  /** The digits of a negative number follow its sign. */
  lemma NegativeDigits(a: int)
    requires a < 0
    ensures IntToDecimal(a)[1..] == NatToDecimal(-a)
  {
    assert ("-" + NatToDecimal(-a))[1..] == NatToDecimal(-a);
  }
}
