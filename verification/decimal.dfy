/**
 Decimal rendering of integers, as a JavaScript template literal renders a
 safe integer (`${n}`): optional minus sign, then the digits without leading
 zeros. ParseInt is the inverse used to state what a rendering means.
 */
module Decimal {
  import opened Wrappers

  predicate IsDigit(c: char) {
    '0' <= c <= '9'
  }

  predicate AllDigits(s: string) {
    forall i :: 0 <= i < |s| ==> IsDigit(s[i])
  }

  function DigitChar(d: int): (c: char)
    requires 0 <= d < 10
    ensures IsDigit(c)
  {
    ('0' as int + d) as char
  }

  function DigitValue(c: char): (d: int)
    requires IsDigit(c)
    ensures 0 <= d < 10
  {
    c as int - '0' as int
  }

  /** Decimal digits of a natural number, most significant first. */
  function NatToDecimal(n: nat): (s: string)
    ensures |s| >= 1 && AllDigits(s)
    ensures s[0] == '0' <==> n == 0
    ensures n == 0 ==> |s| == 1
  {
    if n < 10 then [DigitChar(n)] else NatToDecimal(n / 10) + [DigitChar(n % 10)]
  }

  /** Value of a string of decimal digits (the empty string reads as 0). */
  function ParseNat(s: string): nat
    requires AllDigits(s)
  {
    if |s| == 0 then 0 else 10 * ParseNat(s[..|s| - 1]) + DigitValue(s[|s| - 1])
  }

  lemma {:induction false} ParseNatToDecimal(n: nat)
    ensures ParseNat(NatToDecimal(n)) == n
  {
    if n >= 10 {
      var s := NatToDecimal(n);
      assert s[..|s| - 1] == NatToDecimal(n / 10);
      ParseNatToDecimal(n / 10);
    }
  }

  /** `${n}` for an integer n. */
  function IntToString(n: int): (s: string)
  {
    if n < 0 then "-" + NatToDecimal(-n) else NatToDecimal(n)
  }

  /** Reads back a rendering: an optional '-' followed by at least one digit. */
  function ParseInt(s: string): (r: Option<int>)
  {
    if |s| >= 2 && s[0] == '-' && AllDigits(s[1..]) then
      var magnitude: int := ParseNat(s[1..]);
      Some(-magnitude)
    else if |s| >= 1 && AllDigits(s) then Some(ParseNat(s))
    else None
  }

  /** The rendering is well formed and reads back as the same integer. */
  lemma IntToStringRoundTrip(n: int)
    ensures |IntToString(n)| >= 1
    ensures IntToString(n)[0] == '-' <==> n < 0
    ensures ParseInt(IntToString(n)) == Some(n)
  {
    var s := IntToString(n);
    if n < 0 {
      assert s[1..] == NatToDecimal(-n);
      ParseNatToDecimal(-n);
    } else {
      ParseNatToDecimal(n);
    }
  }

  /** Distinct integers render to distinct strings. */
  lemma IntToStringInjective(a: int, b: int)
    ensures IntToString(a) == IntToString(b) <==> a == b
  {
    IntToStringRoundTrip(a);
    IntToStringRoundTrip(b);
  }
}
