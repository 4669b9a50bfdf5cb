/** Decimal rendering of integers (Go's `%d` and `%04d`) and the digit-string
    values used to read integer literals back. */
module Decimal {

  predicate IsDigit(c: char) {
    '0' <= c <= '9'
  }

  predicate AllDigits(s: string) {
    forall i :: 0 <= i < |s| ==> IsDigit(s[i])
  }

  function DigitChar(d: nat): (c: char)
    requires d < 10
    ensures IsDigit(c) && c as int - '0' as int == d
  {
    (d + '0' as int) as char
  }

  function DigitValue(c: char): (d: nat)
    requires IsDigit(c)
    ensures d < 10 && DigitChar(d) == c
  {
    c as int - '0' as int
  }

  /** `%d` of a natural number: no sign, no leading zero except for 0 itself. */
  function NatToString(n: nat): (s: string)
    ensures 1 <= |s| && AllDigits(s)
    ensures s[0] == '0' ==> n == 0
    ensures n < 10 <==> |s| == 1
  {
    if n < 10 then [DigitChar(n)] else NatToString(n / 10) + [DigitChar(n % 10)]
  }

  /** `%d` of an integer: a minus sign in front of negative values. */
  function IntToString(i: int): string {
    if i < 0 then "-" + NatToString(-i) else NatToString(i)
  }

  /** `%04d` of a natural number: left-padded with zeros to at least four
      characters, and still reading back as the number. */
  function Pad4(n: nat): (s: string)
    ensures |s| == if |NatToString(n)| < 4 then 4 else |NatToString(n)|
    ensures AllDigits(s)
    ensures DigitsValue(s, 10) == n
  {
    var d := NatToString(n);
    NatToStringRoundTrip(n);
    LeadingZero(d, 10);
    if |d| == 1 then
      LeadingZero("0" + d, 10);
      assert "000" + d == "0" + ("0" + ("0" + d));
      LeadingZero("0" + ("0" + d), 10);
      "000" + d
    else if |d| == 2 then
      assert "00" + d == "0" + ("0" + d);
      LeadingZero("0" + d, 10);
      "00" + d
    else if |d| == 3 then "0" + d
    else d
  }

  /** The value of a string of digits, each below `base`, most significant first. */
  function DigitsValue(s: string, base: nat): nat
    requires AllDigits(s) && 2 <= base <= 10
  {
    if s == [] then 0 else DigitsValue(s[..|s| - 1], base) * base + DigitValue(s[|s| - 1])
  }

  /** A leading zero does not change the value of a digit string. */
  lemma {:induction false} LeadingZero(s: string, base: nat)
    requires AllDigits(s) && 2 <= base <= 10
    ensures AllDigits("0" + s) && DigitsValue("0" + s, base) == DigitsValue(s, base)
  {
    if s != [] {
      assert ("0" + s)[..|"0" + s| - 1] == "0" + s[..|s| - 1];
      LeadingZero(s[..|s| - 1], base);
    }
  }

  /** Reading a rendered number back gives the number: `%d` loses nothing. */
  lemma {:induction false} NatToStringRoundTrip(n: nat)
    ensures DigitsValue(NatToString(n), 10) == n
  {
    if n >= 10 {
      var s := NatToString(n);
      assert s[..|s| - 1] == NatToString(n / 10);
      NatToStringRoundTrip(n / 10);
    }
  }

  /** The rendering of a non-negative integer reads back as that integer, and a
      negative one is a minus sign followed by the rendering of its magnitude. */
  lemma IntToStringRoundTrip(i: int)
    ensures i >= 0 ==> DigitsValue(IntToString(i), 10) == i
    ensures i < 0 ==> IntToString(i)[0] == '-' && DigitsValue(IntToString(i)[1..], 10) == -i
  {
    if i >= 0 {
      NatToStringRoundTrip(i);
    } else {
      NatToStringRoundTrip(-i);
      assert IntToString(i)[1..] == NatToString(-i);
    }
  }
}
