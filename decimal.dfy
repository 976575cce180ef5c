/**
 * Decimal text for 64-bit integers: i64tostr ("%d"), "%u" of an unsigned value, and
 * atoi64, which follows strtoll: leading white space, an optional sign, the longest
 * run of digits, and clamping to the int64 range.
 */
module Decimal {

  const INT64_MIN: int := -0x8000_0000_0000_0000
  const INT64_MAX: int := 0x7FFF_FFFF_FFFF_FFFF

  type int64 = x: int | INT64_MIN <= x <= INT64_MAX

  predicate IsDigit(c: char)
  {
    '0' <= c <= '9'
  }

  predicate AllDigits(s: string)
  {
    forall i :: 0 <= i < |s| ==> IsDigit(s[i])
  }

  function DigitChar(d: nat): (c: char)
    requires d < 10
    ensures IsDigit(c)
  {
    ('0' as int + d) as char
  }

  function DigitValue(c: char): (d: nat)
    requires IsDigit(c)
    ensures d < 10
  {
    c as int - '0' as int
  }

  /** The decimal digits of n, most significant first, without leading zeros. */
  function NatToStr(n: nat): (s: string)
    ensures |s| >= 1 && AllDigits(s)
  {
    if n < 10 then [DigitChar(n)] else NatToStr(n / 10) + [DigitChar(n % 10)]
  }

  /** The number a string of digits denotes. */
  function DecimalValue(s: string): nat
    requires AllDigits(s)
  {
    if |s| == 0 then 0 else DecimalValue(s[..|s| - 1]) * 10 + DigitValue(s[|s| - 1])
  }

  /** Reading back the digits of n gives n. */
  lemma {:induction false} DecimalValueOfNatToStr(n: nat)
    ensures DecimalValue(NatToStr(n)) == n
  {
    if n >= 10 {
      DecimalValueOfNatToStr(n / 10);
      var s := NatToStr(n);
      assert s[..|s| - 1] == NatToStr(n / 10);
    }
  }

  /** i64tostr: "%d" formatting, a minus sign before the digits of a negative value. */
  function I64ToStr(n: int64): (s: string)
    ensures |s| >= 1
    ensures n < 0 <==> s[0] == '-'
  {
    if n < 0 then "-" + NatToStr(-(n as int)) else NatToStr(n)
  }

  /** The white-space characters of isspace in the C locale. */
  predicate IsSpace(c: char)
  {
    c == ' ' || c == '\t' || c == '\n' || c == '\r' || c as int == 11 || c as int == 12
  }

  /** The length of the longest prefix of white space. */
  function LeadingSpaces(s: string): (k: nat)
    ensures k <= |s|
    ensures forall i :: 0 <= i < k ==> IsSpace(s[i])
    ensures k < |s| ==> !IsSpace(s[k])
  {
    if |s| == 0 || !IsSpace(s[0]) then 0 else 1 + LeadingSpaces(s[1..])
  }

  /** The length of the longest prefix of digits. */
  function LeadingDigits(s: string): (k: nat)
    ensures k <= |s|
    ensures AllDigits(s[..k])
    ensures k < |s| ==> !IsDigit(s[k])
  {
    if |s| == 0 || !IsDigit(s[0]) then 0
    else
      var k := 1 + LeadingDigits(s[1..]);
      assert s[..k] == [s[0]] + s[1..][..k - 1];
      k
  }

  /**
   * atoi64 (strtoll in base 10): skip white space, read an optional sign and the
   * longest run of digits (none reads as 0), and clamp a magnitude beyond the
   * int64 range to INT64_MIN or INT64_MAX.
   */
  function Atoi64(s: string): (r: int64)
    ensures LeadingSpaces(s) == |s| ==> r == 0
    ensures r < 0 ==> LeadingSpaces(s) < |s| && s[LeadingSpaces(s)] == '-'
    ensures s == [] || !(IsSpace(s[0]) || IsDigit(s[0]) || s[0] == '-' || s[0] == '+') ==> r == 0
  {
    var t := s[LeadingSpaces(s)..];
    var negative := |t| > 0 && t[0] == '-';
    var u := if |t| > 0 && (t[0] == '-' || t[0] == '+') then t[1..] else t;
    var v := DecimalValue(u[..LeadingDigits(u)]);
    if negative then (if v > -INT64_MIN then INT64_MIN else -(v as int))
    else (if v > INT64_MAX then INT64_MAX else v)
  }

  /** All of a string of digits is its leading run of digits. */
  lemma {:induction false} LeadingDigitsOfDigits(s: string)
    requires AllDigits(s)
    ensures LeadingDigits(s) == |s|
  {
    if |s| > 0 {
      LeadingDigitsOfDigits(s[1..]);
    }
  }

  /** atoi64 reads back every int64 that i64tostr prints. */
  lemma Atoi64OfI64ToStr(n: int64)
    ensures Atoi64(I64ToStr(n)) == n
  {
    var s := I64ToStr(n);
    assert LeadingSpaces(s) == 0;
    assert s[0..] == s;
    var digits := if n < 0 then NatToStr(-(n as int)) else NatToStr(n);
    if n < 0 {
      assert s[1..] == digits;
    }
    LeadingDigitsOfDigits(digits);
    assert digits[..|digits|] == digits;
    DecimalValueOfNatToStr(if n < 0 then -(n as int) else n);
  }

  /** atoi64 reads back every value that "%u" prints. */
  lemma Atoi64OfNatToStr(n: nat)
    requires n <= INT64_MAX
    ensures Atoi64(NatToStr(n)) == n
  {
    Atoi64OfI64ToStr(n);
  }
}
