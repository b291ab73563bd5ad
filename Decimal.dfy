/**
 * Decimal text as the C library writes and reads it: `snprintf("%d")` for
 * the numbers the application formats and `atoi` for the port it parses.
 */
module Decimal {

  predicate IsDigit(c: char)
  {
    '0' <= c <= '9'
  }

  predicate AllDigits(s: string)
  {
    forall k :: 0 <= k < |s| ==> IsDigit(s[k])
  }

  function DigitChar(d: nat): (c: char)
    requires d < 10
    ensures IsDigit(c)
  {
    ('0' as int + d) as char
  }

  function DigitValue(c: char): (d: nat)
    requires IsDigit(c)
    ensures d < 10
  {
    c as int - '0' as int
  }

  /** The text `%d` prints for a non-negative number: digits only, no leading zero. */
  function NatToString(n: nat): (s: string)
    ensures |s| >= 1 && AllDigits(s)
    ensures |s| > 1 ==> s[0] != '0'
    ensures |s| == 1 <==> n < 10
    decreases n
  {
    if n < 10 then [DigitChar(n)] else NatToString(n / 10) + [DigitChar(n % 10)]
  }

  /** The text `%d` prints for any integer: a minus sign before negative numbers. */
  function IntToString(x: int): (s: string)
    ensures |s| >= 1
    ensures x >= 0 ==> s == NatToString(x)
    ensures x < 0 ==> s == "-" + NatToString(-x)
  {
    if x < 0 then "-" + NatToString(-x) else NatToString(x)
  }

  /** The value of a string of decimal digits. */
  function ParseDigits(s: string): nat
    requires AllDigits(s)
  {
    if s == [] then 0 else 10 * ParseDigits(s[..|s| - 1]) + DigitValue(s[|s| - 1])
  }

  /** The longest prefix of `s` made of decimal digits: what `atoi` reads. */
  function LeadingDigits(s: string): (r: string)
    ensures AllDigits(r) && |r| <= |s| && r == s[..|r|]
    ensures |r| < |s| ==> !IsDigit(s[|r|])
  {
    if s == [] || !IsDigit(s[0]) then [] else [s[0]] + LeadingDigits(s[1..])
  }

  /**
   * `atoi` of an unsigned string (no sign, no blanks to skip): the value of
   * its leading digits, 0 when it does not start with one.
   */
  function Atoi(s: string): (n: nat)
    ensures s == [] || !IsDigit(s[0]) ==> n == 0
    ensures AllDigits(s) ==> n == ParseDigits(s)
  {
    LeadingDigitsOfDigits(s);
    ParseDigits(LeadingDigits(s))
  }

  /** A string of digits is read whole. */
  lemma LeadingDigitsOfDigits(s: string)
    ensures AllDigits(s) ==> LeadingDigits(s) == s
  {
    if AllDigits(s) {
      assert s + [] == s;
      LeadingDigitsStop(s, []);
    }
  }

  /** Reading back what `%d` printed gives the number: the two are inverse. */
  lemma {:induction false} ParseNatToString(n: nat)
    ensures ParseDigits(NatToString(n)) == n
  {
    if n >= 10 {
      var s := NatToString(n);
      assert s[..|s| - 1] == NatToString(n / 10);
      ParseNatToString(n / 10);
    }
  }

  /** `%d` prints different numbers differently. */
  lemma NatToStringInjective(m: nat, n: nat)
    ensures NatToString(m) == NatToString(n) ==> m == n
  {
    ParseNatToString(m);
    ParseNatToString(n);
  }

  /** `atoi` stops at the first character that is not a digit. */
  lemma {:induction false} LeadingDigitsStop(s: string, rest: string)
    requires AllDigits(s)
    requires rest == [] || !IsDigit(rest[0])
    ensures LeadingDigits(s + rest) == s
  {
    if s != [] {
      assert (s + rest)[1..] == s[1..] + rest;
      LeadingDigitsStop(s[1..], rest);
    }
  }

  /** `atoi` undoes `%d` on non-negative numbers, whatever non-digit text follows. */
  lemma AtoiNatToString(n: nat, rest: string)
    requires rest == [] || !IsDigit(rest[0])
    ensures Atoi(NatToString(n) + rest) == n
  {
    LeadingDigitsStop(NatToString(n), rest);
    ParseNatToString(n);
  }
}
