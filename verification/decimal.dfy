/**
 Decimal rendering of natural numbers, as Python's `str()` produces it for a
 non-negative `int`, together with its inverse. The batch converter builds
 sheet identifiers with it, and the inverse is what shows that two different
 file positions never share an identifier.
 */
module Decimal {

  predicate IsDigit(c: char) {
    '0' <= c <= '9'
  }

  predicate AllDigits(s: string) {
    forall k :: 0 <= k < |s| ==> IsDigit(s[k])
  }

  /** A canonical decimal numeral: non-empty, digits only, no leading zero
      unless the numeral is "0" itself. */
  predicate Canonical(s: string) {
    && 1 <= |s|
    && AllDigits(s)
    && (s[0] == '0' ==> |s| == 1)
  }

  function DigitChar(d: nat): (c: char)
    requires d < 10
    ensures IsDigit(c)
    ensures c as int - '0' as int == d
  {
    ('0' as int + d) as char
  }

  function DigitValue(c: char): (d: nat)
    requires IsDigit(c)
    ensures d < 10
    ensures DigitChar(d) == c
  {
    c as int - '0' as int
  }

  /** `str(n)` for a non-negative integer `n`. */
  function NatToString(n: nat): (s: string)
    ensures Canonical(s)
    ensures n < 10 <==> |s| == 1
    decreases n
  {
    if n < 10 then [DigitChar(n)] else NatToString(n / 10) + [DigitChar(n % 10)]
  }

  /** The value of a string of decimal digits (0 for the empty string). */
  function StringToNat(s: string): nat
    requires AllDigits(s)
    decreases |s|
  {
    if |s| == 0 then 0 else 10 * StringToNat(s[..|s| - 1]) + DigitValue(s[|s| - 1])
  }

  /** Reading back a rendered number gives the number. */
  lemma {:induction false} StringToNatOfNatToString(n: nat)
    ensures StringToNat(NatToString(n)) == n
    decreases n
  {
    var s := NatToString(n);
    if n >= 10 {
      assert s[..|s| - 1] == NatToString(n / 10);
      StringToNatOfNatToString(n / 10);
    }
  }

  /** A numeral whose first digit is not '0' denotes a positive number. */
  lemma {:induction false} LeadingNonZeroIsPositive(s: string)
    requires 1 <= |s| && AllDigits(s) && s[0] != '0'
    ensures StringToNat(s) >= 1
    decreases |s|
  {
    if |s| > 1 {
      var p := s[..|s| - 1];
      assert p[0] == s[0];
      LeadingNonZeroIsPositive(p);
    }
  }

  /** Rendering the value of a canonical numeral gives the numeral back. */
  lemma {:induction false} NatToStringOfStringToNat(s: string)
    requires Canonical(s)
    ensures NatToString(StringToNat(s)) == s
    decreases |s|
  {
    if |s| > 1 {
      var p := s[..|s| - 1];
      var d := DigitValue(s[|s| - 1]);
      assert p[0] == s[0];
      NatToStringOfStringToNat(p);
      LeadingNonZeroIsPositive(p);
      var m := StringToNat(p);
      assert StringToNat(s) == 10 * m + d;
      assert (10 * m + d) / 10 == m && (10 * m + d) % 10 == d;
      assert s == p + [s[|s| - 1]];
    }
  }

  /** Distinct numbers have distinct renderings. */
  lemma NatToStringInjective(a: nat, b: nat)
    ensures NatToString(a) == NatToString(b) <==> a == b
  {
    StringToNatOfNatToString(a);
    StringToNatOfNatToString(b);
  }
}
