/** Decimal rendering of non-negative integers, as Rust's `{}` formatting
    prints an integer that is known to be non-negative: no sign, no leading
    zeros. `DigitsValue` reads a digit string back, and the two lemmas at
    the end show that rendering is a bijection onto canonical digit strings. */
module Decimal {

  predicate IsDigit(c: char) {
    '0' <= c <= '9'
  }

  predicate IsDigits(s: string) {
    forall i :: 0 <= i < |s| ==> IsDigit(s[i])
  }

  /** A digit string as `{}` prints it: non-empty, and starting with '0'
      only when it is "0" itself. */
  predicate IsCanonical(s: string) {
    && |s| > 0
    && IsDigits(s)
    && (s[0] == '0' ==> |s| == 1)
  }

  function DigitValue(c: char): (k: nat)
    requires IsDigit(c)
    ensures k < 10
  {
    c as int - '0' as int
  }

  function DigitChar(k: nat): (c: char)
    requires k < 10
    ensures IsDigit(c) && DigitValue(c) == k
  {
    ('0' as int + k) as char
  }

  /** The text `format!("{}", n)` produces for a non-negative n. */
  function NatToString(n: nat): (s: string)
    ensures IsCanonical(s)
    ensures |s| == 1 <==> n < 10
  {
    if n < 10 then [DigitChar(n)] else NatToString(n / 10) + [DigitChar(n % 10)]
  }

  /** The number a string of decimal digits denotes, most significant first. */
  function DigitsValue(s: string): nat
    requires IsDigits(s)
  {
    if s == [] then 0 else DigitsValue(s[..|s| - 1]) * 10 + DigitValue(s[|s| - 1])
  }

  /** Reading back what was rendered gives the number again. */
  lemma {:induction false} ValueOfNatToString(n: nat)
    ensures DigitsValue(NatToString(n)) == n
  {
    if n >= 10 {
      var s := NatToString(n);
      assert s[..|s| - 1] == NatToString(n / 10);
      ValueOfNatToString(n / 10);
    }
  }

  /** A digit string that does not start with '0' denotes a positive number. */
  lemma {:induction false} LeadingDigitPositive(s: string)
    requires |s| > 0 && IsDigits(s) && s[0] != '0'
    ensures DigitsValue(s) > 0
  {
    if |s| > 1 {
      LeadingDigitPositive(s[..|s| - 1]);
    }
  }

  /** Rendering the value of a canonical digit string gives the string back. */
  lemma {:induction false} NatToStringOfValue(s: string)
    requires IsCanonical(s)
    ensures NatToString(DigitsValue(s)) == s
  {
    if |s| > 1 {
      var prefix := s[..|s| - 1];
      LeadingDigitPositive(prefix);
      NatToStringOfValue(prefix);
      assert prefix + [s[|s| - 1]] == s;
    }
  }

  /** Distinct numbers render as distinct strings. */
  lemma NatToStringInjective(a: nat, b: nat)
    ensures NatToString(a) == NatToString(b) <==> a == b
  {
    if NatToString(a) == NatToString(b) {
      ValueOfNatToString(a);
      ValueOfNatToString(b);
    }
  }
}
