/** Python's `str(n)` on a non-negative int, which is how every route file mints ids,
    together with its inverse `int(s)` on canonical digit strings. */
module Decimal {

  function DigitChar(d: nat): (c: char)
    requires d < 10
    ensures '0' <= c <= '9'
  {
    ('0' as int + d) as char
  }

  function DigitValue(c: char): (d: nat)
    requires '0' <= c <= '9'
    ensures d < 10
  {
    c as int - '0' as int
  }

  predicate IsDigits(s: string) {
    forall i :: 0 <= i < |s| ==> '0' <= s[i] <= '9'
  }

  /** A string `str` can produce: non-empty digits, no leading zero unless it is "0". */
  predicate IsCanonical(s: string) {
    |s| >= 1 && IsDigits(s) && (|s| > 1 ==> s[0] != '0')
  }

  /** `str(n)` for n >= 0. */
  function NatToDecimal(n: nat): (s: string)
    ensures IsCanonical(s)
    decreases n
  {
    if n < 10 then [DigitChar(n)] else NatToDecimal(n / 10) + [DigitChar(n % 10)]
  }

  /** `int(s)` for a string of digits. */
  function DecimalToNat(s: string): nat
    requires IsDigits(s)
    decreases |s|
  {
    if |s| == 0 then 0 else 10 * DecimalToNat(s[..|s| - 1]) + DigitValue(s[|s| - 1])
  }

  /** Reading back a minted id gives the number it was minted from. */
  lemma {:induction false} DecimalRoundTrip(n: nat)
    ensures DecimalToNat(NatToDecimal(n)) == n
    decreases n
  {
    if n >= 10 {
      var s := NatToDecimal(n);
      assert s[..|s| - 1] == NatToDecimal(n / 10);
      DecimalRoundTrip(n / 10);
    }
  }

  /** Distinct numbers give distinct ids. */
  lemma NatToDecimalInjective(m: nat, n: nat)
    ensures m != n ==> NatToDecimal(m) != NatToDecimal(n)
  {
    DecimalRoundTrip(m);
    DecimalRoundTrip(n);
  }

  lemma {:induction false} LeadingDigitPositive(s: string)
    requires IsDigits(s) && |s| >= 1 && s[0] != '0'
    ensures DecimalToNat(s) >= 1
    decreases |s|
  {
    if |s| > 1 {
      LeadingDigitPositive(s[..|s| - 1]);
    }
  }

  /** Every canonical digit string is minted by exactly the number it denotes, so a
      lookup by a non-canonical string (such as "01" or "") never meets a minted id. */
  lemma {:induction false} CanonicalRoundTrip(s: string)
    requires IsCanonical(s)
    ensures NatToDecimal(DecimalToNat(s)) == s
    decreases |s|
  {
    if |s| > 1 {
      var p := s[..|s| - 1];
      assert IsCanonical(p);
      LeadingDigitPositive(p);
      CanonicalRoundTrip(p);
      var n := DecimalToNat(s);
      assert n / 10 == DecimalToNat(p) && n % 10 == DigitValue(s[|s| - 1]);
      assert s == p + [s[|s| - 1]];
    }
  }
}
