/**
  Python's `str()` of an integer (decimal digits, a leading '-' for negatives)
  and the slice `s[:k]`, which the command builder uses to cut the refresh rate
  down to its first character.
 */
module Decimal {

  predicate IsDigit(c: char) {
    '0' <= c <= '9'
  }

  predicate AllDigits(s: string) {
    forall i :: 0 <= i < |s| ==> IsDigit(s[i])
  }

  function DigitChar(d: nat): (c: char)
    requires d < 10
    ensures IsDigit(c)
  {
    ('0' as int + d) as char
  }

  function DigitValue(c: char): (d: nat)
    requires IsDigit(c)
    ensures d < 10 && DigitChar(d) == c
  {
    c as int - '0' as int
  }

  /** `str(n)` for a non-negative `n`: at least one digit, and no leading zero unless `n` is 0. */
  function NatToDecimal(n: nat): (s: string)
    ensures |s| >= 1 && AllDigits(s)
    ensures s[0] == '0' <==> n == 0
    decreases n
  {
    if n < 10 then [DigitChar(n)] else NatToDecimal(n / 10) + [DigitChar(n % 10)]
  }

  /** `str(i)` for any integer: a minus sign exactly for negatives, then at least one digit. */
  function IntToDecimal(i: int): (s: string)
    ensures |s| >= 1
    ensures s[0] == '-' <==> i < 0
    ensures i >= 0 ==> AllDigits(s)
    ensures i < 0 ==> |s| >= 2 && AllDigits(s[1..])
  {
    if i < 0 then
      var s := "-" + NatToDecimal(-i);
      assert s[1..] == NatToDecimal(-i);
      s
    else
      NatToDecimal(i)
  }

  /** The number a string of digits denotes; the partner of `NatToDecimal`. */
  function DecimalValue(s: string): nat
    requires AllDigits(s)
  {
    if s == [] then 0 else DecimalValue(s[..|s| - 1]) * 10 + DigitValue(s[|s| - 1])
  }

  /** A digit string in the form `str()` produces: non-empty, no superfluous leading zero. */
  predicate Canonical(s: string) {
    |s| >= 1 && AllDigits(s) && (s[0] == '0' ==> |s| == 1)
  }

  /** Reading back what `str()` wrote gives the number. */
  lemma {:induction false} DecimalRoundTrip(n: nat)
    ensures DecimalValue(NatToDecimal(n)) == n
  {
    if n >= 10 {
      var s := NatToDecimal(n);
      assert s[..|s| - 1] == NatToDecimal(n / 10);
      DecimalRoundTrip(n / 10);
    }
  }

  /** Every canonical digit string is what `str()` writes for its value. */
  lemma {:induction false} DecimalRoundTripBack(s: string)
    requires Canonical(s)
    ensures NatToDecimal(DecimalValue(s)) == s
    decreases |s|
  {
    if |s| > 1 {
      var init := s[..|s| - 1];
      assert init[0] == s[0];
      DecimalRoundTripBack(init);
      var n := DecimalValue(s);
      DecimalLowerBound(init);
      assert n / 10 == DecimalValue(init) && n % 10 == DigitValue(s[|s| - 1]);
      assert s == init + [s[|s| - 1]];
    }
  }

  /** A canonical string of two or more digits denotes a number of at least 10. */
  lemma {:induction false} DecimalLowerBound(s: string)
    requires Canonical(s) && |s| >= 1 && s[0] != '0'
    ensures DecimalValue(s) >= 1
    decreases |s|
  {
    if |s| > 1 {
      var init := s[..|s| - 1];
      assert init[0] == s[0];
      DecimalLowerBound(init);
    } else {
      assert s == [s[0]];
    }
  }

  /** The digits `str(i)` writes after the sign denote the magnitude of `i`. */
  lemma IntToDecimalValue(i: int)
    ensures i >= 0 ==> DecimalValue(IntToDecimal(i)) == i
    ensures i < 0 ==> DecimalValue(IntToDecimal(i)[1..]) == -i
  {
    if i < 0 {
      DecimalRoundTrip(-i);
      assert IntToDecimal(i)[1..] == NatToDecimal(-i);
    } else {
      DecimalRoundTrip(i);
    }
  }

  /** The most significant decimal digit of `n`. */
  function LeadingDigit(n: nat): (d: nat)
    ensures d < 10 && (d == 0 <==> n == 0)
    decreases n
  {
    if n < 10 then n else LeadingDigit(n / 10)
  }

  /** The first character `str()` writes is the most significant digit. */
  lemma {:induction false} FirstCharIsLeadingDigit(n: nat)
    ensures NatToDecimal(n)[0] == DigitChar(LeadingDigit(n))
    decreases n
  {
    if n >= 10 {
      FirstCharIsLeadingDigit(n / 10);
    }
  }

  /** Python's slice `s[:k]` for a non-negative `k`: the first `k` characters, or all of `s` if it is shorter. */
  function SlicePrefix(s: string, k: nat): (r: string)
    ensures |r| == if k <= |s| then k else |s|
    ensures r <= s
  {
    if k <= |s| then s[..k] else s
  }
}
