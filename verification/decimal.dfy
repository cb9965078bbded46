/** Base-10 rendering of integers as Go's `strconv.FormatInt(i, 10)` and the
    `%d` verb of `fmt` write them: an optional minus sign followed by the digits
    of the magnitude, no leading zeros, no plus sign. `ParseInt` is the inverse
    used to show that no information is lost. */
module Decimal {
  import opened Basics

  predicate IsDigit(c: char) {
    '0' <= c <= '9'
  }

  predicate AllDigits(s: string) {
    forall k :: 0 <= k < |s| ==> IsDigit(s[k])
  }

  function DigitValue(c: char): (d: nat)
    requires IsDigit(c)
    ensures d < 10
  {
    (c as int) - ('0' as int)
  }

  function DigitChar(d: nat): (c: char)
    requires d < 10
    ensures IsDigit(c) && DigitValue(c) == d
  {
    (('0' as int) + d) as char
  }

  /** Digits of a natural number, most significant first. */
  function FromNat(n: nat): (s: string)
    ensures |s| >= 1
    ensures AllDigits(s)
    ensures |s| > 1 ==> s[0] != '0'
    decreases n
  {
    if n < 10 then [DigitChar(n)] else FromNat(n / 10) + [DigitChar(n % 10)]
  }

  /** The digits `FormatInt` writes for a magnitude: at least one digit and
      no leading zero unless the number is zero. */
  predicate CanonicalDigits(s: string) {
    |s| >= 1 && AllDigits(s) && (|s| > 1 ==> s[0] != '0')
  }

  /** The shape `FormatInt` writes: canonical digits, optionally preceded by
      a minus sign, which only ever stands in front of a non-zero magnitude. */
  predicate Canonical(s: string) {
    CanonicalDigits(s) || (|s| >= 2 && s[0] == '-' && CanonicalDigits(s[1..]) && s[1] != '0')
  }

  /** `strconv.FormatInt(i, 10)`. */
  function FromInt(i: int): (s: string)
    ensures |s| >= 1
    ensures i < 0 <==> s[0] == '-'
    ensures i >= 0 && |s| > 1 ==> s[0] != '0'
    ensures i < 0 ==> |s| > 1 && s[1] != '0'
    ensures forall k :: (if i < 0 then 1 else 0) <= k < |s| ==> IsDigit(s[k])
  {
    if i < 0 then
      assert ("-" + FromNat(-i))[1..] == FromNat(-i);
      "-" + FromNat(-i)
    else FromNat(i)
  }

  /** Value of a run of digits, most significant first; the empty run is 0. */
  function ParseNat(s: string): nat
    requires AllDigits(s)
    decreases |s|
  {
    if |s| == 0 then 0 else ParseNat(s[..|s| - 1]) * 10 + DigitValue(s[|s| - 1])
  }

  /** Reads back what `FromInt` writes: an optional minus sign and at least
      one digit; anything else is rejected. */
  function ParseInt(s: string): (r: Option<int>) {
    if |s| > 1 && s[0] == '-' && AllDigits(s[1..]) then Some(0 - ParseNat(s[1..]) as int)
    else if |s| > 0 && AllDigits(s) then Some(ParseNat(s))
    else None
  }

  lemma {:induction false} NatRoundTrip(n: nat)
    ensures ParseNat(FromNat(n)) == n
    decreases n
  {
    if n >= 10 {
      var s := FromNat(n);
      assert s[..|s| - 1] == FromNat(n / 10);
      NatRoundTrip(n / 10);
    }
  }

  /** How `ParseInt` reads a minus sign followed by digits. */
  lemma ParseNegative(d: string)
    requires |d| >= 1 && AllDigits(d)
    ensures ParseInt("-" + d) == Some(0 - ParseNat(d) as int)
  {
  }

  /** How `ParseInt` reads a run of digits without a sign. */
  lemma ParseDigits(d: string)
    requires |d| >= 1 && AllDigits(d)
    ensures ParseInt(d) == Some(ParseNat(d))
  {
  }

  lemma IntRoundTrip(i: int)
    ensures ParseInt(FromInt(i)) == Some(i)
  {
    if i < 0 {
      var d := FromNat(-i);
      NatRoundTrip(-i);
      ParseNegative(d);
      assert FromInt(i) == "-" + d;
    } else {
      var d := FromNat(i);
      NatRoundTrip(i);
      ParseDigits(d);
      assert FromInt(i) == d;
    }
  }

  /** A run of digits that is all zeros reads as zero and nothing else does. */
  lemma {:induction false} ZeroDigits(s: string)
    requires AllDigits(s) && |s| > 0 && s[0] != '0'
    ensures ParseNat(s) > 0
    decreases |s|
  {
    if |s| > 1 {
      ZeroDigits(s[..|s| - 1]);
    }
  }

  /** Canonical digits are exactly what `FromNat` writes for their value. */
  lemma {:induction false} NatCanonical(s: string)
    requires CanonicalDigits(s)
    ensures FromNat(ParseNat(s)) == s
    decreases |s|
  {
    if |s| > 1 {
      var front := s[..|s| - 1];
      ZeroDigits(front);
      NatCanonical(front);
      var n := ParseNat(s);
      assert n / 10 == ParseNat(front) && n % 10 == DigitValue(s[|s| - 1]);
      assert FromNat(n) == FromNat(n / 10) + [DigitChar(n % 10)];
      assert s == front + [s[|s| - 1]];
    }
  }

  /** `FromInt` writes the canonical form. */
  lemma FromIntCanonical(i: int)
    ensures Canonical(FromInt(i))
  {
  }

  /** `FromInt` is the only canonical spelling of each integer: every
      canonical string is what `FromInt` writes for the value it reads as. */
  lemma CanonicalUnique(s: string)
    requires Canonical(s)
    ensures ParseInt(s).Some? && FromInt(ParseInt(s).value) == s
  {
    if CanonicalDigits(s) {
      NatCanonical(s);
    } else {
      NatCanonical(s[1..]);
      ZeroDigits(s[1..]);
      assert s == "-" + s[1..];
    }
  }

  /** Distinct integers are written differently. */
  lemma FromIntInjective(i: int, j: int)
    requires FromInt(i) == FromInt(j)
    ensures i == j
  {
    IntRoundTrip(i);
    IntRoundTrip(j);
  }
}
