/** Decimal text of non-negative integers, as JavaScript's String(n) writes
    them for the counters the engine bridge and the kifu formatter print,
    and its inverse. */
module Decimal {

  predicate IsDigit(ch: char) {
    '0' <= ch <= '9'
  }

  function DigitChar(d: int): (ch: char)
    requires 0 <= d <= 9
    ensures IsDigit(ch)
  {
    (('0' as int) + d) as char
  }

  function DigitValue(ch: char): (d: int)
    requires IsDigit(ch)
    ensures 0 <= d <= 9
  {
    (ch as int) - ('0' as int)
  }

  lemma DigitRoundTrip(d: int)
    requires 0 <= d <= 9
    ensures DigitValue(DigitChar(d)) == d
  {
  }

  /** String(n) for a non-negative integer: no leading zeros. */
  function NatToString(n: nat): string
  {
    if n < 10 then [DigitChar(n)] else NatToString(n / 10) + [DigitChar(n % 10)]
  }

  predicate AllDigits(s: string) {
    forall i :: 0 <= i < |s| ==> IsDigit(s[i])
  }

  /** The value of a string of digits. */
  function DigitsValue(s: string): nat
    requires AllDigits(s)
  {
    if s == [] then 0 else DigitsValue(s[..|s| - 1]) * 10 + DigitValue(s[|s| - 1])
  }

  /** NatToString writes a non-empty run of digits, no longer than one
      character below 10, with no leading zero beyond "0" itself. */
  lemma {:induction false} NatToStringShape(n: nat)
    ensures |NatToString(n)| >= 1 && AllDigits(NatToString(n))
    ensures n < 10 <==> |NatToString(n)| == 1
    ensures n >= 10 ==> NatToString(n)[0] != '0'
  {
    if n >= 10 {
      NatToStringShape(n / 10);
      assert NatToString(n)[0] == NatToString(n / 10)[0];
    }
  }

  /** Reading back the digits gives the number. */
  lemma {:induction false} NatToStringRoundTrip(n: nat)
    ensures AllDigits(NatToString(n)) && DigitsValue(NatToString(n)) == n
  {
    NatToStringShape(n);
    var s := NatToString(n);
    if n >= 10 {
      NatToStringRoundTrip(n / 10);
      assert s[..|s| - 1] == NatToString(n / 10);
      DigitRoundTrip(n % 10);
    } else {
      DigitRoundTrip(n);
    }
  }

  /** NatToString is one-to-one. */
  lemma NatToStringInjective(m: nat, n: nat)
    requires NatToString(m) == NatToString(n)
    ensures m == n
  {
    NatToStringRoundTrip(m);
    NatToStringRoundTrip(n);
  }

  /** The length of the run of digits that starts s. */
  function LeadingDigits(s: string): (k: nat)
    ensures k <= |s| && AllDigits(s[..k]) && (k < |s| ==> !IsDigit(s[k]))
  {
    if s == [] || !IsDigit(s[0]) then 0
    else
      var k := 1 + LeadingDigits(s[1..]);
      assert s[..k] == [s[0]] + s[1..][..k - 1];
      k
  }

  /** A number written in front of text that does not start with a digit
      is read back whole, and the text after it is what follows. */
  lemma {:induction false} LeadingNumber(n: nat, rest: string)
    requires rest == [] || !IsDigit(rest[0])
    ensures var s := NatToString(n) + rest;
      && LeadingDigits(s) == |NatToString(n)|
      && s[..LeadingDigits(s)] == NatToString(n)
      && s[LeadingDigits(s)..] == rest
      && DigitsValue(s[..LeadingDigits(s)]) == n
  {
    NatToStringRoundTrip(n);
    LeadingDigitsOfRun(NatToString(n), rest);
  }

  lemma {:induction false} LeadingDigitsOfRun(d: string, rest: string)
    requires AllDigits(d) && (rest == [] || !IsDigit(rest[0]))
    ensures LeadingDigits(d + rest) == |d|
    decreases |d|
  {
    if d == [] {
      assert d + rest == rest;
    } else {
      assert (d + rest)[1..] == d[1..] + rest;
      LeadingDigitsOfRun(d[1..], rest);
    }
  }
}
