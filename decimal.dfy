/**
 * Decimal rendering of natural numbers, as an f-string prints an `int`,
 * together with the reading that undoes it.
 */
module Decimal {
  import opened Wrappers

  predicate IsDigit(c: char) {
    '0' <= c <= '9'
  }

  predicate AllDigits(s: string) {
    forall i :: 0 <= i < |s| ==> IsDigit(s[i])
  }

  function DigitChar(d: nat): (c: char)
    requires d < 10
    ensures IsDigit(c) && (c as int) - ('0' as int) == d
  {
    (('0' as int) + d) as char
  }

  function DigitValue(c: char): (d: nat)
    requires IsDigit(c)
  {
    (c as int) - ('0' as int)
  }

  /** The decimal digits of `n`, most significant first, as `f"{n}"` prints them. */
  function NatToString(n: nat): (s: string)
    ensures |s| >= 1 && AllDigits(s)
    ensures s[0] == '0' ==> n == 0 && s == "0"
  {
    if n < 10 then [DigitChar(n)] else NatToString(n / 10) + [DigitChar(n % 10)]
  }

  /** The number a string of decimal digits denotes. */
  function StringToNat(s: string): (n: nat)
    requires AllDigits(s)
  {
    if s == [] then 0 else StringToNat(s[..|s| - 1]) * 10 + DigitValue(s[|s| - 1])
  }

  lemma {:induction false} StringToNatInverse(n: nat)
    ensures StringToNat(NatToString(n)) == n
  {
    if n >= 10 {
      var s := NatToString(n);
      assert s[..|s| - 1] == NatToString(n / 10);
      StringToNatInverse(n / 10);
    }
  }

  /** The length of the longest prefix of `s` made of decimal digits. */
  function LeadingDigits(s: string): (k: nat)
    ensures k <= |s| && AllDigits(s[..k])
    ensures k < |s| ==> !IsDigit(s[k])
  {
    if s == [] || !IsDigit(s[0]) then 0 else 1 + LeadingDigits(s[1..])
  }

  lemma {:induction false} LeadingDigitsOfNumber(d: string, rest: string)
    requires AllDigits(d)
    requires rest == [] || !IsDigit(rest[0])
    ensures LeadingDigits(d + rest) == |d|
  {
    if d != [] {
      assert (d + rest)[1..] == d[1..] + rest;
      LeadingDigitsOfNumber(d[1..], rest);
    }
  }

  /** Splits a leading decimal number off `s`; `None` when `s` does not start with a digit. */
  function SplitNumber(s: string): (r: Option<(nat, string)>)
    ensures r.Some? ==> |r.value.1| < |s|
  {
    var k := LeadingDigits(s);
    if k == 0 then None else Some((StringToNat(s[..k]), s[k..]))
  }

  /** Reads a number followed by the fixed text `sep`, giving the number and what follows `sep`. */
  function ReadNumberThen(s: string, sep: string): (r: Option<(nat, string)>)
    ensures r.Some? ==> |r.value.1| < |s|
  {
    match SplitNumber(s)
    case None => None
    case Some((n, t)) => if sep <= t then Some((n, t[|sep|..])) else None
  }

  /** A number followed by a text that does not start with a digit is split off whole. */
  lemma SplitRenderedNumber(n: nat, rest: string)
    requires rest != [] && !IsDigit(rest[0])
    ensures SplitNumber(NatToString(n) + rest) == Some((n, rest))
  {
    var digits := NatToString(n);
    LeadingDigitsOfNumber(digits, rest);
    StringToNatInverse(n);
    assert (digits + rest)[..|digits|] == digits;
    assert (digits + rest)[|digits|..] == rest;
  }

  /** A printed number, a separator that does not start with a digit, and any rest read back as the number and the rest. */
  lemma ReadRenderedNumberThen(n: nat, sep: string, rest: string)
    requires sep != [] && !IsDigit(sep[0])
    ensures ReadNumberThen(NatToString(n) + sep + rest, sep) == Some((n, rest))
  {
    assert NatToString(n) + sep + rest == NatToString(n) + (sep + rest);
    SplitRenderedNumber(n, sep + rest);
    assert sep <= sep + rest;
    assert (sep + rest)[|sep|..] == rest;
  }
}
