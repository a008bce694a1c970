/**
 * Strings as PHP renders and normalises them: `strtolower`, `(string)` of an
 * integer, and zero-padded decimal fields.
 */
module Text {

  predicate IsUpper(c: char) { 'A' <= c <= 'Z' }

  predicate IsDigit(c: char) { '0' <= c <= '9' }

  predicate AllDigits(s: string) { forall i :: 0 <= i < |s| ==> IsDigit(s[i]) }

  /** PHP 8.2+ `strtolower` on one byte: only the ASCII letters A-Z change. */
  function LowerChar(c: char): (r: char)
    ensures !IsUpper(r)
    ensures IsUpper(c) ==> r as int == c as int + 32
    ensures !IsUpper(c) ==> r == c
  {
    if IsUpper(c) then (c as int + 32) as char else c
  }

  /** PHP 8.2+ `strtolower`. */
  function Lower(s: string): string
  {
    if s == [] then [] else [LowerChar(s[0])] + Lower(s[1..])
  }

  lemma {:induction false} LowerAt(s: string)
    ensures |Lower(s)| == |s|
    ensures forall i :: 0 <= i < |s| ==> Lower(s)[i] == LowerChar(s[i])
  {
    if s != [] {
      LowerAt(s[1..]);
      assert forall i :: 1 <= i < |s| ==> Lower(s)[i] == Lower(s[1..])[i - 1];
    }
  }

  /** Two strings lower-case to the same string exactly when they differ only in ASCII letter case. */
  lemma {:induction false} LowerEqualIff(a: string, b: string)
    ensures Lower(a) == Lower(b) <==>
      |a| == |b| && forall i :: 0 <= i < |a| ==> LowerChar(a[i]) == LowerChar(b[i])
  {
    LowerAt(a);
    LowerAt(b);
    if Lower(a) == Lower(b) {
      forall i | 0 <= i < |a| ensures LowerChar(a[i]) == LowerChar(b[i]) {
        assert Lower(a)[i] == Lower(b)[i];
      }
    }
    if |a| == |b| && forall i :: 0 <= i < |a| ==> LowerChar(a[i]) == LowerChar(b[i]) {
      assert forall i :: 0 <= i < |a| ==> Lower(a)[i] == Lower(b)[i];
    }
  }

  /** Lower-casing is idempotent. */
  lemma {:induction false} LowerIdempotent(s: string)
    ensures Lower(Lower(s)) == Lower(s)
  {
    LowerAt(s);
    LowerAt(Lower(s));
    assert forall i :: 0 <= i < |s| ==> Lower(Lower(s))[i] == Lower(s)[i];
  }

  /** A string without upper-case ASCII letters is its own lower-case form. */
  lemma {:induction false} LowerFixes(s: string)
    requires forall i :: 0 <= i < |s| ==> !IsUpper(s[i])
    ensures Lower(s) == s
  {
    if s != [] {
      LowerFixes(s[1..]);
    }
  }

  function DigitChar(d: nat): (c: char)
    requires d < 10
    ensures IsDigit(c) && c as int - '0' as int == d
  {
    ('0' as int + d) as char
  }

  /** The decimal digits of `n`, most significant first, without leading zeros. */
  function NatToDecimal(n: nat): (r: string)
    ensures 1 <= |r| && AllDigits(r)
    ensures n >= 10 ==> r[0] != '0'
  {
    if n < 10 then [DigitChar(n)] else NatToDecimal(n / 10) + [DigitChar(n % 10)]
  }

  /** PHP's `(string) $n` for an integer `n`. */
  function IntToDecimal(n: int): string
  {
    if n < 0 then "-" + NatToDecimal(-n) else NatToDecimal(n)
  }

  /** The number a string of decimal digits denotes. */
  function DigitsValue(s: string): nat
    requires AllDigits(s)
  {
    if s == [] then 0 else DigitsValue(s[..|s| - 1]) * 10 + (s[|s| - 1] as int - '0' as int)
  }

  lemma {:induction false} DecimalRoundTrip(n: nat)
    ensures DigitsValue(NatToDecimal(n)) == n
  {
    if n >= 10 {
      var r := NatToDecimal(n);
      assert r[..|r| - 1] == NatToDecimal(n / 10);
      DecimalRoundTrip(n / 10);
    }
  }

  function Pow10(k: nat): (r: nat)
    ensures r >= 1
  {
    if k == 0 then 1 else 10 * Pow10(k - 1)
  }

  /** A number below 10^w has at most w decimal digits. */
  lemma {:induction false} DecimalWidth(n: nat, w: nat)
    requires 1 <= w && n < Pow10(w)
    ensures |NatToDecimal(n)| <= w
  {
    if n >= 10 {
      DecimalWidth(n / 10, w - 1);
    }
  }

  /** `s` left-padded with '0' to at least `w` characters (PHP's `str_pad(s, w, '0', STR_PAD_LEFT)`). */
  function PadLeft(s: string, w: nat): (r: string)
    ensures |r| == if |s| >= w then |s| else w
    ensures AllDigits(s) ==> AllDigits(r)
    decreases w - |s|
  {
    if |s| >= w then s else PadLeft(['0'] + s, w)
  }

  /** Leading zeros do not change the value a string of digits denotes. */
  lemma {:induction false} LeadingZero(s: string)
    requires AllDigits(s)
    ensures AllDigits(['0'] + s) && DigitsValue(['0'] + s) == DigitsValue(s)
  {
    if s != [] {
      assert (['0'] + s)[..|s|] == ['0'] + s[..|s| - 1];
      LeadingZero(s[..|s| - 1]);
    }
  }

  lemma {:induction false} PadLeftValue(s: string, w: nat)
    requires AllDigits(s)
    ensures DigitsValue(PadLeft(s, w)) == DigitsValue(s)
    decreases w - |s|
  {
    if |s| < w {
      LeadingZero(s);
      PadLeftValue(['0'] + s, w);
    }
  }

  /** A zero-padded field of width `w` reads back as the number it renders. */
  lemma PaddedRoundTrip(n: nat, w: nat)
    requires 1 <= w && n < Pow10(w)
    ensures |PadLeft(NatToDecimal(n), w)| == w
    ensures AllDigits(PadLeft(NatToDecimal(n), w))
    ensures DigitsValue(PadLeft(NatToDecimal(n), w)) == n
  {
    DecimalWidth(n, w);
    PadLeftValue(NatToDecimal(n), w);
    DecimalRoundTrip(n);
  }
}
