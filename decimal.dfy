/**
 * Python's `str` on integers: the decimal text of a number, most significant
 * digit first, with a leading '-' for a negative number. For an error without
 * a string `msg`, the error translator is proved never to disclose this text
 * of its error number.
 */
module Decimal {

  predicate IsDigit(c: char) {
    '0' <= c <= '9'
  }

  predicate AllDigits(s: string) {
    forall i :: 0 <= i < |s| ==> IsDigit(s[i])
  }

  predicate NoDigits(s: string) {
    forall i :: 0 <= i < |s| ==> !IsDigit(s[i])
  }

  lemma NoDigitsConcat(a: string, b: string)
    requires NoDigits(a) && NoDigits(b)
    ensures NoDigits(a + b)
  {
  }

  /** The digit character for a value below ten. */
  function DigitChar(d: nat): (c: char)
    requires d < 10
    ensures IsDigit(c) && c as int - '0' as int == d
  {
    ('0' as int + d) as char
  }

  /** The value of a digit character. */
  function DigitValue(c: char): (d: nat)
    requires IsDigit(c)
    ensures d < 10 && DigitChar(d) == c
  {
    c as int - '0' as int
  }

  /** The decimal text of a natural number, without leading zeros. */
  function NatText(n: nat): (s: string)
    ensures |s| > 0 && AllDigits(s)
    ensures |s| == 1 || s[0] != '0'
    decreases n
  {
    if n < 10 then [DigitChar(n)] else NatText(n / 10) + [DigitChar(n % 10)]
  }

  /** The decimal text of an integer, as Python's `str(n)` writes it. */
  function IntText(n: int): (s: string)
    ensures |s| > 0 && IsDigit(s[|s| - 1])
    ensures (s[0] == '-') == (n < 0)
  {
    if n < 0 then "-" + NatText(-n) else NatText(n)
  }

  /** The number a string of digits denotes. */
  function Value(s: string): (v: nat)
    requires AllDigits(s)
  {
    if s == [] then 0 else 10 * Value(s[..|s| - 1]) + DigitValue(s[|s| - 1])
  }

  /** `NatText` is the decimal representation: reading it back gives the number. */
  lemma {:induction false} NatTextRoundTrip(n: nat)
    ensures Value(NatText(n)) == n
    decreases n
  {
    var s := NatText(n);
    if n >= 10 {
      NatTextRoundTrip(n / 10);
      assert s[..|s| - 1] == NatText(n / 10);
    }
  }

  /** True when `needle` occurs as a contiguous piece of `hay`. */
  predicate Occurs(needle: string, hay: string) {
    exists k: nat :: k <= |hay| && OccursAt(needle, hay, k)
  }

  /** True when `needle` occurs in `hay` starting at position `k`. */
  predicate OccursAt(needle: string, hay: string, k: nat) {
    k + |needle| <= |hay| && hay[k..k + |needle|] == needle
  }

  /** A string that ends in a digit never occurs in a string without digits. */
  lemma DigitTextNotIn(needle: string, hay: string)
    requires |needle| > 0 && IsDigit(needle[|needle| - 1])
    requires NoDigits(hay)
    ensures !Occurs(needle, hay)
  {
  }
}
