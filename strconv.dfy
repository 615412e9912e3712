/**
 * The parts of Go's strconv package that the parsing engine depends on:
 * Atoi, ParseUint in base 10, ParseBool and Itoa. Go's `int` and `uint`
 * are 64 bits wide, so the range checks are written out.
 */
module Strconv {
  import opened Wrappers

  const IntMin: int := -0x8000_0000_0000_0000
  const IntMax: int := 0x7fff_ffff_ffff_ffff
  const UintMax: int := 0xffff_ffff_ffff_ffff

  predicate IsDigit(c: char) { '0' <= c <= '9' }

  predicate AllDigits(s: string) { forall i :: 0 <= i < |s| ==> IsDigit(s[i]) }

  function DigitValue(c: char): nat
    requires IsDigit(c)
  {
    (c as int) - ('0' as int)
  }

  function DigitChar(d: nat): char
    requires d < 10
  {
    (('0' as int) + d) as char
  }

  /** The value of a string of decimal digits, most significant digit first. */
  function DecimalValue(s: string): nat
    requires AllDigits(s)
    decreases |s|
  {
    if s == [] then 0 else DecimalValue(s[..|s| - 1]) * 10 + DigitValue(s[|s| - 1])
  }

  /** The decimal rendering of a natural number, without leading zeros. */
  function NatToString(n: nat): (s: string)
    ensures |s| > 0 && AllDigits(s)
    ensures s[0] != '-' && s[0] != '+'
    decreases n
  {
    if n < 10 then [DigitChar(n)] else NatToString(n / 10) + [DigitChar(n % 10)]
  }

  /** strconv.Itoa: a leading '-' for negative numbers, then the decimal digits. */
  function Itoa(n: int): string
  {
    if n < 0 then "-" + NatToString(-n) else NatToString(n)
  }

  /**
   * strconv.Atoi: an optional '+' or '-', then at least one decimal digit and
   * nothing else; the value must fit Go's 64-bit int.
   */
  function Atoi(s: string): Maybe<int>
  {
    var negative := |s| > 0 && s[0] == '-';
    var digits := if |s| > 0 && (s[0] == '+' || s[0] == '-') then s[1..] else s;
    if digits == [] || !AllDigits(digits) then None
    else
      var v: int := if negative then -(DecimalValue(digits) as int) else DecimalValue(digits);
      if IntMin <= v <= IntMax then Some(v) else None
  }

  /** strconv.ParseUint(s, 10, 0): decimal digits only (no sign), at most 2^64 - 1. */
  function ParseUint(s: string): Maybe<nat>
  {
    if s == [] || !AllDigits(s) then None
    else if DecimalValue(s) <= UintMax then Some(DecimalValue(s))
    else None
  }

  /** strconv.ParseBool: the twelve spellings Go accepts. */
  function ParseBool(s: string): Maybe<bool>
  {
    if s in ["1", "t", "T", "TRUE", "true", "True"] then Some(true)
    else if s in ["0", "f", "F", "FALSE", "false", "False"] then Some(false)
    else None
  }

  lemma {:induction false} DecimalValueOfNatToString(n: nat)
    ensures DecimalValue(NatToString(n)) == n
    decreases n
  {
    if n >= 10 {
      DecimalValueOfNatToString(n / 10);
      var s := NatToString(n / 10) + [DigitChar(n % 10)];
      assert s[..|s| - 1] == NatToString(n / 10);
    }
  }

  /** Atoi reads back every in-range number that Itoa renders. */
  lemma AtoiOfItoa(n: int)
    requires IntMin <= n <= IntMax
    ensures Atoi(Itoa(n)) == Some(n)
  {
    if n < 0 {
      DecimalValueOfNatToString(-n);
      assert ("-" + NatToString(-n))[1..] == NatToString(-n);
    } else {
      DecimalValueOfNatToString(n);
    }
  }

  /** ParseUint reads back every in-range natural number that Itoa renders. */
  lemma ParseUintOfItoa(n: nat)
    requires n <= UintMax
    ensures ParseUint(Itoa(n)) == Some(n)
  {
    DecimalValueOfNatToString(n);
  }
}
