/** Decimal rendering of numbers, comma joining and Java's integer parsing
    (Integer.parseInt / Long.parseLong), as far as the model needs them. */
module Strings {
  import opened Wrappers

  predicate IsDigit(c: char) {
    '0' <= c <= '9'
  }

  predicate AllDigits(s: string) {
    forall i :: 0 <= i < |s| ==> IsDigit(s[i])
  }

  function DigitChar(d: nat): (c: char)
    requires d < 10
    ensures IsDigit(c) && c as int - '0' as int == d
  {
    (d + '0' as int) as char
  }

  function DigitValue(c: char): (d: nat)
    requires IsDigit(c)
    ensures d < 10
  {
    c as int - '0' as int
  }

  /** Decimal text of a natural number, without leading zeros (Java's
      Integer.toString for non-negative values). */
  function NatToString(n: nat): (s: string)
    ensures 1 <= |s| && AllDigits(s)
    ensures |s| > 1 ==> s[0] != '0'
    decreases n
  {
    if n < 10 then [DigitChar(n)] else NatToString(n / 10) + [DigitChar(n % 10)]
  }

  /** Java's Integer.toString / Long.toString. */
  function IntToString(i: int): (s: string)
    ensures 1 <= |s|
  {
    if i < 0 then "-" + NatToString(-i) else NatToString(i)
  }

  /** The value of a non-empty string of decimal digits (leading zeros allowed). */
  function DigitsValue(s: string): nat
    requires AllDigits(s)
    decreases |s|
  {
    if s == [] then 0 else 10 * DigitsValue(s[..|s| - 1]) + DigitValue(s[|s| - 1])
  }

  lemma {:induction false} DigitsValueOfNatToString(n: nat)
    ensures DigitsValue(NatToString(n)) == n
    decreases n
  {
    var s := NatToString(n);
    if n >= 10 {
      DigitsValueOfNatToString(n / 10);
      assert s[..|s| - 1] == NatToString(n / 10);
    }
  }

  /** Distinct numbers render as distinct text. */
  lemma NatToStringInjective(m: nat, n: nat)
    requires NatToString(m) == NatToString(n)
    ensures m == n
  {
    DigitsValueOfNatToString(m);
    DigitsValueOfNatToString(n);
  }

  /** Java's Integer.parseInt (min/max = the int range) and Long.parseLong
      (min/max = the long range) on decimal text: an optional leading '-' or
      '+', then at least one digit, and a value inside [min, max]; anything
      else raises NumberFormatException, modelled as None. */
  function ParseJavaInteger(s: string, min: int, max: int): (r: Option<int>)
    ensures r.Some? ==> min <= r.value <= max
    ensures r.Some? ==> 1 <= |s| && (IsDigit(s[0]) || s[0] == '-' || s[0] == '+')
  {
    if s == [] then None
    else
      var negative := s[0] == '-';
      var digits := if s[0] == '-' || s[0] == '+' then s[1..] else s;
      if digits == [] || !AllDigits(digits) then None
      else
        var magnitude: int := DigitsValue(digits);
        var v := if negative then -magnitude else magnitude;
        if min <= v <= max then Some(v) else None
  }

  const INT_MIN: int := -0x8000_0000
  const INT_MAX: int := 0x7fff_ffff
  const LONG_MIN: int := -0x8000_0000_0000_0000
  const LONG_MAX: int := 0x7fff_ffff_ffff_ffff

  /** Parsing inverts rendering on the whole accepted range. */
  lemma ParseIntToString(i: int, min: int, max: int)
    requires min <= i <= max
    ensures ParseJavaInteger(IntToString(i), min, max) == Some(i)
  {
    var s := IntToString(i);
    if i < 0 {
      assert s[1..] == NatToString(-i);
      DigitsValueOfNatToString(-i);
    } else {
      DigitsValueOfNatToString(i);
    }
  }

  /** Any text containing a character that is neither a digit nor a leading
      sign is rejected. */
  lemma ParseRejectsNonDigit(s: string, k: nat, min: int, max: int)
    requires k < |s| && !IsDigit(s[k])
    requires k > 0 || (s[0] != '-' && s[0] != '+')
    ensures ParseJavaInteger(s, min, max) == None
  {
    if s[0] == '-' || s[0] == '+' {
      assert s[1..][k - 1] == s[k];
    }
  }

  /** parts joined by sep, as String.join does. */
  function Join(parts: seq<string>, sep: string): (s: string)
    ensures parts == [] ==> s == ""
    ensures |parts| == 1 ==> s == parts[0]
    decreases |parts|
  {
    if parts == [] then ""
    else if |parts| == 1 then parts[0]
    else parts[0] + sep + Join(parts[1..], sep)
  }

  /** A java.util.List<String> rendered by toString: "[a, b, c]". */
  function ListToString(parts: seq<string>): string {
    "[" + Join(parts, ", ") + "]"
  }
}
