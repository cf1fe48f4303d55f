/** ASCII decimal digits: the value of a digit string read left to right,
    and the digit string of a natural number (what `int.ToString()` prints
    for a non-negative value). */
module Decimal {

  /** The largest value of a 32-bit signed C# `int` (`int.MaxValue`). */
  const MaxInt32: int := 0x7fff_ffff

  predicate IsDigit(c: char) {
    '0' <= c <= '9'
  }

  predicate AllDigits(s: string) {
    forall k | 0 <= k < |s| :: IsDigit(s[k])
  }

  function DigitValue(c: char): (d: nat)
    requires IsDigit(c)
    ensures d < 10
  {
    c as int - '0' as int
  }

  function DigitChar(d: nat): (c: char)
    requires d < 10
    ensures IsDigit(c) && DigitValue(c) == d
  {
    ('0' as int + d) as char
  }

  /** The value of a digit string, accumulated from the left in base 10:
      the value of all digits but the last, times ten, plus the last. */
  function DecimalValue(s: string): nat
    requires AllDigits(s)
  {
    if s == [] then 0
    else DecimalValue(s[..|s| - 1]) * 10 + DigitValue(s[|s| - 1])
  }

  /** The shortest decimal spelling of `n` (no sign, no leading zero). */
  function NatToString(n: nat): (s: string)
    ensures |s| > 0 && AllDigits(s)
    ensures DecimalValue(s) == n
    ensures s[0] != '0' || n == 0
  {
    if n < 10 then [DigitChar(n)]
    else
      var init := NatToString(n / 10);
      var s := init + [DigitChar(n % 10)];
      assert s[..|s| - 1] == init;
      s
  }

  /** A digit string is worth at least as much as any of its prefixes. */
  lemma {:induction false} PrefixValueLe(s: string, k: nat)
    requires AllDigits(s) && k <= |s|
    ensures AllDigits(s[..k])
    ensures DecimalValue(s[..k]) <= DecimalValue(s)
  {
    if k < |s| {
      var init := s[..|s| - 1];
      assert init[..k] == s[..k];
      PrefixValueLe(init, k);
    } else {
      assert s[..k] == s;
    }
  }
}
