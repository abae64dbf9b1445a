/** Decimal digit strings: the fixed-width fields that `strftime` writes and
    `strptime` reads, and the minimal form Python's `str()` gives an integer. */
module Decimal {

  predicate IsDigit(c: char) {
    '0' <= c <= '9'
  }

  predicate AllDigits(s: string) {
    forall i :: 0 <= i < |s| ==> IsDigit(s[i])
  }

  function DigitValue(c: char): nat
    requires IsDigit(c)
  {
    c as int - '0' as int
  }

  function DigitChar(d: nat): (c: char)
    requires d < 10
    ensures IsDigit(c) && DigitValue(c) == d
  {
    ('0' as int + d) as char
  }

  function Pow10(n: nat): (p: nat)
    ensures p >= 1
  {
    if n == 0 then 1 else 10 * Pow10(n - 1)
  }

  /** The number a digit string denotes, most significant digit first
      (leading zeros allowed, as `int()` allows them). */
  function Value(s: string): nat
    requires AllDigits(s)
  {
    if s == [] then 0 else Value(s[..|s| - 1]) * 10 + DigitValue(s[|s| - 1])
  }

  /** The last `w` decimal digits of `n`, padded on the left with zeros:
      the `%0wd` conversion behind `%Y`, `%m`, `%d`, `%H`, `%M`, `%S`, `%f`. */
  function Padded(n: nat, w: nat): (s: string)
    ensures |s| == w && AllDigits(s)
  {
    if w == 0 then [] else Padded(n / 10, w - 1) + [DigitChar(n % 10)]
  }

  lemma ValueSnoc(s: string, c: char)
    requires AllDigits(s) && IsDigit(c)
    ensures AllDigits(s + [c]) && Value(s + [c]) == Value(s) * 10 + DigitValue(c)
  {
    assert (s + [c])[..|s|] == s;
  }

  /** Reading back a padded field gives the number, when it fits the width. */
  lemma {:induction false} ValueOfPadded(n: nat, w: nat)
    requires n < Pow10(w)
    ensures Value(Padded(n, w)) == n
  {
    if w > 0 {
      ValueOfPadded(n / 10, w - 1);
      ValueSnoc(Padded(n / 10, w - 1), DigitChar(n % 10));
    }
  }

  /** Re-padding the value of a digit string to its own width gives the string back. */
  lemma {:induction false} PaddedOfValue(s: string)
    requires AllDigits(s)
    ensures Padded(Value(s), |s|) == s
  {
    if s != [] {
      var init := s[..|s| - 1];
      var last := s[|s| - 1];
      PaddedOfValue(init);
      var v := Value(s);
      assert v == Value(init) * 10 + DigitValue(last);
      assert v / 10 == Value(init) && v % 10 == DigitValue(last);
      assert DigitChar(v % 10) == last;
      assert init + [last] == s;
    }
  }

  /** Python's `str()` of a non-negative integer: its digits, no leading zero. */
  function NatToString(n: nat): (s: string)
    ensures |s| >= 1 && AllDigits(s) && Value(s) == n
    ensures s[0] == '0' ==> s == "0"
  {
    if n < 10 then [DigitChar(n)]
    else
      var prefix := NatToString(n / 10);
      ValueSnoc(prefix, DigitChar(n % 10));
      prefix + [DigitChar(n % 10)]
  }

  /** Python's `str()` of an integer: a minus sign for negatives, then the digits. */
  function IntToString(i: int): (s: string)
    ensures |s| >= 1
    ensures (i < 0) <==> s[0] == '-'
    ensures var digits := if i < 0 then s[1..] else s;
      && |digits| >= 1 && AllDigits(digits) && Value(digits) == (if i < 0 then -i else i)
      && (digits[0] == '0' ==> digits == "0")
  {
    if i < 0 then "-" + NatToString(-i) else NatToString(i)
  }
}
