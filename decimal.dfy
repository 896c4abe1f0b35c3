/** Decimal rendering of line numbers, as Ruby's string interpolation
    (`"#{n}"`, i.e. `Integer#to_s`) writes a non-negative integer, together
    with the reading back that shows the rendering loses nothing. */
module Decimal {

  predicate IsDigit(c: char) {
    '0' <= c <= '9'
  }

  predicate AllDigits(s: string) {
    forall i :: 0 <= i < |s| ==> IsDigit(s[i])
  }

  /** The character of a single decimal digit. */
  function DigitChar(d: nat): (c: char)
    requires d < 10
    ensures IsDigit(c)
    ensures c as int - '0' as int == d
  {
    ('0' as int + d) as char
  }

  /** The value of a single decimal digit character. */
  function DigitValue(c: char): (d: nat)
    requires IsDigit(c)
    ensures d < 10
    ensures DigitChar(d) == c
  {
    c as int - '0' as int
  }

  /** The canonical decimal text of `n`: at least one digit, only digits,
      and no leading zero unless `n` is zero itself. */
  function Show(n: nat): (s: string)
    ensures |s| > 0
    ensures AllDigits(s)
    ensures s[0] == '0' ==> n == 0
    ensures n < 10 <==> |s| == 1
    decreases n
  {
    if n < 10 then [DigitChar(n)] else Show(n / 10) + [DigitChar(n % 10)]
  }

  /** The number a string of digits denotes, most significant digit first. */
  function Value(s: string): nat
    requires AllDigits(s)
    decreases |s|
  {
    if s == [] then 0 else Value(s[..|s| - 1]) * 10 + DigitValue(s[|s| - 1])
  }

  /** Reading back the rendering of `n` gives `n`. */
  lemma {:induction false} ValueOfShow(n: nat)
    ensures Value(Show(n)) == n
    decreases n
  {
    if n >= 10 {
      var s := Show(n);
      var front := Show(n / 10);
      assert s == front + [DigitChar(n % 10)];
      assert s[..|s| - 1] == front;
      ValueOfShow(n / 10);
      assert Value(s) == (n / 10) * 10 + n % 10;
    }
  }

  /** Distinct numbers are rendered as distinct texts. */
  lemma ShowInjective(m: nat, n: nat)
    ensures Show(m) == Show(n) <==> m == n
  {
    if Show(m) == Show(n) {
      ValueOfShow(m);
      ValueOfShow(n);
    }
  }

  /** Two all-digit strings that are each followed by `stop` (a non-digit)
      at the start of the same text are the same string: a number written
      before a delimiter can be read in only one way. */
  lemma {:induction false} DelimitedDigitsUnique(a: string, b: string, stop: char, t: string)
    requires AllDigits(a) && AllDigits(b) && !IsDigit(stop)
    requires a + [stop] <= t && b + [stop] <= t
    ensures a == b
  {
    assert |a| < |t| && t[|a|] == stop;
    assert |b| < |t| && t[|b|] == stop;
    assert forall i :: 0 <= i < |a| ==> a[i] == t[i];
    assert forall i :: 0 <= i < |b| ==> b[i] == t[i];
    assert |a| == |b|;
    assert a == t[..|a|] == b;
  }
}
