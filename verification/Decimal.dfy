/** Decimal numerals: strconv's printing and parsing of unsigned integers. */
module Decimal {

  predicate IsDigit(c: char)
  {
    '0' <= c <= '9'
  }

  function DigitValue(c: char): nat
    requires IsDigit(c)
  {
    (c - '0') as nat
  }

  function DigitChar(d: nat): (c: char)
    requires d < 10
    ensures IsDigit(c) && DigitValue(c) == d
  {
    '0' + d as char
  }

  function Print(n: nat): string
  {
    if n < 10 then [DigitChar(n)] else Print(n / 10) + [DigitChar(n % 10)]
  }

  predicate AllDigits(s: string)
  {
    forall i :: 0 <= i < |s| ==> IsDigit(s[i])
  }

  function Value(s: string): nat
    requires AllDigits(s)
  {
    if s == "" then 0 else 10 * Value(s[..|s| - 1]) + DigitValue(s[|s| - 1])
  }

  /** A numeral without superfluous zeros. */
  predicate Canonical(s: string)
  {
    s != "" && AllDigits(s) && (|s| > 1 ==> s[0] != '0')
  }

  lemma {:induction false} PrintParses(n: nat)
    ensures Canonical(Print(n)) && Value(Print(n)) == n
    ensures n > 0 ==> Print(n)[0] != '0'
  {
    if n >= 10 {
      PrintParses(n / 10);
      var front := Print(n / 10);
      assert Print(n)[..|front|] == front;
      assert Print(n)[0] == front[0];
    } else {
      assert Print(n)[..0] == "";
    }
  }

  lemma {:induction false} ParsePrints(s: string)
    requires Canonical(s)
    ensures Print(Value(s)) == s
    ensures s[0] != '0' ==> Value(s) > 0
  {
    var front, last := s[..|s| - 1], s[|s| - 1];
    assert s == front + [last];
    if front == "" {
      assert Value(front) == 0;
      assert Value(s) == DigitValue(last);
    } else {
      assert front[0] == s[0];
      ParsePrints(front);
      var v, d := Value(front), DigitValue(last);
      assert (10 * v + d) / 10 == v && (10 * v + d) % 10 == d;
    }
  }
}
