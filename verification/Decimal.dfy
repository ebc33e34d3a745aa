/** Decimal numerals without leading zeros. */
module Decimal {

  predicate IsDigit(c: char) {
    '0' <= c <= '9'
  }

  predicate AllDigits(s: string) {
    forall i :: 0 <= i < |s| ==> IsDigit(s[i])
  }

  function DigitChar(d: nat): char
    requires d < 10
  {
    ('0' as int + d) as char
  }

  function DigitValue(c: char): nat
    requires IsDigit(c)
  {
    c as int - '0' as int
  }

  function Print(n: nat): string {
    if n < 10 then [DigitChar(n)] else Print(n / 10) + [DigitChar(n % 10)]
  }

  function Parse(s: string): nat
    requires AllDigits(s)
  {
    if s == "" then 0 else Parse(s[..|s| - 1]) * 10 + DigitValue(s[|s| - 1])
  }

  /** A numeral as it is printed: not empty, and no zero in front of other digits. */
  predicate Canonical(s: string) {
    s != "" && AllDigits(s) && (|s| > 1 ==> s[0] != '0')
  }

  lemma {:induction false} PrintThenParse(n: nat)
    ensures Canonical(Print(n)) && Parse(Print(n)) == n
    ensures n > 0 ==> Print(n)[0] != '0'
  {
    if n >= 10 {
      PrintThenParse(n / 10);
      assert Print(n)[..|Print(n)| - 1] == Print(n / 10);
    }
  }

  /** A number below `bound`, a power of ten, has at most that many digits. */
  lemma {:induction false} PrintIsShort(n: nat, digits: nat, bound: nat)
    requires digits > 0 && bound == PowerOfTen(digits) && n < bound
    ensures |Print(n)| <= digits
  {
    if n >= 10 {
      PrintIsShort(n / 10, digits - 1, bound / 10);
    }
  }

  function PowerOfTen(k: nat): nat {
    if k == 0 then 1 else 10 * PowerOfTen(k - 1)
  }

  lemma {:induction false} ParseThenPrint(s: string)
    requires Canonical(s)
    ensures Print(Parse(s)) == s
    ensures s[0] != '0' ==> Parse(s) > 0
  {
    var front := s[..|s| - 1];
    if |s| == 1 {
      assert Parse(front) == 0;
      assert s == [s[0]];
    } else {
      assert front[0] == s[0];
      ParseThenPrint(front);
      assert s == front + [s[|s| - 1]];
    }
  }

  /** Equal values only come from equal numerals. */
  lemma ParseIsInjective(a: string, b: string)
    requires Canonical(a) && Canonical(b) && Parse(a) == Parse(b)
    ensures a == b
  {
    ParseThenPrint(a);
    ParseThenPrint(b);
  }
}
