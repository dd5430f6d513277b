/** Decimal numerals: printing a number, and reading it back. */
module Decimal {
  import opened Letters

  function Digit(d: nat): (c: char)
    requires d < 10
    ensures IsDigit(c) && DigitValue(c) == d
  {
    (d + '0' as int) as char
  }

  function DigitValue(c: char): nat
    requires IsDigit(c)
  {
    c as int - '0' as int
  }

  predicate AllDigits(s: string) {
    forall k :: 0 <= k < |s| ==> IsDigit(s[k])
  }

  function Print(n: nat): string {
    if n < 10 then [Digit(n)] else Print(n / 10) + [Digit(n % 10)]
  }

  function Read(s: string): nat
    requires AllDigits(s)
  {
    if s == "" then 0 else 10 * Read(s[..|s| - 1]) + DigitValue(s[|s| - 1])
  }

  lemma {:induction false} PrintThenRead(n: nat)
    ensures Print(n) != "" && AllDigits(Print(n)) && Read(Print(n)) == n
  {
    if n < 10 {
      assert Print(n)[..0] == "";
    } else {
      PrintThenRead(n / 10);
      assert Print(n)[..|Print(n)| - 1] == Print(n / 10);
    }
  }

  /** A numeral has no leading zero, except zero itself. */
  predicate Canonical(s: string) {
    s != "" && AllDigits(s) && (|s| == 1 || s[0] != '0')
  }

  lemma {:induction false} PrintIsCanonical(n: nat)
    ensures Canonical(Print(n)) && (n > 0 ==> Print(n)[0] != '0')
  {
    if n >= 10 {
      PrintIsCanonical(n / 10);
      assert Print(n)[0] == Print(n / 10)[0];
    }
  }

  lemma {:induction false} ReadThenPrint(s: string)
    requires Canonical(s)
    ensures Print(Read(s)) == s && (s[0] != '0' ==> Read(s) > 0)
  {
    var front, last := s[..|s| - 1], s[|s| - 1];
    assert s == front + [last];
    if front == "" {
      assert Digit(DigitValue(last)) == last;
    } else {
      ReadThenPrint(front);
      assert Read(s) == 10 * Read(front) + DigitValue(last);
      assert Read(s) / 10 == Read(front) && Read(s) % 10 == DigitValue(last);
    }
  }

  lemma SmallIsShort(n: nat)
    ensures n < 10 ==> |Print(n)| == 1
    ensures n < 100 ==> |Print(n)| <= 2
    ensures n < 1000 ==> |Print(n)| <= 3
  {
    if n >= 10 { SmallIsShort(n / 10); }
  }
}
