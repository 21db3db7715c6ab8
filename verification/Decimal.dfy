/** Printing and reading natural numbers in decimal. */
module Decimal {
  predicate IsDigit(c: char) {
    '0' <= c <= '9'
  }

  function Digit(n: nat): (c: char)
    requires n < 10
    ensures IsDigit(c) && DigitValue(c) == n
  {
    '0' + n as char
  }

  function DigitValue(c: char): (n: nat)
    requires IsDigit(c)
    ensures n < 10
  {
    (c - '0') as nat
  }

  function Print(n: nat): (text: string)
    ensures text != "" && forall i :: 0 <= i < |text| ==> IsDigit(text[i])
  {
    if n < 10 then [Digit(n)] else Print(n / 10) + [Digit(n % 10)]
  }

  /** No zero leads, except for zero itself. */
  lemma {:induction false} NoLeadingZero(n: nat)
    ensures Print(n)[0] == '0' <==> n == 0
    ensures n == 0 ==> Print(n) == "0"
  {
    if n >= 10 {
      NoLeadingZero(n / 10);
    }
  }

  function Read(text: string): nat
    requires forall i :: 0 <= i < |text| ==> IsDigit(text[i])
  {
    if text == "" then 0 else 10 * Read(text[..|text| - 1]) + DigitValue(text[|text| - 1])
  }

  lemma {:induction false} ReadOfPrint(n: nat)
    ensures Read(Print(n)) == n
  {
    if n >= 10 {
      ReadOfPrint(n / 10);
      assert Print(n)[..|Print(n)| - 1] == Print(n / 10);
    } else {
      assert Print(n)[..0] == "";
    }
  }
}
