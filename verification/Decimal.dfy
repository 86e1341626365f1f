/** Decimal numerals, as printf writes them and atoi reads them. */
module Decimal {

  predicate IsDigit(c: char) { '0' <= c <= '9' }

  ghost predicate AllDigits(s: string) { forall i :: 0 <= i < |s| ==> IsDigit(s[i]) }

  function Digit(n: nat): (c: char)
    requires n < 10
    ensures IsDigit(c)
  {
    (n + 48) as char
  }

  function DigitValue(c: char): (n: nat)
    requires IsDigit(c)
    ensures n < 10
  {
    c as int - 48
  }

  function Numeral(n: nat): (s: string)
    ensures s != "" && AllDigits(s)
  {
    if n < 10 then [Digit(n)] else Numeral(n / 10) + [Digit(n % 10)]
  }

  /** The value of the digits read from left to right, continuing from `acc`. */
  function Read(s: string, acc: nat): nat
    requires AllDigits(s)
    decreases |s|
  {
    if s == "" then acc else Read(s[1..], 10 * acc + DigitValue(s[0]))
  }

  lemma {:induction false} ReadLast(s: string, c: char, acc: nat)
    requires AllDigits(s) && IsDigit(c)
    ensures AllDigits(s + [c]) && Read(s + [c], acc) == 10 * Read(s, acc) + DigitValue(c)
    decreases |s|
  {
    if s == "" {
      assert s + [c] == [c] && [c][1..] == "";
    } else {
      ReadLast(s[1..], c, 10 * acc + DigitValue(s[0]));
      assert (s + [c])[1..] == s[1..] + [c];
    }
  }

  /** Reading a numeral gives back the number. */
  lemma {:induction false} NumeralRoundTrip(n: nat)
    ensures Read(Numeral(n), 0) == n
  {
    if n < 10 {
      assert [Digit(n)][1..] == "";
      assert Read(Numeral(n), 0) == DigitValue(Digit(n));
    } else {
      NumeralRoundTrip(n / 10);
      ReadLast(Numeral(n / 10), Digit(n % 10), 0);
    }
  }

  function Power10(k: nat): nat { if k == 0 then 1 else 10 * Power10(k - 1) }

  lemma {:induction false} NumeralLength(n: nat, k: nat)
    requires k > 0 && n < Power10(k)
    ensures |Numeral(n)| <= k
    decreases k
  {
    if n >= 10 {
      NumeralLength(n / 10, k - 1);
    }
  }
}
