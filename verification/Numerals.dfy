// Decimal numerals, as they appear in generated identifiers and messages.

module Numerals {
  import opened Basics

  function Decimal(n: nat): Bytes {
    if n < 10 then [48 + n] else Decimal(n / 10) + [48 + n % 10]
  }

  function DecimalText(n: nat): string {
    var digits := Decimal(n);
    seq(|digits|, i requires 0 <= i < |digits| => digits[i] as char)
  }

  lemma {:induction false} DecimalIsInjective(m: nat, n: nat)
    requires Decimal(m) == Decimal(n)
    ensures m == n
  {
    if m >= 10 && n >= 10 {
      var i, j := Decimal(m / 10), Decimal(n / 10);
      assert (i + [48 + m % 10])[..|i|] == i && (j + [48 + n % 10])[..|j|] == j;
      assert (i + [48 + m % 10])[|i|] == (j + [48 + n % 10])[|j|];
      DecimalIsInjective(m / 10, n / 10);
    } else {
      DecimalIsNotEmpty(m / 10);
      DecimalIsNotEmpty(n / 10);
    }
  }

  lemma {:induction false} DecimalIsNotEmpty(n: nat)
    ensures |Decimal(n)| > 0
  {
  }

  function Pow10(digits: nat): nat {
    if digits == 0 then 1 else 10 * Pow10(digits - 1)
  }

  lemma {:induction false} DecimalLength(n: nat, digits: nat)
    requires 0 < digits && n < Pow10(digits)
    ensures |Decimal(n)| <= digits && 0 !in Decimal(n)
  {
    if n >= 10 {
      assert Pow10(1) == 10;
      DecimalLength(n / 10, digits - 1);
    }
  }
}
