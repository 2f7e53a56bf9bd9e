/** Decimal numerals. */
module Numerals {

  function Decimal(n: nat): (s: string)
    ensures |s| > 0
  {
    if n < 10 then ["0123456789"[n]] else Decimal(n / 10) + ["0123456789"[n % 10]]
  }

  lemma {:induction false} DecimalDigits(n: nat)
    ensures forall c :: c in Decimal(n) ==> '0' <= c <= '9'
  {
    if n >= 10 { DecimalDigits(n / 10); }
  }

  lemma DecimalParts(n: nat)
    ensures var s := Decimal(n); s[|s| - 1] == "0123456789"[n % 10] && (n < 10 <==> |s| == 1)
    ensures n >= 10 ==> Decimal(n)[..|Decimal(n)| - 1] == Decimal(n / 10)
  {
  }

  lemma {:induction false} DecimalInjective(a: nat, b: nat)
    requires Decimal(a) == Decimal(b)
    ensures a == b
  {
    hide *;
    DecimalParts(a);
    DecimalParts(b);
    if a >= 10 { DecimalInjective(a / 10, b / 10); }
  }
}
