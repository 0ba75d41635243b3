/** Division and multiplication by repetition, so that reasoning about them stays linear. */
module Arithmetic {

  function Quotient(x: nat, d: nat): nat
    requires d > 0
  {
    if x < d then 0 else 1 + Quotient(x - d, d)
  }

  function Remainder(x: nat, d: nat): (r: nat)
    requires d > 0
    ensures r < d
  {
    if x < d then x else Remainder(x - d, d)
  }

  function Times(n: nat, x: nat): nat {
    if n == 0 then 0 else x + Times(n - 1, x)
  }

  lemma {:induction false} TimesIsProduct(n: nat, x: nat)
    ensures Times(n, x) == n * x
  {
    if n > 0 {
      TimesIsProduct(n - 1, x);
      assert n * x == x + (n - 1) * x;
    }
  }

  lemma Multiply(a: int, b: int, d: nat)
    requires a <= b
    ensures a * d <= b * d
  {
  }

  lemma {:induction false} QuotientBounds(x: nat, d: nat)
    requires d > 0
    ensures Quotient(x, d) * d + Remainder(x, d) == x
  {
    if x >= d {
      QuotientBounds(x - d, d);
      assert (1 + Quotient(x - d, d)) * d == d + Quotient(x - d, d) * d;
    }
  }

  lemma QuotientIsDivision(x: nat, d: nat)
    requires d > 0
    ensures Quotient(x, d) == x / d
  {
    QuotientBounds(x, d);
    var p, q := Quotient(x, d), x / d;
    assert q * d <= x < q * d + d;
    if p < q { Multiply(p + 1, q, d); }
    if q < p { Multiply(q + 1, p, d); }
  }

  lemma {:induction false} QuotientOfNext(x: nat, d: nat)
    requires d > 0
    ensures if Remainder(x, d) + 1 < d
            then Quotient(x + 1, d) == Quotient(x, d) && Remainder(x + 1, d) == Remainder(x, d) + 1
            else Quotient(x + 1, d) == Quotient(x, d) + 1 && Remainder(x + 1, d) == 0
  {
    if x >= d { QuotientOfNext(x - d, d); }
  }

  lemma {:induction false} QuotientHalves(x: nat, d: nat)
    requires d > 0
    ensures 2 * Quotient(x, 2 * d) <= Quotient(x, d)
  {
    if x >= 2 * d { QuotientHalves(x - 2 * d, d); }
  }

  lemma {:induction false} QuotientAtMost(x: nat, d: nat)
    requires d > 0
    ensures Quotient(x, d) <= x
  {
    if x >= d { QuotientAtMost(x - d, d); }
  }

  lemma {:induction false} TimesGrows(m: nat, n: nat, x: nat, y: nat)
    requires m <= n && x <= y
    ensures Times(m, x) <= Times(n, y)
  {
    if m > 0 { TimesGrows(m - 1, n - 1, x, y); }
  }

  lemma {:induction false} TwiceTheHalf(n: nat, x: nat, y: nat)
    requires 2 * y <= x
    ensures Times(2 * n, y) <= Times(n, x)
  {
    if n > 0 {
      TwiceTheHalf(n - 1, x, y);
      assert Times(2 * n, y) == y + (y + Times(2 * n - 2, y));
    }
  }
}
