/** The few facts about products and quotients of variables that this project needs, each
    proved once so that other proofs stay linear. */
module Arith {

  function Min(a: nat, b: nat): nat { if a < b then a else b }

  lemma {:induction false} MulLess(a: nat, b: nat, n: nat)
    requires a < b
    ensures a * n + n <= b * n
    decreases b
  {
    if a < b - 1 { MulLess(a, b - 1, n); }
  }

  lemma MulLe(a: nat, b: nat, n: nat)
    requires a <= b
    ensures a * n <= b * n
  {
    if a < b { MulLess(a, b, n); }
  }

  lemma Distribute(a: nat, b: nat, n: nat)
    ensures (a + b) * n == a * n + b * n
  {
  }

  lemma MulSwap(a: nat, b: nat, c: nat)
    ensures a * b * c == a * c * b && a * (b * c) == a * c * b
  {
  }

  /** Quotient and remainder are determined by q * n + r. */
  lemma DivModUnique(n: nat, x: nat, q: nat, r: nat)
    requires r < n && x == q * n + r
    ensures x / n == q && x % n == r
  {
    var q', r' := x / n, x % n;
    assert x == q' * n + r';
    if q < q' { MulLess(q, q', n); }
    if q' < q { MulLess(q', q, n); }
  }

  function Power(n: nat, k: nat): (r: nat)
    ensures n > 0 ==> r > 0
  {
    if k == 0 then 1 else Times(n, Power(n, k - 1))
  }

  /** a * b (see TimesIs), by doubling. */
  function Times(a: nat, b: nat): (r: nat)
    ensures a > 0 && b > 0 ==> r > 0
  {
    if a == 0 then 0 else 2 * Times(a / 2, b) + (if a % 2 == 1 then b else 0)
  }

  /** x / d and x % d (see QuotRem), by repeated subtraction. */
  function Quot(x: nat, d: nat): nat
    requires d > 0
    decreases x
  {
    if x < d then 0 else 1 + Quot(x - d, d)
  }

  function Rem(x: nat, d: nat): (r: nat)
    requires d > 0
    ensures r < d
    decreases x
  {
    if x < d then x else Rem(x - d, d)
  }

  lemma {:induction false} TimesIs(a: nat, b: nat)
    ensures Times(a, b) == a * b
  {
    if a > 0 {
      TimesIs(a / 2, b);
      MulParts(a / 2, a % 2, b);
    }
  }

  lemma MulParts(h: nat, r: nat, b: nat)
    requires r < 2
    ensures (2 * h + r) * b == 2 * (h * b) + if r == 1 then b else 0
  {
    Distribute(2 * h, r, b);
    MulSwap(2, h, b);
  }

  lemma TimesStep(a: nat, b: nat)
    requires a > 0
    ensures Times(a, b) == b + Times(a - 1, b)
  {
    TimesIs(a, b);
    TimesIs(a - 1, b);
    Distribute(a - 1, 1, b);
  }

  lemma {:induction false} QuotRem(x: nat, d: nat)
    requires d > 0
    ensures x == Times(Quot(x, d), d) + Rem(x, d)
    ensures Quot(x, d) == x / d && Rem(x, d) == x % d
    decreases x
  {
    if x >= d {
      QuotRem(x - d, d);
      TimesStep(Quot(x, d), d);
    }
    TimesIs(Quot(x, d), d);
    DivModUnique(d, x, Quot(x, d), Rem(x, d));
  }

  /** q and r are the quotient and remainder of Times(q, d) + r. */
  lemma {:induction false} QuotTimes(q: nat, d: nat, r: nat)
    requires r < d
    ensures Quot(Times(q, d) + r, d) == q && Rem(Times(q, d) + r, d) == r
  {
    if q > 0 {
      TimesStep(q, d);
      QuotTimes(q - 1, d, r);
    }
  }

  lemma {:induction false} QuotLess(x: nat, n: nat, d: nat)
    requires d > 0 && x < Times(n, d)
    ensures Quot(x, d) < n
    decreases x
  {
    if x >= d {
      TimesStep(n, d);
      QuotLess(x - d, n - 1, d);
    }
  }

  lemma {:induction false} TimesLess(a: nat, b: nat, d: nat, r: nat)
    requires a < b && r < d
    ensures Times(a, d) + r < Times(b, d)
  {
    TimesStep(b, d);
    if a > 0 {
      TimesStep(a, d);
      TimesLess(a - 1, b - 1, d, r);
    }
  }

  lemma {:induction false} QuotNear(x: nat, d: nat, j: nat)
    requires d > 0 && Rem(x, d) + j < d
    ensures Quot(x + j, d) == Quot(x, d) && Rem(x + j, d) == Rem(x, d) + j
    decreases x
  {
    if x >= d { QuotNear(x - d, d, j); }
  }
}
