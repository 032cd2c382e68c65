/** Facts about products, quotients and remainders that the solver needs spelled out. */
module Arithmetic {

  function Min(a: int, b: int): int {
    if a < b then a else b
  }

  function Max(a: int, b: int): int {
    if a < b then b else a
  }

  /** 1 << k. */
  function Pow2(k: nat): (p: nat)
    ensures p >= 1
  {
    if k == 0 then 1 else 2 * Pow2(k - 1)
  }

  lemma {:induction false} MulMono(a: nat, b: nat, c: nat, d: nat)
    requires a <= b && c <= d
    ensures a * c <= b * d
  {
    assert a * c <= b * c <= b * d;
  }

  lemma {:induction false} MulLess(q: nat, q': nat, n: nat)
    requires q < q'
    ensures q * n + n <= q' * n
  {
    MulMono(q + 1, q', n, n);
    assert (q + 1) * n == q * n + n;
  }

  lemma {:induction false} MulCancel(a: nat, b: nat, n: nat)
    requires a * n < b * n
    ensures a < b
  {
    if b <= a { MulMono(b, a, n, n); }
  }

  /** Quotient and remainder are the only pair with the division property. */
  lemma {:induction false} DivModUnique(x: nat, n: nat, q: nat, r: nat)
    requires n > 0 && x == q * n + r && r < n
    ensures x / n == q && x % n == r
  {
    var q', r' := x / n, x % n;
    assert x == q' * n + r';
    if q' < q { MulLess(q', q, n); }
    if q < q' { MulLess(q, q', n); }
  }

  lemma {:induction false} DivModPlus(x: nat, n: nat)
    requires n > 0
    ensures (x + n) % n == x % n && (x + n) / n == x / n + 1
  {
    var q := x / n;
    assert (q + 1) * n == q * n + n;
    DivModUnique(x + n, n, q + 1, x % n);
  }

  lemma {:induction false} MulMod(q: nat, n: nat)
    requires n > 0
    ensures (q * n) % n == 0 && (q * n) / n == q
  {
    DivModUnique(q * n, n, q, 0);
  }

  lemma {:induction false} SubMod(x: nat, n: nat)
    requires n > 0 && x >= n && x % n == 0
    ensures (x - n) % n == 0
  {
    DivModPlus(x - n, n);
  }
}
