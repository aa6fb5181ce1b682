/** Division with remainder, for divisors that are not constants. */
module Arithmetic {
  lemma Multiples(p: int, q: int, a: nat)
    requires p <= q
    ensures p * a <= q * a
  {
    assert q * a == p * a + (q - p) * a;
  }

  lemma DivModUnique(a: nat, n: nat, q: nat, r: nat)
    requires r < n && a == q * n + r
    ensures a / n == q && a % n == r
  {
    assert a == (a / n) * n + a % n;
    if q < a / n {
      Multiples(q + 1, a / n, n);
    } else if q > a / n {
      Multiples(a / n + 1, q, n);
    }
  }

  lemma ModAddsMultiple(j: nat, n: nat)
    requires n > 0
    ensures (j + n) % n == j % n && (j + n) / n == j / n + 1
  {
    assert j + n == (j / n + 1) * n + j % n;
    DivModUnique(j + n, n, j / n + 1, j % n);
  }
}
