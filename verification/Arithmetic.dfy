/** Division and remainder, step by step. */
module Arithmetic {
  lemma DivBounds(a: nat, n: nat, k: nat)
    requires n > 0
    ensures a >= k * n ==> a / n >= k
    ensures a < k * n ==> a / n < k
  {
    var q, r := a / n, a % n;
    assert a == q * n + r;
    assert (q + 1) * n == q * n + n;
    if q < k {
      MulMonotone(q + 1, k, n);
    } else {
      MulMonotone(k, q, n);
    }
  }

  lemma MulMonotone(a: nat, b: nat, n: nat)
    requires a <= b
    ensures a * n <= b * n
  {
  }

  lemma DivUnique(a: nat, n: nat, q: nat, r: nat)
    requires n > 0 && r < n && a == q * n + r
    ensures a / n == q && a % n == r
  {
    DivBounds(a, n, q);
    assert (q + 1) * n == q * n + n;
    DivBounds(a, n, q + 1);
  }

  lemma DivDiv(t: nat, p: nat, n: nat)
    requires n > 0 && p > 0
    ensures n * p > 0 && t / (n * p) == t / p / n
  {
    var q, r := t / p, t % p;
    DivMod(t, p);
    DivMod(q, n);
    Regroup(q / n, n, q % n, p);
    MulMonotone(q % n + 1, n, p);
    assert (q % n + 1) * p == q % n * p + p;
    DivUnique(t, n * p, q / n, q % n * p + r);
  }

  lemma DivMod(t: nat, p: nat)
    requires p > 0
    ensures t == t / p * p + t % p && t % p < p
  {
  }

  lemma Regroup(a: nat, n: nat, b: nat, p: nat)
    ensures (a * n + b) * p == a * (n * p) + b * p
  {
  }
}
