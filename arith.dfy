/** Small facts about natural-number multiplication and division that the
    frame, chunk and interleaving layouts rest on. */
module Arith {

  lemma MulMonotone(a: nat, b: nat, c: nat)
    requires a <= b
    ensures a * c <= b * c
  {
  }

  lemma MulSucc(a: nat, b: nat)
    ensures (a + 1) * b == a * b + b
  {
  }

  /** Quotient and remainder are unique. */
  lemma {:induction false} DivModUnique(k: nat, n: nat, q: nat, r: nat)
    requires 0 <= r < n && k == q * n + r
    ensures k / n == q && k % n == r
  {
    var q', r' := k / n, k % n;
    assert k == q' * n + r';
    if q' < q {
      MulMonotone(q' + 1, q, n);
    } else if q < q' {
      MulMonotone(q + 1, q', n);
    }
  }

  /** m * n divided by n is m. */
  lemma {:induction false} MulDivCancel(m: nat, n: nat)
    requires n > 0
    ensures (m * n) / n == m
  {
    DivModUnique(m * n, n, m, 0);
  }
}
