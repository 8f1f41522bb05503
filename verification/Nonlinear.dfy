/** The few facts about products that more than one module needs. */
module Nonlinear {

  lemma MulMonotone(c: int, x: int, y: int)
    requires c >= 0 && x <= y
    ensures c * x <= c * y && x * c <= y * c
  {
  }

  lemma Distribute(x: int, y: int, c: int)
    ensures x * c + y * c == (x + y) * c
  {
  }

  lemma QuotientIs(n: nat, d: nat, q: nat, r: nat)
    requires r < d && n == d * q + r
    ensures n / d == q
  {
    var p := n / d;
    assert n == d * p + n % d;
    MulMonotone(d, p + 1, if p < q then q else p + 1);
    MulMonotone(d, q + 1, if q < p then p else q + 1);
    assert d * (p + 1) == d * p + d && d * (q + 1) == d * q + d;
  }
}
