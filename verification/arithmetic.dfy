/** Products and quotients of naturals. */
module Arithmetic {
  lemma MulMonotone(a: nat, b: nat, d: nat)
    requires a <= b
    ensures a * d <= b * d
  {
    assert (b - a) * d >= 0;
  }

  lemma QuotientFacts(j: nat, d: nat)
    requires d > 0
    ensures j / d >= 0 && (j / d) * d <= j < (j / d) * d + d
  {
    assert j == d * (j / d) + j % d;
  }

  lemma QuotientUnique(j: nat, d: nat, q: nat)
    requires d > 0 && q * d <= j < q * d + d
    ensures j / d == q
  {
    var q' := j / d;
    QuotientFacts(j, d);
    if q' < q {
      MulMonotone(q' + 1, q, d);
    } else if q < q' {
      MulMonotone(q + 1, q', d);
    }
  }
}
