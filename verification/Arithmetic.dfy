/** The few facts about products and quotients that the models need. */
module Arithmetic {

  lemma MulOrder(a: int, b: int, p: int)
    requires a <= b && 0 <= p
    ensures a * p <= b * p
  {
    assert 0 <= (b - a) * p;
  }

  lemma MulNext(a: int, p: int)
    ensures (a + 1) * p == a * p + p
  {
  }

  /** Two different multiples lie at least one step apart. */
  lemma MultiplesApart(i: int, j: int, p: int)
    requires 0 < p && i * p < j * p
    ensures i < j && i * p + p <= j * p
  {
    if j <= i {
      MulOrder(j, i, p);
    } else {
      MulNext(i, p);
      MulOrder(i + 1, j, p);
    }
  }

  /** Quotient and remainder are unique. */
  lemma DivUnique(a: int, p: int, q: int, r: int)
    requires 0 < p && a == q * p + r && 0 <= r < p
    ensures a / p == q && a % p == r
  {
    var d := a / p;
    assert a == d * p + a % p;
    if d < q {
      MulNext(d, p);
      MulOrder(d + 1, q, p);
    } else if q < d {
      MulNext(q, p);
      MulOrder(q + 1, d, p);
    }
  }
}
