/** Small facts about Euclidean division and multiplication that the table
    generators and the geometry lemmas lean on. */
module Arith {

  /** Quotient and remainder are determined by any decomposition `i == q * d + r`
      with `0 <= r < d`. */
  lemma DivModUnique(i: int, d: int, q: int, r: int)
    requires d > 0 && 0 <= r < d && i == q * d + r
    ensures i / d == q && i % d == r
  {
    var q', r' := i / d, i % d;
    assert i == q' * d + r' && 0 <= r' < d;
    if q' < q {
      assert (q' + 1) * d == q' * d + d;
      MulLeq(q' + 1, q, d);
    } else if q < q' {
      assert (q + 1) * d == q * d + d;
      MulLeq(q + 1, q', d);
    }
  }

  /** Multiplication by a non-negative factor is monotonic. */
  lemma MulLeq(a: int, b: int, d: int)
    requires a <= b && d >= 0
    ensures a * d <= b * d
  {
    assert b * d - a * d == (b - a) * d;
  }

  /** `(q * d + r) / d` and `% d` for a non-negative multiple `q`. */
  lemma DivModOfMultiple(q: int, d: int, r: int)
    requires d > 0 && 0 <= r < d
    ensures (q * d + r) / d == q && (q * d + r) % d == r
  {
    DivModUnique(q * d + r, d, q, r);
  }
}
