/** Small facts about products and quotients, each stated for the instance a caller needs. */
module Arithmetic {

  lemma MulMono(a: int, b: int, k: int)
    requires a <= b && 0 <= k
    ensures a * k <= b * k
  {
  }

  lemma DivUnique(n: int, k: int, q: int)
    requires k > 0 && q * k <= n < (q + 1) * k
    ensures n / k == q
  {
    var d := n / k;
    assert d * k <= n < (d + 1) * k;
    if d < q { MulMono(d + 1, q, k); }
    if q < d { MulMono(q + 1, d, k); }
  }

  lemma DivMono(a: int, b: int, k: int)
    requires a <= b && k > 0
    ensures a / k <= b / k
  {
    assert a / k * k <= a && b < (b / k + 1) * k;
    if b / k < a / k { MulMono(b / k + 1, a / k, k); }
  }

  lemma Distribute(a: int, b: int, k: int)
    ensures (a + b) * k == a * k + b * k
  {
  }

  lemma SwapFactors(a: int, b: int, c: int)
    ensures a * b * c == a * c * b
  {
    assert b * c == c * b;
    assert a * (b * c) == a * b * c;
    assert a * (c * b) == a * c * b;
  }

  /** A multiple of the divisor can be taken out of a floor. */
  lemma DivShift(m: int, n: int, k: int)
    requires k > 0
    ensures (m * k + n) / k == m + n / k
  {
    var f := n / k;
    assert f * k <= n < (f + 1) * k;
    Distribute(m, f, k);
    Distribute(m, f + 1, k);
    DivUnique(m * k + n, k, m + f);
  }
}
