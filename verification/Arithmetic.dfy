/** The few facts about products and quotients that the proofs need, stated once. */
module Arithmetic {
  function Min(x: real, y: real): real { if x <= y then x else y }
  function Max(x: real, y: real): real { if x >= y then x else y }
  function Ceil(x: real): int { -((-x).Floor) }

  lemma MulMono(a: int, b: int, c: int)
    requires a <= b && 0 <= c
    ensures a * c <= b * c
  {
    assert 0 <= (b - a) * c;
  }

  lemma RealMulMono(a: real, b: real, c: real)
    requires a <= b && 0.0 <= c
    ensures a * c <= b * c
  {
    assert 0.0 <= (b - a) * c;
  }

  lemma RealMulStrict(a: real, b: real, c: real)
    requires a < b && 0.0 < c
    ensures a * c < b * c
  {
    assert 0.0 < (b - a) * c;
  }

  /** A quotient is found by its bounds. */
  lemma Quotient(n: int, size: int, k: int)
    requires size > 0
    ensures k * size <= n < (k + 1) * size <==> k == n / size
    ensures n == n / size * size + n % size
  {
    var q := n / size;
    assert q * size <= n < (q + 1) * size;
    if k < q { MulMono(k + 1, q, size); }
    if k > q { MulMono(q + 1, k, size); }
  }

  lemma QuotientBound(x: real, rate: real, d: real)
    requires rate > 0.0
    ensures d >= x / rate <==> d * rate >= x
    ensures x / rate * rate == x
  {
    var q := x / rate;
    assert q * rate == x;
    if d >= q { RealMulMono(q, d, rate); } else { assert (q - d) * rate > 0.0; }
  }
}
