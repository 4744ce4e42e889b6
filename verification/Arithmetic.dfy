/** Facts about products, quotients and remainders, kept out of the larger proofs. */
module Arithmetic {

  lemma ProductAtLeast(a: int, m: int)
    requires a >= 1 && m >= 0
    ensures a * m >= m
  {
  }

  lemma ProductMonotone(a: int, b: int, m: int)
    requires a <= b && m >= 0
    ensures a * m <= b * m
  {
  }

  lemma ProductStrict(a: int, b: int, m: int)
    requires a < b && m > 0
    ensures a * m < b * m
  {
  }

  lemma ProductStrictBoth(a: int, b: int, m: int, n: int)
    requires 0 <= a < m && 0 <= b < n
    ensures a * b < m * n
  {
    ProductMonotone(a, m, b);
    ProductStrict(b, n, m);
  }

  lemma Distribute(a: int, b: int, m: int)
    ensures (a + b) * m == a * m + b * m
    ensures (a - b) * m == a * m - b * m
  {
  }

  lemma Associate(a: int, b: int, c: int)
    ensures a * (b * c) == (a * b) * c == b * (a * c)
  {
  }

  /** Quotient and remainder are unique. */
  lemma DivModUnique(x: int, m: int, q: int, r: int)
    requires m > 0 && 0 <= r < m && x == q * m + r
    ensures x / m == q && x % m == r
  {
    var q', r' := x / m, x % m;
    assert x == q' * m + r';
    Distribute(q, q', m);
    Distribute(q', q, m);
    if q > q' {
      ProductAtLeast(q - q', m);
    } else if q < q' {
      ProductAtLeast(q' - q, m);
    }
  }
}
