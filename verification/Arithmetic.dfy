/** Products and quotients of variables. */
module Arithmetic {

  lemma Fundamental(n: nat, d: nat)
    requires d > 0
    ensures n == (n / d) * d + n % d && 0 <= n % d < d
  {
  }

  lemma Less(r: int, q: int, d: int)
    requires r < q && d > 0
    ensures r * d + d <= q * d
  {
    var k := q - r - 1;
    assert k * d >= 0;
    assert q * d == (r + 1 + k) * d;
    assert (r + 1 + k) * d == r * d + d + k * d;
  }

  lemma Quotient(n: nat, d: nat, q: nat)
    requires d > 0
    ensures n <= q * d ==> n / d <= q
    ensures n >= q * d ==> n / d >= q
  {
    var r := n / d;
    Fundamental(n, d);
    if r > q {
      Less(q, r, d);
    }
    if r < q {
      Less(r, q, d);
    }
  }

  lemma QuotientMonotone(m: nat, n: nat, d: nat)
    requires d > 0 && m <= n
    ensures m / d <= n / d
  {
    Fundamental(m, d);
    Quotient(n, d, m / d);
  }

  /** One divisor more is one more in the quotient. */
  lemma QuotientStep(m: nat, n: nat, d: nat)
    requires d > 0 && n >= m + d
    ensures n / d >= m / d + 1
  {
    var q := m / d;
    Fundamental(m, d);
    assert (q + 1) * d == q * d + d;
    Quotient(n, d, q + 1);
  }

  lemma Product(factor: nat, a: nat, b: nat)
    requires a <= b
    ensures factor * (a - 1) + factor == factor * a <= factor * b
  {
    assert factor * (b - a) >= 0;
    assert factor * b == factor * a + factor * (b - a);
  }
}
