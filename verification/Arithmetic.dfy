/**
 * Division facts shared by the counting arguments: the quotient and the remainder of a number that is given as a
 * multiple and a small rest of it.
 */
module Arithmetic {

  lemma Quotient(n: int, d: int, q: int, r: int)
    requires 0 <= r < d && n == d * q + r
    ensures n / d == q && n % d == r
  {
    var p, s := n / d, n % d;
    assert d * (q - p) == s - r;
    if q > p {
      Scaled(d, q - p);
    } else if q < p {
      Scaled(d, p - q);
    }
  }

  lemma Scaled(d: int, k: int)
    requires d > 0 && k >= 1
    ensures d * k >= d && d * -k <= -d
  {
  }
}
