/** Quotients and remainders by a variable divisor. */
module Arithmetic {

  lemma Mono(n: int, a: int, b: int)
    requires n > 0 && a <= b
    ensures n * a <= n * b
  {
  }

  /** The quotient and the remainder are unique. */
  lemma Quotient(x: int, n: int, q: int, r: int)
    requires n > 0 && x == n * q + r && 0 <= r < n
    ensures x / n == q && x % n == r
  {
    var d := q - x / n;
    assert n * d == n * q - n * (x / n);
    if d >= 1 {
      Mono(n, 1, d);
    } else if d <= -1 {
      Mono(n, d, -1);
    }
  }

  lemma Divides(a: int, b: int)
    requires a > 0
    ensures (a * b) / a == b && (a * b) % a == 0
  {
    Quotient(a * b, a, b, 0);
  }

  /** A multiple of m and then r more. */
  lemma AfterMultiple(k: int, r: int, m: int)
    requires m > 0 && 0 <= r < m && k % m == 0
    ensures (k + r) % m == r && (k + m) % m == 0
  {
    var q := k / m;
    assert k == m * q;
    assert k + m == m * (q + 1);
    Quotient(k + r, m, q, r);
    Quotient(k + m, m, q + 1, 0);
  }

  /** The distance to the next multiple. */
  lemma FillsUp(x: int, m: int)
    requires m > 0 && x % m != 0
    ensures 0 < m - x % m < m && (x + (m - x % m)) % m == 0
  {
    var q := x / m;
    assert x == m * q + x % m;
    Quotient(x + (m - x % m), m, q + 1, 0);
  }
}
