/** Facts about multiplication and division that the solver does not find alone. */
module Arith {
  lemma MulLe(a: int, b: int, c: int)
    requires 0 <= a
    ensures b <= c ==> a * b <= a * c
  {
  }

  /** Euclidean division is determined by its quotient-remainder equation. */
  lemma DivModUnique(n: int, m: int, q: int, x: int)
    requires 0 < m && n == m * q + x && 0 <= x < m
    ensures n / m == q && n % m == x
  {
    var q' := n / m;
    MulLe(m, q + 1, q');
    MulLe(m, q' + 1, q);
    assert m * (q + 1) == m * q + m;
    assert m * (q' + 1) == m * q' + m;
  }

  /** Dividing by b and then by c is dividing by b * c. */
  lemma DivDiv(n: int, b: int, c: int)
    requires 0 <= n && 0 < b && 0 < c
    ensures n / b / c == n / (b * c)
  {
    var q := n / b / c;
    var r := (n / b) % c;
    assert n == b * (c * q + r) + n % b;
    assert n == (b * c) * q + (b * r + n % b);
    MulLe(b, r, c - 1);
    DivModUnique(n, b * c, q, b * r + n % b);
  }

  /** Taking the last digit off and putting it back leaves n modulo 10 * p. */
  lemma ModTen(n: int, p: int)
    requires 0 <= n && 0 < p
    ensures (n / 10 % p) * 10 + n % 10 == n % (10 * p)
  {
    var a := n / 10 / p;
    var b := n / 10 % p;
    assert n == 10 * (p * a + b) + n % 10;
    assert n == (10 * p) * a + (10 * b + n % 10);
    DivModUnique(n, 10 * p, a, 10 * b + n % 10);
  }

  /** The digit group of n between p and m * p. */
  lemma ModDiv(n: int, p: int, m: int)
    requires 0 <= n && 0 < p && 0 < m
    ensures n % (m * p) / p == n / p % m
  {
    var q, r := n / p, n % p;
    var a, b := q / m, q % m;
    assert p * q == p * (m * a) + p * b;
    assert p * (m * a) == (m * p) * a;
    MulLe(p, b, m - 1);
    assert p * (m - 1) == m * p - p;
    DivModUnique(n, m * p, a, p * b + r);
    DivModUnique(p * b + r, p, b, r);
  }

  /** Reducing modulo m * p and then modulo p is reducing modulo p. */
  lemma ModMod(n: int, p: int, m: int)
    requires 0 <= n && 0 < p && 0 < m
    ensures n % (m * p) % p == n % p
  {
    var a, s := n / (m * p), n % (m * p);
    assert (m * p) * a == p * (m * a);
    assert s == p * (s / p) + s % p;
    assert n == p * (m * a + s / p) + s % p;
    DivModUnique(n, p, m * a + s / p, s % p);
  }
}
