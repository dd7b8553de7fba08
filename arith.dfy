/** Facts about floor division and products, proved from the definitions. */
module Arith {

  lemma MulNonneg(x: int, y: int)
    requires x >= 0 && y >= 0
    ensures x * y >= 0
  {}

  lemma MulMono(a: nat, b: nat, c: nat, d: nat)
    requires a <= c && b <= d
    ensures a * b <= c * d
  {
    assert a * b <= c * b;
    assert c * b <= c * d;
  }

  /** A nonzero multiple of m lies at least m away from zero. */
  lemma MulAwayFromZero(k: int, m: int)
    requires m > 0
    ensures k >= 1 ==> k * m >= m
    ensures k <= -1 ==> k * m <= -m
  {
    if k >= 1 {
      MulNonneg(k - 1, m);
      assert k * m == (k - 1) * m + m;
    } else if k <= -1 {
      MulNonneg(-k - 1, m);
      assert k * m == -((-k - 1) * m) - m;
    }
  }

  /** The quotient and remainder of a division are the unique q, r with a == q * m + r. */
  lemma DivModUnique(a: int, m: int, q: int, r: int)
    requires m > 0 && 0 <= r < m && a == q * m + r
    ensures a / m == q && a % m == r
  {
    var d, e := a / m, a % m;
    assert a == d * m + e;
    assert (q - d) * m == q * m - d * m;
    MulAwayFromZero(q - d, m);
  }

  lemma DivMono(a: int, b: int, m: int)
    requires m > 0 && a <= b
    ensures a / m <= b / m
  {
    var x, y := a / m, b / m;
    assert a == x * m + a % m && b == y * m + b % m;
    assert (x - y) * m == x * m - y * m;
    MulAwayFromZero(x - y, m);
  }

  lemma DivExact(q: int, m: int)
    requires m > 0
    ensures q * m / m == q && q * m % m == 0
  {
    DivModUnique(q * m, m, q, 0);
  }

  lemma DivLowerBound(x: int, m: int, n: int)
    requires m > 0 && x * m <= n
    ensures x <= n / m
  {
    DivExact(x, m);
    DivMono(x * m, n, m);
  }

  lemma DivTimesBelow(a: nat, m: nat)
    requires m > 0
    ensures (a / m) * m <= a && a / m >= 0
  {
    assert a == (a / m) * m + a % m;
  }

  /** Below b blocks of m means below block b. */
  lemma DivBelow(a: nat, b: nat, m: nat)
    requires m > 0 && a < b * m
    ensures a / m < b
  {
    DivTimesBelow(a, m);
    MulAwayFromZero(a / m - b + 1, m);
    assert (a / m - b + 1) * m == (a / m) * m - b * m + m;
  }

  /** Digit i of radix m inside block q, the last of fewer than b blocks, stays below b * m. */
  lemma BlockSpan(q: nat, i: nat, b: nat, m: nat)
    requires q < b && i < m
    ensures q * m + i < b * m
  {
    MulMono(q + 1, m, b, m);
  }

  lemma DivDecompose(a: nat, m: nat)
    requires m > 0
    ensures a == (a / m) * m + a % m
  {
  }

  lemma MulPositive(x: int, y: int)
    requires x > 0 && y > 0
    ensures x * y > 0
  {
    MulAwayFromZero(x, y);
  }

  /** Shrinking one factor of a positive product strictly shrinks the product. */
  lemma MulStrict(a: nat, b: nat, c: nat, d: nat)
    requires a < c && b <= d && d > 0
    ensures a * b < c * d
  {
    MulMono(a, b, a, d);
    MulAwayFromZero(c - a, d);
    assert (c - a) * d == c * d - a * d;
  }

  /** Expanding a two-digit number times a third factor. */
  lemma DigitsExpand(a: int, b: int, n: int, c: int)
    ensures (a * n + b) * c == a * n * c + b * c
  {
  }

  /** x written with two digits of radix m lies in [q2 * m * m, (q2 + 1) * m * m). */
  lemma TwoDigits(x: nat, m: nat, q1: nat, r1: nat, q2: nat, r2: nat)
    requires x == q1 * m + r1 && r1 < m && q1 == q2 * m + r2 && r2 < m
    ensures q2 * m * m <= x < (q2 + 1) * m * m
  {
    MulMono(q2 * m, m, q1, m);
    var up: nat := (q2 + 1) * m;
    assert up == q2 * m + m;
    MulMono(q1 + 1, m, up, m);
    assert (q1 + 1) * m == q1 * m + m;
  }
}
