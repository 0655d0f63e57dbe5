/** Products and quotients of reals as named terms, and the few facts about them that the vector proofs use. */
module Algebra {

  function Mul(x: real, y: real): (r: real) { x * y }

  function Sqr(x: real): (r: real)
    ensures r >= 0.0
  {
    x * x
  }

  function Quot(x: real, y: real): (r: real)
    requires y != 0.0
    ensures r * y == x
  {
    x / y
  }

  lemma MulNonNegative(x: real, y: real)
    requires x >= 0.0 && y >= 0.0
    ensures Mul(x, y) >= 0.0
  {
  }

  lemma MulPositive(x: real, y: real)
    requires x > 0.0 && y > 0.0
    ensures Mul(x, y) > 0.0
  {
  }

  lemma SqrPositive(x: real)
    requires x != 0.0
    ensures Sqr(x) > 0.0
  {
    if x > 0.0 {
      MulPositive(x, x);
    } else {
      MulPositive(-x, -x);
      assert (-x) * (-x) == x * x;
    }
  }

  lemma SqrMonotone(x: real, y: real)
    requires 0.0 <= x < y
    ensures Sqr(x) < Sqr(y)
  {
    hide *;
    var t := y - x;
    MulNonNegative(x, t);
    SqrPositive(t);
    SqrOfSum(x, t);
    assert x + t == y;
  }

  lemma SqrNegated(x: real)
    ensures Sqr(-x) == Sqr(x)
  {
  }

  /** A number whose square is at most that of a non-negative bound lies between minus the bound and the bound. */
  lemma SqrBound(d: real, m: real)
    requires m >= 0.0 && Sqr(d) <= Sqr(m)
    ensures -m <= d <= m
  {
    hide Sqr;
    if d > m { SqrMonotone(m, d); }
    if d < -m {
      SqrMonotone(m, -d);
      SqrNegated(d);
    }
  }

  lemma SqrOfProduct(x: real, y: real)
    ensures Sqr(Mul(x, y)) == Mul(Sqr(x), Sqr(y))
  {
    assert (x * y) * (x * y) == (x * x) * (y * y);
  }

  lemma SqrOfSum(x: real, y: real)
    ensures Sqr(x + y) == Sqr(x) + 2.0 * Mul(x, y) + Sqr(y)
  {
    assert (x + y) * (x + y) == x * x + 2.0 * (x * y) + y * y;
  }

  lemma MulSum(k: real, x: real, y: real)
    ensures Mul(k, x + y) == Mul(k, x) + Mul(k, y)
    ensures Mul(x + y, k) == Mul(x, k) + Mul(y, k)
  {
  }

  lemma MulAssoc(x: real, y: real, z: real)
    ensures Mul(Mul(x, y), z) == Mul(x, Mul(y, z))
  {
    assert (x * y) * z == x * (y * z);
  }

  lemma MulSymmetric(x: real, y: real)
    ensures Mul(x, y) == Mul(y, x)
  {
  }

  /** A product with a positive factor is non-negative only if the other factor is. */
  lemma MulSign(a: real, e: real)
    requires a > 0.0 && Mul(a, e) >= 0.0
    ensures e >= 0.0
  {
    hide Mul;
    if e < 0.0 { MulNegative(a, e); }
  }

  lemma MulNegative(a: real, e: real)
    requires a > 0.0 && e < 0.0
    ensures Mul(a, e) < 0.0
  {
  }

  lemma FactorOne(s: real, m: real)
    requires m > 0.0 && Mul(s, m) == m
    ensures s == 1.0
  {
    assert (s - 1.0) * m == 0.0;
    assert s > 1.0 ==> (s - 1.0) * m > 0.0;
    assert s < 1.0 ==> (1.0 - s) * m > 0.0;
  }

  lemma QuotInRange(d: real, m: real)
    requires m > 0.0 && -m <= d <= m
    ensures -1.0 <= Quot(d, m) <= 1.0
  {
  }

  lemma QuotCancel(k: real, d: real, m: real)
    requires k > 0.0 && m > 0.0
    ensures Mul(k, m) > 0.0 && Quot(Mul(k, d), Mul(k, m)) == Quot(d, m)
  {
    assert k * m > 0.0;
    var q := d / m;
    assert q * m == d;
    assert q * (k * m) == k * d;
  }

  /** Squares of quotients: (x / n)^2 * n^2 == x^2. */
  lemma QuotSquared(x: real, n: real)
    requires n != 0.0
    ensures Mul(Sqr(Quot(x, n)), Sqr(n)) == Sqr(x)
  {
    var q := x / n;
    assert q * n == x;
    assert (q * q) * (n * n) == (q * n) * (q * n);
  }
}
