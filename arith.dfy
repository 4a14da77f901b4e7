/** Facts about Euclidean `/` and `%` that the solver does not find unaided.
    For a positive divisor they agree with Python's floor division and modulo. */
module Arith {

  lemma MulAtLeast(a: int, n: int)
    requires a >= 1 && n > 0
    ensures a * n >= n
  {
    var b := a - 1;
    assert a * n == b * n + n;
    assert b * n >= 0;
  }

  /** Division with remainder is unique. */
  lemma DivModUnique(x: int, n: int, q: int, r: int)
    requires 0 <= r < n && x == q * n + r
    ensures x % n == r && x / n == q
  {
    var q0, r0 := x / n, x % n;
    assert x == q0 * n + r0;
    if q0 < q {
      assert (q - q0) * n == r0 - r;
      MulAtLeast(q - q0, n);
    } else if q0 > q {
      assert (q0 - q) * n == r - r0;
      MulAtLeast(q0 - q, n);
    }
  }

  /** Dividing a natural number by a positive one does not make it larger. */
  lemma DivBounds(x: int, n: int)
    requires 0 <= x && n >= 1
    ensures 0 <= x / n <= x
  {
    var q := x / n;
    assert x == q * n + x % n;
    if q > 0 {
      MulAtLeast(n, q);
      assert n * q == q * n;
    }
  }

  lemma ModAddMultiple(x: int, n: int, k: int)
    requires n > 0
    ensures (x + k * n) % n == x % n
  {
    assert x + k * n == (x / n + k) * n + x % n;
    DivModUnique(x + k * n, n, x / n + k, x % n);
  }

  /** Reducing one summand first does not change the remainder. */
  lemma ModOfSum(a: int, b: int, n: int)
    requires n > 0
    ensures (a + b % n) % n == (a + b) % n
  {
    assert a + b == (a + b % n) + (b / n) * n;
    ModAddMultiple(a + b % n, n, b / n);
  }

  /** The remainders of x and -x add up to n, unless both are zero. */
  lemma ModNegate(x: int, n: int)
    requires n > 0
    ensures x % n == 0 ==> (-x) % n == 0
    ensures x % n != 0 ==> (-x) % n == n - x % n
  {
    var q, r := x / n, x % n;
    assert x == q * n + r;
    if r == 0 {
      DivModUnique(-x, n, -q, 0);
    } else {
      DivModUnique(-x, n, -q - 1, n - r);
    }
  }

  /** A value already in 0..n-1 is its own remainder. */
  lemma ModSmall(x: int, n: int)
    requires 0 <= x < n
    ensures x % n == x
  {
    DivModUnique(x, n, 0, x);
  }
}
