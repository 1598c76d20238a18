/** Comparisons of quotients, for the ratio tests of the program written without division. */
module Ratios {

  /** Dividing by a positive number keeps comparisons: q = a / n is at least c iff a is at least c * n. */
  lemma DivAtLeast(a: real, n: real, c: real)
    requires n > 0.0
    ensures a / n >= c <==> a >= c * n
  {
    var q := a / n;
    assert q * n == a;
    if q >= c {
      assert q * n >= c * n;
    } else {
      assert q * n < c * n;
    }
  }

  /** q = a / n is at most c iff a is at most c * n. */
  lemma DivAtMost(a: real, n: real, c: real)
    requires n > 0.0
    ensures a / n <= c <==> a <= c * n
  {
    var q := a / n;
    assert q * n == a;
    if q <= c {
      assert q * n <= c * n;
    } else {
      assert q * n > c * n;
    }
  }

  /** For counts a of n, a / n is at least 0.4 iff 5 * a is at least 2 * n. */
  lemma RatioAtLeastTwoFifths(a: int, n: int)
    requires n > 0
    ensures a as real / n as real >= 0.4 <==> 5 * a >= 2 * n
  {
    DivAtLeast(a as real, n as real, 0.4);
    assert (5 * a) as real == 5.0 * a as real;
    assert (2 * n) as real == 2.0 * n as real;
  }

  /** For counts a of n, a / n is at most 0.6 iff 5 * a is at most 3 * n. */
  lemma RatioAtMostThreeFifths(a: int, n: int)
    requires n > 0
    ensures a as real / n as real <= 0.6 <==> 5 * a <= 3 * n
  {
    DivAtMost(a as real, n as real, 0.6);
    assert (5 * a) as real == 5.0 * a as real;
    assert (3 * n) as real == 3.0 * n as real;
  }

  /** A quotient of two counts a <= n with n > 0 lies in [0, 1]. */
  lemma FractionInUnit(a: int, n: int)
    requires 0 <= a <= n && n > 0
    ensures 0.0 <= a as real / n as real <= 1.0
  {
    DivAtLeast(a as real, n as real, 0.0);
    DivAtMost(a as real, n as real, 1.0);
  }
}
