/** The generic linear interpolation of src/plot.h, on exact reals. */
module Interpolation {

  /**
   * y0 + (y1 - y0) * ((x - x0) / (x1 - x0)). The source divides by x1 - x0
   * unguarded; reals have no infinity or NaN, so the model requires x0 != x1.
   */
  function Lerp(x: real, x0: real, x1: real, y0: real, y1: real): (r: real)
    requires x0 != x1
    ensures x == x0 ==> r == y0
    ensures x == x1 ==> r == y1
  {
    y0 + (y1 - y0) * ((x - x0) / (x1 - x0))
  }

  predicate Between(r: real, a: real, b: real) {
    (a <= r <= b) || (b <= r <= a)
  }

  /** For x in [x0, x1] the result lies between y0 and y1. */
  lemma LerpWithinRange(x: real, x0: real, x1: real, y0: real, y1: real)
    requires x0 < x1 && x0 <= x <= x1
    ensures Between(Lerp(x, x0, x1, y0, y1), y0, y1)
  {
    var d := x1 - x0;
    var t := (x - x0) / d;
    UnitFraction(x - x0, d);
    var k := y1 - y0;
    if k >= 0.0 {
      MulNonNegative(t, k);
      MulNonNegative(1.0 - t, k);
    } else {
      MulNonNegative(t, -k);
      MulNonNegative(1.0 - t, -k);
    }
  }

  /** A fraction n / d with 0 <= n <= d lies in [0, 1]. */
  lemma UnitFraction(n: real, d: real)
    requires 0.0 <= n <= d && d > 0.0
    ensures 0.0 <= n / d <= 1.0
  {
  }

  lemma MulNonNegative(a: real, b: real)
    requires a >= 0.0 && b >= 0.0
    ensures a * b >= 0.0
  {
  }

  /** Interpolating a range onto itself is the identity. */
  lemma LerpIdentity(x: real, x0: real, x1: real)
    requires x0 != x1
    ensures Lerp(x, x0, x1, x0, x1) == x
  {
    var t := (x - x0) / (x1 - x0);
    assert (x1 - x0) * t == x - x0;
  }

  /** Lerp is affine in x: equal steps in x give equal steps in the result. */
  lemma LerpAffine(x: real, x0: real, x1: real, y0: real, y1: real)
    requires x0 != x1
    ensures Lerp(x, x0, x1, y0, y1) - y0 == (y1 - y0) / (x1 - x0) * (x - x0)
  {
    var d := x1 - x0;
    assert (x - x0) / d == (x - x0) * (1.0 / d);
    assert (y1 - y0) / d == (y1 - y0) * (1.0 / d);
  }
}
