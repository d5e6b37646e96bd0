/**
 * Small facts about multiplication and division by a positive divisor that
 * the fixed-point proofs need and the solver does not find unaided.
 */
module Arith {

  lemma MulAtLeast(x: int, d: int)
    requires x >= 1 && d > 0
    ensures x * d >= d
  {
    assert (x - 1) * d >= 0;
  }

  lemma MulAtMost(x: int, d: int)
    requires x <= -1 && d > 0
    ensures x * d <= -d
  {
    assert (-x - 1) * d >= 0;
  }

  lemma MulMonotone(a: int, b: int, c: int)
    requires a <= b && c >= 0
    ensures a * c <= b * c
  {
    assert (b - a) * c >= 0;
  }

  /** The only multiple of d in [0, d) is 0. */
  lemma ZeroMultiple(x: int, d: int)
    requires d > 0 && 0 <= x * d < d
    ensures x == 0
  {
    if x >= 1 {
      MulAtLeast(x, d);
      assert false;
    } else if x <= -1 {
      MulAtMost(x, d);
      assert false;
    }
  }

  lemma MulDivCancel(k: int, d: int)
    requires d > 0
    ensures (k * d) / d == k
  {
    var q := (k * d) / d;
    assert k * d == q * d + (k * d) % d;
    assert (k - q) * d == (k * d) % d;
    ZeroMultiple(k - q, d);
  }

  lemma DivMonotone(a: int, b: int, d: int)
    requires a <= b && d > 0
    ensures a / d <= b / d
  {
    var qa, qb := a / d, b / d;
    assert a == qa * d + a % d && b == qb * d + b % d;
    if qa > qb {
      MulAtLeast(qa - qb, d);
      assert false;
    }
  }

  lemma DivAntitone(x: int, d1: int, d2: int)
    requires 0 <= x && 0 < d1 <= d2
    ensures x / d2 <= x / d1
  {
    var q, q1 := x / d2, x / d1;
    assert x == q * d2 + x % d2 && x == q1 * d1 + x % d1;
    assert q >= 0;
    assert q * d1 <= q * d2 by {
      assert q * d2 - q * d1 == q * (d2 - d1);
      assert q * (d2 - d1) >= 0;
    }
    if q > q1 {
      MulAtLeast(q - q1, d1);
      assert false;
    }
  }

  /** x <= k*d bounds x/d by k. */
  lemma DivBound(x: int, d: int, k: int)
    requires 0 <= x <= k * d && d > 0
    ensures 0 <= x / d <= k
  {
    DivMonotone(0, x, d);
    DivMonotone(x, k * d, d);
    MulDivCancel(k, d);
  }

  /** x below (k+1)*d bounds x/d by k. */
  lemma DivBelow(x: int, d: int, k: int)
    requires 0 <= x < (k + 1) * d && d > 0
    ensures x / d <= k
  {
    var q := x / d;
    assert x == q * d + x % d;
    if q >= k + 1 {
      MulMonotone(k + 1, q, d);
      assert false;
    }
  }
}
