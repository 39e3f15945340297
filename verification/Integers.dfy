/** Small facts of nonlinear integer arithmetic. */
module Integers {

  lemma MulMonotone(a: int, b: int, c: int)
    requires a <= b && c >= 0
    ensures a * c <= b * c
  {
    assert (b - a) * c >= 0;
  }

  /** The quotient is determined by where the dividend lies. */
  lemma DivBetween(x: int, q: int, d: int)
    requires d > 0 && q * d <= x < q * d + d
    ensures x / d == q && x % d == x - q * d
  {
    var y := x / d;
    assert x == y * d + x % d;
    assert (y + 1) * d == y * d + d && (q + 1) * d == q * d + d;
    if y < q {
      MulMonotone(y + 1, q, d);
    } else if y > q {
      MulMonotone(q + 1, y, d);
    }
  }

  lemma QuotientOfNatural(x: int, d: int)
    requires x >= 0 && d > 0
    ensures 0 <= x / d <= x && (x / d == 0 <==> x < d)
    ensures (x / d) * d <= x < (x / d) * d + d
  {
    var q := x / d;
    assert x == q * d + x % d;
    if q < 0 {
      MulMonotone(q, -1, d);
    } else {
      MulMonotone(1, d, q);
      if q > 0 {
        MulMonotone(1, q, d);
      }
    }
  }
}
