/**
 The SDK's fixed-point decimals, as integers scaled by 10^18. Multiplication and division round half to even;
 division truncates at twice the precision first. The overflow check of the SDK is not part of this model.
 */
module Decimals {
  import opened Bytes
  import opened Integers

  /** One. */
  const UNIT: int := 1_000_000_000_000_000_000

  const HALF: int := 500_000_000_000_000_000

  /** Drops eighteen digits of a nonnegative number, rounding half to even. */
  function ChopNatural(x: nat): int {
    var quo, rem := x / UNIT, x % UNIT;
    if rem < HALF then quo
    else if rem > HALF then quo + 1
    else if quo % 2 == 0 then quo
    else quo + 1
  }

  function Chop(x: int): int {
    if x < 0 then -ChopNatural(-x) else ChopNatural(x)
  }

  function FromInt(n: int): int {
    n * UNIT
  }

  function Mul(a: int, b: int): int {
    Chop(a * b)
  }

  function Quo(a: int, b: int): int
    requires b != 0
  {
    Chop(TruncQuo(a * (UNIT * UNIT), b))
  }

  function MulInt(a: int, n: int): int {
    a * n
  }

  function QuoInt(a: int, n: int): int
    requires n != 0
  {
    TruncQuo(a, n)
  }

  function TruncateInt(a: int): int {
    TruncQuo(a, UNIT)
  }

  // ---------------------------------------------------------------- how close and how monotone

  /** Chopping is off by at most half a unit of the last place, and gives the even neighbour where it is half. */
  lemma ChopNearest(x: int)
    ensures -HALF <= Chop(x) * UNIT - x <= HALF
    ensures Chop(x) * UNIT - x == HALF || x - Chop(x) * UNIT == HALF ==> Chop(x) % 2 == 0
  {
    if x < 0 {
      assert (-ChopNatural(-x)) % 2 == ChopNatural(-x) % 2;
    }
  }

  lemma ChopMonotone(x: int, y: int)
    requires x <= y
    ensures Chop(x) <= Chop(y)
  {
    ChopNearest(x);
    ChopNearest(y);
  }

  lemma TruncMonotone(x: int, y: int, d: int)
    requires x <= y && d > 0
    ensures TruncQuo(x, d) <= TruncQuo(y, d)
  {
    if x >= 0 {
      QuotientMonotone(x, y, d);
    } else if y < 0 {
      QuotientMonotone(-y, -x, d);
    } else {
      QuotientOfNatural(-x, d);
      QuotientOfNatural(y, d);
    }
  }

  lemma QuotientMonotone(x: int, y: int, d: int)
    requires 0 <= x <= y && d > 0
    ensures x / d <= y / d
  {
    QuotientOfNatural(x, d);
    QuotientOfNatural(y, d);
    var p, q := x / d, y / d;
    assert (q + 1) * d == q * d + d;
    if q < p {
      MulMonotone(q + 1, p, d);
    }
  }

  /** Truncation stays within one divisor, toward zero. */
  lemma TruncClose(x: int, d: int)
    requires d > 0
    ensures -d < TruncQuo(x, d) * d - x < d
    ensures x >= 0 ==> TruncQuo(x, d) * d <= x && TruncQuo(x, d) >= 0
    ensures x < 0 ==> TruncQuo(x, d) * d >= x && TruncQuo(x, d) <= 0
  {
    QuotientOfNatural(if x < 0 then -x else x, d);
    if x < 0 {
      assert TruncQuo(x, d) * d == -((-x) / d * d);
    }
  }

  lemma CancelUnit(a: int, b: int)
    requires a * UNIT < b * UNIT
    ensures a < b
  {
  }

  /** A quotient by a positive divisor, multiplied out again, misses the dividend by less than the divisor. */
  lemma QuoClosePositive(a: int, d: int)
    requires d > 0
    ensures -d < Quo(a, d) * d - a * UNIT < d
  {
    var x := TruncQuo(a * (UNIT * UNIT), d);
    TruncClose(a * (UNIT * UNIT), d);
    ChopNearest(x);
    TwoRoundings(a, d, x, Chop(x));
  }

  lemma TwoRoundings(a: int, d: int, x: int, q: int)
    requires d > 0 && -d < x * d - a * (UNIT * UNIT) < d && -HALF <= q * UNIT - x <= HALF
    ensures -d < q * d - a * UNIT < d
  {
    MulMonotone(-HALF, q * UNIT - x, d);
    MulMonotone(q * UNIT - x, HALF, d);
    assert (q * UNIT - x) * d == (q * d) * UNIT - x * d;
    CancelUnit(-d, q * d - a * UNIT);
    CancelUnit(q * d - a * UNIT, d);
  }

  /** The same for any divisor but zero. */
  lemma QuoClose(a: int, d: int)
    requires d != 0
    ensures var n := if d > 0 then d else -d; -n < Quo(a, d) * d - a * UNIT < n
  {
    if d > 0 {
      QuoClosePositive(a, d);
    } else {
      QuoOpposite(a, d);
      QuoClosePositive(a, -d);
      Opposites(Quo(a, -d), d);
    }
  }

  lemma QuoOpposite(a: int, d: int)
    requires d < 0
    ensures Quo(a, d) == -Quo(a, -d)
  {
    TruncNegative(a * (UNIT * UNIT), d);
  }

  lemma Opposites(q: int, d: int)
    ensures (-q) * d == q * (-d)
  {
  }

  lemma QuoMonotone(x: int, y: int, d: int)
    requires x <= y && d > 0
    ensures Quo(x, d) <= Quo(y, d)
  {
    TruncMonotone(x * (UNIT * UNIT), y * (UNIT * UNIT), d);
    ChopMonotone(TruncQuo(x * (UNIT * UNIT), d), TruncQuo(y * (UNIT * UNIT), d));
  }

  /** Division by a negative number turns the order around. */
  lemma QuoAntitone(x: int, y: int, d: int)
    requires x <= y && d < 0
    ensures Quo(x, d) >= Quo(y, d)
  {
    TruncMonotone(x * (UNIT * UNIT), y * (UNIT * UNIT), -d);
    TruncNegative(x * (UNIT * UNIT), d);
    TruncNegative(y * (UNIT * UNIT), d);
    ChopMonotone(TruncQuo(y * (UNIT * UNIT), d), TruncQuo(x * (UNIT * UNIT), d));
  }

  lemma TruncNegative(x: int, d: int)
    requires d < 0
    ensures TruncQuo(x, d) == -TruncQuo(x, -d)
  {
    if x == 0 {
      QuotientOfNatural(0, -d);
    }
  }

  lemma MulMonotoneDec(x: int, y: int, r: int)
    requires x <= y && r >= 0
    ensures Mul(x, r) <= Mul(y, r)
  {
    MulMonotone(x, y, r);
    ChopMonotone(x * r, y * r);
  }
}
