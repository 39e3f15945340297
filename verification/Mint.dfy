/**
 Inflation, provisions and the payout of a block (x/mint/types/minter.go, x/mint/abci.go). Nothing is minted:
 a block moves its provision from a prefunded pool to the fee collector.
 */
module Mint {
  import opened Wrappers
  import opened Bytes
  import opened Integers
  import opened Decimals

  datatype Params = Params(
    inflationRateChange: int, goalBonded: int, blocksPerYear: uint64, maxTokenPerYear: int, minTokenPerYear: int)
  {
    predicate Validate() {
      && 0 <= inflationRateChange <= UNIT
      && 0 < goalBonded <= UNIT
      && blocksPerYear != 0
      && maxTokenPerYear >= minTokenPerYear
    }
  }

  datatype Minter = Minter(inflation: int, annualProvisions: int)

  /** The cap or the floor of the inflation: that many tokens a year, as a share of the supply. */
  function TokenShare(tokens: int, supply: int): int
    requires supply > 0
  {
    Quo(FromInt(tokens), FromInt(supply))
  }

  /** The change of the inflation in one block, before capping. */
  function RateChange(p: Params, bondedRatio: int): int
    requires p.Validate()
  {
    var perYear := Mul(UNIT - Quo(bondedRatio, p.goalBonded), p.inflationRateChange);
    Quo(perYear, FromInt(ToInt64(p.blocksPerYear)))
  }

  function NextInflationRate(m: Minter, p: Params, bondedRatio: int, supply: int): int
    requires p.Validate()
  {
    if FromInt(supply) < 1 then m.inflation
    else
      var inflation := m.inflation + RateChange(p, bondedRatio);
      var inflationMax := TokenShare(p.maxTokenPerYear, supply);
      var inflationMin := TokenShare(p.minTokenPerYear, supply);
      var capped := if inflation > inflationMax then inflationMax else inflation;
      if capped < inflationMin then inflationMin else capped
  }

  function NextAnnualProvisions(m: Minter, supply: int): int {
    MulInt(m.inflation, supply)
  }

  /** The amount of a block; a negative coin cannot be made. */
  function BlockProvision(m: Minter, p: Params): Option<int>
    requires p.Validate()
  {
    var amount := TruncateInt(QuoInt(m.annualProvisions, ToInt64(p.blocksPerYear)));
    if amount < 0 then None else Some(amount)
  }

  datatype State = State(minter: Minter, pool: int, collector: int)

  /** What a block reads from the staking module. */
  datatype Staking = Staking(supply: nat, bondedRatio: int)

  function NextMinter(m: Minter, p: Params, st: Staking): Minter
    requires p.Validate()
  {
    var m1 := m.(inflation := NextInflationRate(m, p, st.bondedRatio, st.supply));
    m1.(annualProvisions := NextAnnualProvisions(m1, st.supply))
  }

  /** One block; None stands for the panic on a negative provision. A pool that is too small pays nothing. */
  function Block(s: State, p: Params, st: Staking): Option<State>
    requires p.Validate()
  {
    var m := NextMinter(s.minter, p, st);
    match BlockProvision(m, p)
    case None => None
    case Some(amount) =>
      Some(if amount <= s.pool then State(m, s.pool - amount, s.collector + amount) else State(m, s.pool, s.collector))
  }

  class MintKeeper {
    var minter: Minter
    var pool: int
    var collector: int

    function Abs(): State
      reads this
    {
      State(minter, pool, collector)
    }

    constructor (minter: Minter, pool: int)
      ensures Abs() == State(minter, pool, 0)
    {
      this.minter, this.pool, collector := minter, pool, 0;
    }

    /** Moves the amount out of the pool, if the pool holds it. */
    method AddCollectedFees(amount: nat) returns (ok: bool)
      modifies this`pool, this`collector
      ensures ok <==> amount <= old(pool)
      ensures pool + collector == old(pool + collector) && collector == old(collector) + if ok then amount else 0
    {
      if pool < amount {
        return false;
      }
      pool := pool - amount;
      collector := collector + amount;
      return true;
    }

    method BeginBlocker(p: Params, st: Staking) returns (ok: bool)
      requires p.Validate()
      modifies this
      ensures ok <==> Block(old(Abs()), p, st).Some?
      ensures ok ==> Block(old(Abs()), p, st) == Some(Abs())
    {
      var m := minter;
      m := m.(inflation := NextInflationRate(m, p, st.bondedRatio, st.supply));
      m := m.(annualProvisions := NextAnnualProvisions(m, st.supply));
      minter := m;
      var mintedCoin := BlockProvision(m, p);
      if mintedCoin.None? {
        return false;
      }
      var sent := AddCollectedFees(mintedCoin.value);
      return true;
    }
  }

  // ---------------------------------------------------------------- inflation falls as more is bonded

  lemma RateChangeAntitone(p: Params, ratio: int, higher: int)
    requires p.Validate() && ratio <= higher
    ensures p.blocksPerYear <= MAX_INT64 ==> RateChange(p, ratio) >= RateChange(p, higher)
    ensures p.blocksPerYear > MAX_INT64 ==> RateChange(p, ratio) <= RateChange(p, higher)
  {
    QuoMonotone(ratio, higher, p.goalBonded);
    var low, high := UNIT - Quo(higher, p.goalBonded), UNIT - Quo(ratio, p.goalBonded);
    MulMonotoneDec(low, high, p.inflationRateChange);
    var blocks := FromInt(ToInt64(p.blocksPerYear));
    if p.blocksPerYear <= MAX_INT64 {
      QuoMonotone(Mul(low, p.inflationRateChange), Mul(high, p.inflationRateChange), blocks);
    } else {
      QuoAntitone(Mul(low, p.inflationRateChange), Mul(high, p.inflationRateChange), blocks);
    }
  }

  /**
   The next inflation rate does not rise with the bonded ratio, through every rounding step and both clamps, as
   long as the number of blocks per year fits an int64. Past that the divisor is negative and it does not fall.
   */
  lemma InflationAntitone(m: Minter, p: Params, ratio: int, higher: int, supply: int)
    requires p.Validate() && ratio <= higher
    ensures p.blocksPerYear <= MAX_INT64 ==>
      NextInflationRate(m, p, ratio, supply) >= NextInflationRate(m, p, higher, supply)
    ensures p.blocksPerYear > MAX_INT64 ==>
      NextInflationRate(m, p, ratio, supply) <= NextInflationRate(m, p, higher, supply)
  {
    RateChangeAntitone(p, ratio, higher);
  }

  /** Past the largest int64 the rate does rise: from four to five when everything is bonded. */
  lemma InflationCanRise()
    ensures var p := Params(UNIT, UNIT, UINT64_MODULUS - 1, 10, 0);
            var m := Minter(5 * UNIT, 0);
            p.Validate() && NextInflationRate(m, p, 0, 1) == 4 * UNIT && NextInflationRate(m, p, UNIT, 1) == 5 * UNIT
  {
    var p := Params(UNIT, UNIT, UINT64_MODULUS - 1, 10, 0);
    assert ToInt64(p.blocksPerYear) == -1;
    assert Quo(0, UNIT) == 0 && Mul(UNIT, UNIT) == UNIT && Quo(UNIT, -UNIT) == -UNIT;
    assert Quo(UNIT, UNIT) == UNIT && Mul(0, UNIT) == 0 && Quo(0, -UNIT) == 0;
    assert TokenShare(10, 1) == 10 * UNIT && TokenShare(0, 1) == 0;
  }

  // ---------------------------------------------------------------- how far one block moves the inflation

  /**
   A year of blocks of this change moves the inflation by (1 - ratio / goal) of the yearly rate change, up to a unit
   of the last place for each block and two more.
   */
  predicate IsStep(p: Params, ratio: int, change: int)
    requires p.Validate()
  {
    var (n, goal) := (Parts(p) + 2, p.goalBonded);
    -(n * goal) < (change * Divisor(p)) * goal - (goal - ratio) * p.inflationRateChange < n * goal
  }

  /** What the product of the rate change and the gap to the goal misses, multiplied out. */
  lemma YearlyChangeClose(ratio: int, goal: int, rate: int)
    requires 0 < goal <= UNIT && 0 <= rate <= UNIT
    ensures var perYear := Mul(UNIT - Quo(ratio, goal), rate);
            -(2 * goal) < perYear * goal - (goal - ratio) * rate < 2 * goal
  {
    var q := Quo(ratio, goal);
    QuoClose(ratio, goal);
    ChopNearest((UNIT - q) * rate);
    TwoMisses(Mul(UNIT - q, rate), q, ratio, goal, rate);
  }

  lemma TwoMisses(perYear: int, q: int, ratio: int, goal: int, rate: int)
    requires 0 < goal <= UNIT && 0 <= rate <= UNIT
    requires -goal < q * goal - ratio * UNIT < goal
    requires -HALF <= perYear * UNIT - (UNIT - q) * rate <= HALF
    ensures -(2 * goal) < perYear * goal - (goal - ratio) * rate < 2 * goal
  {
    var (miss, gap) := (perYear * UNIT - (UNIT - q) * rate, ratio * UNIT - q * goal);
    MulMonotone(-HALF, miss, goal);
    MulMonotone(miss, HALF, goal);
    MulMonotone(-goal, gap, rate);
    MulMonotone(gap, goal, rate);
    MulMonotone(rate, UNIT, goal);
    Expand(perYear, q, ratio, goal, rate);
    CancelUnit(-(2 * goal), perYear * goal - (goal - ratio) * rate);
    CancelUnit(perYear * goal - (goal - ratio) * rate, 2 * goal);
  }

  lemma Expand(perYear: int, q: int, ratio: int, goal: int, rate: int)
    ensures (perYear * goal - (goal - ratio) * rate) * UNIT
            == (perYear * UNIT - (UNIT - q) * rate) * goal + (ratio * UNIT - q * goal) * rate
  {
    assert ((UNIT - q) * rate) * goal == (goal * rate) * UNIT - (q * goal) * rate;
    assert (perYear * UNIT - (UNIT - q) * rate) * goal == (perYear * goal) * UNIT - ((UNIT - q) * rate) * goal;
    assert (ratio * UNIT - q * goal) * rate == (ratio * rate) * UNIT - (q * goal) * rate;
    assert (goal - ratio) * rate == goal * rate - ratio * rate;
  }

  lemma RateChangeIsStep(p: Params, ratio: int)
    requires p.Validate()
    ensures IsStep(p, ratio, RateChange(p, ratio))
  {
    var goal := p.goalBonded;
    var perYear := Mul(UNIT - Quo(ratio, goal), p.inflationRateChange);
    YearlyChangeClose(ratio, goal, p.inflationRateChange);
    QuoClose(perYear, FromInt(Divisor(p)));
    BlocksOfYear(RateChange(p, ratio), Divisor(p), Parts(p), perYear, goal, (goal - ratio) * p.inflationRateChange);
  }

  lemma BlocksOfYear(change: int, b: int, n: int, perYear: int, goal: int, exact: int)
    requires n > 0 && goal > 0 && -(n * UNIT) < change * (b * UNIT) - perYear * UNIT < n * UNIT
    requires -(2 * goal) < perYear * goal - exact < 2 * goal
    ensures -((n + 2) * goal) < (change * b) * goal - exact < (n + 2) * goal
  {
    assert change * (b * UNIT) == (change * b) * UNIT;
    CancelUnit(-n, change * b - perYear);
    CancelUnit(change * b - perYear, n);
    MulMonotone(-n, change * b - perYear, goal);
    MulMonotone(change * b - perYear, n, goal);
    assert (change * b - perYear) * goal == (change * b) * goal - perYear * goal;
    assert (n + 2) * goal == n * goal + 2 * goal;
  }

  function Clamped(x: int, low: int, high: int): int {
    if x > high then (if high < low then low else high) else if x < low then low else x
  }

  /**
   One block moves the inflation by such a step and keeps it between the shares of the minimum and the maximum;
   without a supply it leaves it alone.
   */
  lemma InflationStep(m: Minter, p: Params, ratio: int, supply: nat)
    requires p.Validate()
    ensures var next := NextInflationRate(m, p, ratio, supply);
            if supply == 0 then next == m.inflation
            else
              exists change :: IsStep(p, ratio, change)
                && next == Clamped(m.inflation + change, TokenShare(p.minTokenPerYear, supply),
                                   TokenShare(p.maxTokenPerYear, supply))
  {
    if supply > 0 {
      RateChangeIsStep(p, ratio);
      QuoMonotone(FromInt(p.minTokenPerYear), FromInt(p.maxTokenPerYear), FromInt(supply));
      assert NextInflationRate(m, p, ratio, supply)
          == Clamped(m.inflation + RateChange(p, ratio), TokenShare(p.minTokenPerYear, supply),
                     TokenShare(p.maxTokenPerYear, supply));
    }
  }

  // ---------------------------------------------------------------- provisions stay near the configured band

  /** A share of the supply, taken of the supply again, misses the tokens by less than one unit per token of supply. */
  lemma ShareIsClose(tokens: int, supply: int)
    requires supply > 0
    ensures -supply < TokenShare(tokens, supply) * supply - tokens * UNIT < supply
  {
    QuoClose(FromInt(tokens), FromInt(supply));
    DropUnit(TokenShare(tokens, supply), supply, tokens);
  }

  lemma DropUnit(share: int, supply: int, tokens: int)
    requires -(supply * UNIT) < share * (supply * UNIT) - (tokens * UNIT) * UNIT < supply * UNIT
    ensures -supply < share * supply - tokens * UNIT < supply
  {
    assert share * (supply * UNIT) == (share * supply) * UNIT;
    CancelUnit(-supply, share * supply - tokens * UNIT);
    CancelUnit(share * supply - tokens * UNIT, supply);
  }

  lemma InflationInBand(m: Minter, p: Params, bondedRatio: int, supply: int)
    requires p.Validate() && supply > 0
    ensures TokenShare(p.minTokenPerYear, supply) <= NextInflationRate(m, p, bondedRatio, supply)
            <= TokenShare(p.maxTokenPerYear, supply)
  {
    QuoMonotone(FromInt(p.minTokenPerYear), FromInt(p.maxTokenPerYear), FromInt(supply));
  }

  /** For any positive supply, the annual provisions stay within supply / 10^18 tokens of the configured band. */
  lemma ProvisionsInBand(m: Minter, p: Params, st: Staking)
    requires p.Validate() && st.supply > 0
    ensures FromInt(p.minTokenPerYear) - st.supply < NextMinter(m, p, st).annualProvisions
            < FromInt(p.maxTokenPerYear) + st.supply
  {
    InflationInBand(m, p, st.bondedRatio, st.supply);
    ShareIsClose(p.minTokenPerYear, st.supply);
    ShareIsClose(p.maxTokenPerYear, st.supply);
    var inflation := NextMinter(m, p, st).inflation;
    MulMonotone(TokenShare(p.minTokenPerYear, st.supply), inflation, st.supply);
    MulMonotone(inflation, TokenShare(p.maxTokenPerYear, st.supply), st.supply);
  }

  // ---------------------------------------------------------------- the provision of a block

  /** The divisor of a block: the blocks per year as an int64, which is negative past the largest one. */
  function Divisor(p: Params): int
    requires p.Validate()
    ensures Divisor(p) != 0
  {
    ToInt64(p.blocksPerYear)
  }

  function Parts(p: Params): (n: int)
    requires p.Validate()
    ensures n > 0 && (p.blocksPerYear <= MAX_INT64 ==> n == p.blocksPerYear)
  {
    if Divisor(p) > 0 then Divisor(p) else -Divisor(p)
  }

  /** What is paid out in a year: the annual provisions, or their opposite where the divisor is negative. */
  function Yearly(p: Params, annual: int): int
    requires p.Validate()
  {
    if Divisor(p) > 0 then annual else -annual
  }

  /** The tokens a year pays at most, and those it would have to take back at most. */
  function PaySide(p: Params): int
    requires p.Validate()
  {
    if Divisor(p) > 0 then p.maxTokenPerYear else -p.minTokenPerYear
  }

  function FailSide(p: Params): int
    requires p.Validate()
  {
    if Divisor(p) > 0 then -p.minTokenPerYear else p.maxTokenPerYear
  }

  function Max(a: int, b: int): int {
    if a > b then a else b
  }

  lemma QuotientBounds(x: int, n: int, q: int, v: int)
    requires n > 0 && q * n <= x < q * n + n && v * UNIT <= q < v * UNIT + UNIT
    ensures (v * UNIT) * n <= x < ((v + 1) * UNIT) * n
    ensures x < n * UNIT <==> q < UNIT
  {
    MulMonotone(v * UNIT, q, n);
    MulMonotone(q + 1, (v + 1) * UNIT, n);
    assert (q + 1) * n == q * n + n;
    if q < UNIT {
      MulMonotone(q + 1, UNIT, n);
    } else {
      MulMonotone(UNIT, q, n);
    }
  }

  lemma NestedQuotient(x: nat, n: int)
    requires n > 0
    ensures var v := (x / n) / UNIT; v >= 0 && (v * UNIT) * n <= x < ((v + 1) * UNIT) * n && (v == 0 <==> x < n * UNIT)
  {
    QuotientOfNatural(x, n);
    QuotientOfNatural(x / n, UNIT);
    QuotientBounds(x, n, x / n, (x / n) / UNIT);
  }

  lemma TruncTwiceIs(a: int, n: int)
    requires n > 0
    ensures TruncateInt(TruncQuo(a, n)) == if a >= 0 then (a / n) / UNIT else -(((-a) / n) / UNIT)
  {
    QuotientOfNatural(if a >= 0 then a else -a, n);
  }

  lemma TruncTwice(a: int, n: int)
    requires n > 0
    ensures TruncateInt(TruncQuo(a, n)) < 0 <==> a <= -(n * UNIT)
    ensures a >= 0 ==> var v := TruncateInt(TruncQuo(a, n)); v >= 0 && (v * UNIT) * n <= a < ((v + 1) * UNIT) * n
    ensures -(n * UNIT) < a < 0 ==> TruncateInt(TruncQuo(a, n)) == 0
  {
    TruncTwiceIs(a, n);
    NestedQuotient(if a >= 0 then a else -a, n);
  }

  lemma SignMoves(a: int, d: int)
    requires d < 0
    ensures TruncQuo(a, d) == TruncQuo(-a, -d)
  {
    if a == 0 {
      QuotientOfNatural(0, -d);
    }
  }

  /**
   A block fails exactly if a year of blocks would take a whole unit or more back each; otherwise its provision is
   the largest whole amount that, over a year of blocks, fits what the year pays out.
   */
  lemma ProvisionExact(m: Minter, p: Params)
    requires p.Validate()
    ensures var (a, n, r) := (Yearly(p, m.annualProvisions), Parts(p), BlockProvision(m, p));
            && (r.None? <==> a <= -(n * UNIT))
            && (r.Some? ==> r.value >= 0 && (r.value * UNIT) * n <= Max(a, 0) < ((r.value + 1) * UNIT) * n)
  {
    var a, n := Yearly(p, m.annualProvisions), Parts(p);
    if Divisor(p) < 0 {
      SignMoves(m.annualProvisions, Divisor(p));
    }
    TruncTwice(a, n);
    assert (0 * UNIT) * n == 0 && ((0 + 1) * UNIT) * n == n * UNIT;
  }
}
