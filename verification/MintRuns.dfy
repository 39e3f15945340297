/** When blocks fail, when they pay, and how much a number of them pays. */
module MintRuns {
  import opened Wrappers
  import opened Bytes
  import opened Integers
  import opened Decimals
  import opened Mint

  // ---------------------------------------------------------------- shares of the supply

  lemma ShareOfNegative(tokens: int, supply: int)
    requires supply > 0
    ensures TokenShare(-tokens, supply) == -TokenShare(tokens, supply)
    ensures tokens <= 0 ==> TokenShare(tokens, supply) <= 0
  {
    var x := FromInt(tokens) * (UNIT * UNIT);
    assert FromInt(-tokens) * (UNIT * UNIT) == -x;
    if x == 0 {
      QuotientOfNatural(0, FromInt(supply));
    }
    TruncClose(-x, FromInt(supply));
  }

  lemma ChopTwice(v: nat)
    ensures Chop(v) * (UNIT + 2) <= 2 * v
  {
    ChopNearest(v);
    var k := Chop(v);
    if k == 1 {
      assert v > HALF;
    } else if k > 1 {
      assert k * UNIT >= 2 * UNIT;
    }
  }

  lemma ScaleUp(k: int, v: int, supply: int, tokens: int)
    requires supply > 0 && k * (UNIT + 2) <= 2 * v && v * supply <= tokens * (UNIT * UNIT)
    ensures (k * supply) * (UNIT + 2) <= 2 * (tokens * (UNIT * UNIT))
  {
    MulMonotone(k * (UNIT + 2), 2 * v, supply);
    assert (k * (UNIT + 2)) * supply == (k * supply) * (UNIT + 2);
    assert (2 * v) * supply == 2 * (v * supply);
  }

  /** A share of the supply, taken of the supply again, is less than twice the tokens. */
  lemma ShareWithinTwice(tokens: nat, supply: int)
    requires supply > 0
    ensures (TokenShare(tokens, supply) * supply) * (UNIT + 2) <= 2 * (tokens * (UNIT * UNIT))
  {
    var v := TruncQuo(FromInt(tokens) * (UNIT * UNIT), FromInt(supply));
    TruncClose(FromInt(tokens) * (UNIT * UNIT), FromInt(supply));
    assert v * FromInt(supply) == (v * supply) * UNIT;
    assert FromInt(tokens) * (UNIT * UNIT) == (tokens * (UNIT * UNIT)) * UNIT;
    if v * supply > tokens * (UNIT * UNIT) {
      CancelUnit(v * supply, tokens * (UNIT * UNIT));
    }
    ChopTwice(v);
    ScaleUp(TokenShare(tokens, supply), v, supply, tokens);
  }

  lemma AnnualOf(m: Minter, p: Params, st: Staking)
    requires p.Validate()
    ensures NextMinter(m, p, st).annualProvisions == NextInflationRate(m, p, st.bondedRatio, st.supply) * st.supply
  {
  }

  lemma Between(low: int, x: int, high: int, n: nat)
    requires low <= x <= high
    ensures low * n <= x * n <= high * n && (-low) * n == -(low * n)
  {
    MulMonotone(low, x, n);
    MulMonotone(x, high, n);
  }

  lemma ShareIsOne(tokens: int, n: int)
    requires n > 0 && 2 * (tokens * UNIT) >= n * (UNIT + 2)
    ensures TokenShare(tokens, n * UNIT) >= 1
  {
    var d := FromInt(n * UNIT);
    var v := TruncQuo(FromInt(tokens) * (UNIT * UNIT), d);
    TruncClose(FromInt(tokens) * (UNIT * UNIT), d);
    assert FromInt(tokens) * (UNIT * UNIT) == (tokens * UNIT) * (UNIT * UNIT);
    assert tokens * UNIT >= n * (HALF + 1);
    MulMonotone(n * (HALF + 1), tokens * UNIT, UNIT * UNIT);
    assert (n * (HALF + 1)) * (UNIT * UNIT) == (HALF + 1) * d;
    if v <= HALF {
      MulMonotone(v, HALF, d);
    }
    ChopNearest(v);
  }

  lemma BelowOneUnit(taken: int, side: int, n: int)
    requires n > 0 && taken * (UNIT + 2) <= 2 * (side * (UNIT * UNIT)) && 2 * (side * UNIT) < n * (UNIT + 2)
    ensures taken < n * UNIT
  {
    assert 2 * (side * (UNIT * UNIT)) == (2 * (side * UNIT)) * UNIT;
    assert (n * (UNIT + 2)) * UNIT == (n * UNIT) * (UNIT + 2);
    if taken >= n * UNIT {
      MulMonotone(n * UNIT, taken, UNIT + 2);
    }
  }

  /** So many tokens a year never come to a whole unit each for n blocks, whatever the supply. */
  predicate TooFew(tokens: int, n: int) {
    2 * (tokens * UNIT) < n * (UNIT + 2)
  }

  lemma TooFewIsLessThanUnits(tokens: int, n: int, supply: int)
    requires n > 0 && supply > 0 && TooFew(tokens, n)
    ensures TokenShare(tokens, supply) * supply < n * UNIT
  {
    if tokens <= 0 {
      ShareOfNegative(tokens, supply);
      MulMonotone(TokenShare(tokens, supply), 0, supply);
    } else {
      ShareWithinTwice(tokens, supply);
      BelowOneUnit(TokenShare(tokens, supply) * supply, tokens, n);
    }
  }

  /** What a year pays or takes back is at most the share of its side. */
  lemma YearlyWithinSides(m: Minter, p: Params, st: Staking)
    requires p.Validate() && st.supply > 0
    ensures var yearly := Yearly(p, NextMinter(m, p, st).annualProvisions);
            && yearly <= TokenShare(PaySide(p), st.supply) * st.supply
            && -yearly <= TokenShare(FailSide(p), st.supply) * st.supply
  {
    InflationInBand(m, p, st.bondedRatio, st.supply);
    var inflation := NextInflationRate(m, p, st.bondedRatio, st.supply);
    AnnualOf(m, p, st);
    ShareOfNegative(p.minTokenPerYear, st.supply);
    Between(TokenShare(p.minTokenPerYear, st.supply), inflation, TokenShare(p.maxTokenPerYear, st.supply), st.supply);
  }

  // ---------------------------------------------------------------- when a block fails, and when it pays

  /** The settings under which no block can fail. */
  predicate NeverFails(p: Params)
    requires p.Validate()
  {
    TooFew(FailSide(p), Parts(p))
  }

  /** The settings under which no block can pay. */
  predicate NeverPays(p: Params)
    requires p.Validate()
  {
    TooFew(PaySide(p), Parts(p))
  }

  lemma SafeBlock(s: State, p: Params, st: Staking)
    requires p.Validate() && NeverFails(p)
    ensures Block(s, p, st).Some?
  {
    ProvisionExact(NextMinter(s.minter, p, st), p);
    if st.supply > 0 {
      YearlyWithinSides(s.minter, p, st);
      TooFewIsLessThanUnits(FailSide(p), Parts(p), st.supply);
    }
  }

  lemma IdleBlock(s: State, p: Params, st: Staking)
    requires p.Validate() && NeverPays(p) && Block(s, p, st).Some?
    ensures Block(s, p, st).value.collector == s.collector
  {
    ProvisionExact(NextMinter(s.minter, p, st), p);
    if st.supply > 0 {
      YearlyWithinSides(s.minter, p, st);
      TooFewIsLessThanUnits(PaySide(p), Parts(p), st.supply);
    }
    NothingFits(BlockProvision(NextMinter(s.minter, p, st), p).value, Parts(p));
  }

  lemma NothingFits(v: int, n: int)
    requires n > 0 && v >= 0
    ensures (v * UNIT) * n < n * UNIT ==> v == 0
  {
    if v > 0 {
      MulMonotone(UNIT, v * UNIT, n);
    }
  }

  /** The supply at which the rounding is worst. */
  function WorstStaking(p: Params): Staking
    requires p.Validate()
  {
    Staking(Parts(p) * UNIT, 0)
  }

  /** A minter whose next inflation at that supply is the lower or the upper clamp. */
  function ClampedMinter(p: Params, low: bool): Minter
    requires p.Validate()
  {
    var supply := Parts(p) * UNIT;
    var inflation :=
      if low then TokenShare(p.minTokenPerYear, supply) - 1 else TokenShare(p.maxTokenPerYear, supply) + 1;
    Minter(inflation - RateChange(p, 0), 0)
  }

  lemma ClampedInflation(p: Params, low: bool)
    requires p.Validate()
    ensures var supply := Parts(p) * UNIT;
            NextInflationRate(ClampedMinter(p, low), p, 0, supply)
            == if low then TokenShare(p.minTokenPerYear, supply) else TokenShare(p.maxTokenPerYear, supply)
  {
    var supply := Parts(p) * UNIT;
    QuoMonotone(FromInt(p.minTokenPerYear), FromInt(p.maxTokenPerYear), FromInt(supply));
  }

  function FailingState(p: Params): State
    requires p.Validate()
  {
    State(ClampedMinter(p, Divisor(p) > 0), 0, 0)
  }

  /** Such a minter, and a pool that holds what it pays. */
  function PayingState(p: Params): State
    requires p.Validate()
  {
    State(ClampedMinter(p, Divisor(p) < 0), TokenShare(PaySide(p), Parts(p) * UNIT), 0)
  }

  lemma ShareTakenBack(p: Params, supply: int, inflation: int, annual: int)
    requires p.Validate() && supply > 0 && annual == inflation * supply
    requires if Divisor(p) > 0 then inflation <= -1 else inflation >= 1
    ensures Yearly(p, annual) <= -supply
  {
    if Divisor(p) > 0 {
      MulMonotone(inflation, -1, supply);
    } else {
      MulMonotone(1, inflation, supply);
    }
  }

  /** Under any other settings, this block fails. */
  lemma FailingBlock(p: Params)
    requires p.Validate() && !NeverFails(p)
    ensures Block(FailingState(p), p, WorstStaking(p)).None?
  {
    var m, supply := FailingState(p).minter, Parts(p) * UNIT;
    ClampedInflation(p, Divisor(p) > 0);
    AnnualOf(m, p, WorstStaking(p));
    ShareIsOne(FailSide(p), Parts(p));
    ShareOfNegative(p.minTokenPerYear, supply);
    ShareTakenBack(p, supply, NextInflationRate(m, p, 0, supply), NextMinter(m, p, WorstStaking(p)).annualProvisions);
    ProvisionExact(NextMinter(m, p, WorstStaking(p)), p);
  }

  /** Whole units each: the share itself is the provision. */
  lemma ExactUnits(v: int, k: int, n: int)
    requires n > 0 && k >= 1 && (v * UNIT) * n <= k * (n * UNIT) < ((v + 1) * UNIT) * n
    ensures v == k
  {
    assert (v * UNIT) * n == v * (n * UNIT) && ((v + 1) * UNIT) * n == (v + 1) * (n * UNIT);
    if v > k {
      MulMonotone(k + 1, v, n * UNIT);
    } else if v < k {
      MulMonotone(v + 1, k, n * UNIT);
    }
  }

  lemma YearlyOfShare(p: Params, supply: int, inflation: int, share: int)
    requires p.Validate() && inflation == if Divisor(p) > 0 then share else -share
    ensures Yearly(p, inflation * supply) == share * supply
  {
    assert (-share) * supply == -(share * supply);
  }

  /** Under any other settings, this block pays. */
  lemma PayingBlock(p: Params)
    requires p.Validate() && !NeverPays(p)
    ensures PayingState(p).pool >= 0 && Block(PayingState(p), p, WorstStaking(p)).Some?
    ensures Block(PayingState(p), p, WorstStaking(p)).value.collector == PayingState(p).pool >= 1
  {
    var m, supply := PayingState(p).minter, Parts(p) * UNIT;
    var share := TokenShare(PaySide(p), supply);
    ClampedInflation(p, Divisor(p) < 0);
    AnnualOf(m, p, WorstStaking(p));
    ShareIsOne(PaySide(p), Parts(p));
    ShareOfNegative(p.minTokenPerYear, supply);
    YearlyOfShare(p, supply, NextInflationRate(m, p, 0, supply), share);
    MulMonotone(1, share, supply);
    ProvisionExact(NextMinter(m, p, WorstStaking(p)), p);
    ExactUnits(BlockProvision(NextMinter(m, p, WorstStaking(p)), p).value, share, Parts(p));
  }

  /** No minter and no state of the staking module makes a block fail, exactly under these settings. */
  lemma BlocksFailOnlyIf(p: Params)
    requires p.Validate()
    ensures NeverFails(p) <==> forall s: State, st: Staking :: Block(s, p, st).Some?
    ensures p.blocksPerYear <= MAX_INT64 && p.minTokenPerYear >= 0 ==> NeverFails(p)
  {
    if NeverFails(p) {
      forall s: State, st: Staking ensures Block(s, p, st).Some? {
        SafeBlock(s, p, st);
      }
    } else {
      FailingBlock(p);
    }
  }

  /** No minter, no pool and no state of the staking module makes a block pay, exactly under these settings. */
  lemma BlocksPayOnlyIf(p: Params)
    requires p.Validate()
    ensures NeverPays(p)
            <==> forall s: State, st: Staking :: s.pool >= 0 && Block(s, p, st).Some? ==>
                   Block(s, p, st).value.collector == s.collector
    ensures p.blocksPerYear > MAX_INT64 && p.minTokenPerYear >= 0 ==> NeverPays(p)
  {
    if NeverPays(p) {
      forall s: State, st: Staking | s.pool >= 0 && Block(s, p, st).Some?
        ensures Block(s, p, st).value.collector == s.collector
      {
        IdleBlock(s, p, st);
      }
    } else {
      PayingBlock(p);
    }
  }

  // ---------------------------------------------------------------- blocks in a row

  function Blocks(s: State, p: Params, sts: seq<Staking>): Option<State>
    requires p.Validate()
  {
    if sts == [] then Some(s)
    else
      match Blocks(s, p, sts[..|sts| - 1])
      case None => None
      case Some(before) => Block(before, p, sts[|sts| - 1])
  }

  // ---------------------------------------------------------------- where the inflation goes

  /** Each block keeps the inflation away from both clamps. */
  predicate Unclamped(s: State, p: Params, sts: seq<Staking>)
    requires p.Validate()
  {
    sts == []
    || (var (init, st) := (sts[..|sts| - 1], sts[|sts| - 1]);
        && Unclamped(s, p, init) && st.supply > 0 && Blocks(s, p, sts).Some?
        && TokenShare(p.minTokenPerYear, st.supply) < Blocks(s, p, sts).value.minter.inflation
           < TokenShare(p.maxTokenPerYear, st.supply))
  }

  /** The gaps between the goal and the bonded ratios of the blocks, added up. */
  function Gaps(p: Params, sts: seq<Staking>): int {
    if sts == [] then 0
    else Gaps(p, sts[..|sts| - 1]) + (p.goalBonded - sts[|sts| - 1].bondedRatio)
  }

  /** The inflation after some blocks, if none of them failed. */
  function InflationAfter(s: State, p: Params, sts: seq<Staking>): int
    requires p.Validate() && Blocks(s, p, sts).Some?
  {
    Blocks(s, p, sts).value.minter.inflation
  }

  lemma LastBlock(s: State, p: Params, sts: seq<Staking>)
    requires p.Validate() && sts != [] && Unclamped(s, p, sts)
    ensures var (init, st) := (sts[..|sts| - 1], sts[|sts| - 1]);
            && Unclamped(s, p, init) && st.supply > 0 && Blocks(s, p, init).Some? && Blocks(s, p, sts).Some?
            && Block(Blocks(s, p, init).value, p, st) == Blocks(s, p, sts)
            && TokenShare(p.minTokenPerYear, st.supply) < InflationAfter(s, p, sts)
               < TokenShare(p.maxTokenPerYear, st.supply)
  {
  }

  lemma OneStep(s: State, p: Params, st: Staking, s': State)
    requires p.Validate() && st.supply > 0 && Block(s, p, st) == Some(s')
    requires TokenShare(p.minTokenPerYear, st.supply) < s'.minter.inflation < TokenShare(p.maxTokenPerYear, st.supply)
    ensures IsStep(p, st.bondedRatio, s'.minter.inflation - s.minter.inflation)
  {
    InflationStep(s.minter, p, st.bondedRatio, st.supply);
  }

  /**
   The inflation moved by the yearly rate change times these gaps to the goal, over the goal and the blocks per year,
   up to this error.
   */
  predicate Near(p: Params, moved: int, gaps: int, error: int)
    requires p.Validate()
  {
    -error <= (moved * Divisor(p)) * p.goalBonded - gaps * p.inflationRateChange <= error
  }

  /** The error of one block: a unit of the last place for each block of a year, and two more, times the goal. */
  function BlockError(p: Params): int
    requires p.Validate()
  {
    (Parts(p) + 2) * p.goalBonded
  }

  lemma StepsAddUp(moved: int, change: int, b: int, goal: int, gaps: int, gap: int, rate: int, e: int, total: int)
    requires -total <= (moved * b) * goal - gaps * rate <= total && -e < (change * b) * goal - gap * rate < e
    ensures -(total + e) <= ((moved + change) * b) * goal - (gaps + gap) * rate <= total + e
  {
    assert ((moved + change) * b) * goal == (moved * b) * goal + (change * b) * goal;
    assert (gaps + gap) * rate == gaps * rate + gap * rate;
  }

  lemma StepMoves(p: Params, ratio: int, start: int, mid: int, end: int, gaps: int, e: int)
    requires p.Validate() && IsStep(p, ratio, end - mid) && Near(p, mid - start, gaps, e)
    ensures Near(p, end - start, gaps + (p.goalBonded - ratio), e + BlockError(p))
  {
    StepsAddUp(mid - start, end - mid, Divisor(p), p.goalBonded, gaps, p.goalBonded - ratio, p.inflationRateChange,
               BlockError(p), e);
  }

  lemma NotMoved(p: Params)
    requires p.Validate()
    ensures Near(p, 0, 0, 0)
  {
  }

  /** The step of the last block, between the inflation before it and after it. */
  lemma LastStep(s: State, p: Params, sts: seq<Staking>) returns (before: int, after: int)
    requires p.Validate() && sts != [] && Unclamped(s, p, sts)
    ensures var init := sts[..|sts| - 1];
            && Unclamped(s, p, init) && Blocks(s, p, init).Some? && Blocks(s, p, sts).Some?
            && before == InflationAfter(s, p, init) && after == InflationAfter(s, p, sts)
    ensures IsStep(p, sts[|sts| - 1].bondedRatio, after - before)
  {
    var (init, st) := (sts[..|sts| - 1], sts[|sts| - 1]);
    LastBlock(s, p, sts);
    OneStep(Blocks(s, p, init).value, p, st, Blocks(s, p, sts).value);
    before, after := InflationAfter(s, p, init), InflationAfter(s, p, sts);
  }

  lemma {:induction false} InflationMoved(s: State, p: Params, sts: seq<Staking>) returns (after: int, error: int)
    requires p.Validate() && Unclamped(s, p, sts)
    ensures Blocks(s, p, sts).Some? && after == InflationAfter(s, p, sts) && error == Times(BlockError(p), |sts|)
    ensures Near(p, after - s.minter.inflation, Gaps(p, sts), error)
  {
    if sts == [] {
      NotMoved(p);
      after, error := s.minter.inflation, 0;
    } else {
      var init := sts[..|sts| - 1];
      var before: int;
      before, after := LastStep(s, p, sts);
      var mid, e := InflationMoved(s, p, init);
      StepMoves(p, sts[|sts| - 1].bondedRatio, s.minter.inflation, mid, after, Gaps(p, init), e);
      error := e + BlockError(p);
    }
  }

  /**
   Over any blocks none of which is clamped, the inflation moves by the yearly rate change times the gaps to the goal
   added up, over the goal and the blocks per year, up to little more than a unit of the last place for each block.
   */
  lemma InflationFollowsRatios(s: State, p: Params, sts: seq<Staking>)
    requires p.Validate() && Unclamped(s, p, sts)
    ensures Blocks(s, p, sts).Some?
    ensures Near(p, InflationAfter(s, p, sts) - s.minter.inflation, Gaps(p, sts), |sts| * BlockError(p))
  {
    var after, error := InflationMoved(s, p, sts);
    TimesIsProduct(BlockError(p), |sts|);
  }

  lemma {:induction false} NothingBonded(p: Params, sts: seq<Staking>)
    requires forall i :: 0 <= i < |sts| ==> sts[i].bondedRatio == 0
    ensures Gaps(p, sts) == Times(p.goalBonded, |sts|)
  {
    if sts != [] {
      NothingBonded(p, sts[..|sts| - 1]);
    }
  }

  lemma DivideOut(moved: int, n: int, goal: int, rate: int)
    requires n > 0 && goal > 0
    requires -(n * ((n + 2) * goal)) <= (moved * n) * goal - (n * goal) * rate <= n * ((n + 2) * goal)
    ensures -(n + 2) <= moved - rate <= n + 2
  {
    var k := n * goal;
    assert k > 0 && (moved * n) * goal == moved * k && n * ((n + 2) * goal) == (n + 2) * k && k * rate == rate * k;
    if moved - rate > n + 2 {
      MulMonotone(n + 3, moved - rate, k);
    } else if moved - rate < -(n + 2) {
      MulMonotone(moved - rate, -(n + 3), k);
    }
  }

  /** A year of such blocks with nothing bonded raises the inflation by the yearly rate change, up to that rounding. */
  lemma YearWithNothingBonded(s: State, p: Params, sts: seq<Staking>)
    requires p.Validate() && p.blocksPerYear <= MAX_INT64 && |sts| == p.blocksPerYear && Unclamped(s, p, sts)
    requires forall i :: 0 <= i < |sts| ==> sts[i].bondedRatio == 0
    ensures Blocks(s, p, sts).Some?
    ensures var moved := InflationAfter(s, p, sts) - s.minter.inflation;
            p.inflationRateChange - (|sts| + 2) <= moved <= p.inflationRateChange + (|sts| + 2)
  {
    InflationFollowsRatios(s, p, sts);
    NothingBonded(p, sts);
    TimesIsProduct(p.goalBonded, |sts|);
    DivideOut(InflationAfter(s, p, sts) - s.minter.inflation, |sts|, p.goalBonded, p.inflationRateChange);
  }

  // ---------------------------------------------------------------- chains that never fail

  /** What the staking module can report: a bonded ratio between nothing and everything. */
  predicate RealRatios(sts: seq<Staking>) {
    forall i :: 0 <= i < |sts| ==> 0 <= sts[i].bondedRatio <= UNIT
  }

  /**
   The settings under which no chain fails that starts from an inflation that is not negative: no block can fail at
   all, or the inflation never falls below zero, because the maximum is not below it and a fully bonded supply
   does not lower it.
   */
  predicate RunsNeverFail(p: Params)
    requires p.Validate()
  {
    NeverFails(p) || (Divisor(p) > 0 && p.maxTokenPerYear >= 0 && RateChange(p, UNIT) >= 0)
  }

  lemma {:induction false} BlocksSucceed(s: State, p: Params, sts: seq<Staking>)
    requires p.Validate() && NeverFails(p)
    ensures Blocks(s, p, sts).Some?
  {
    if sts != [] {
      BlocksSucceed(s, p, sts[..|sts| - 1]);
      SafeBlock(Blocks(s, p, sts[..|sts| - 1]).value, p, sts[|sts| - 1]);
    }
  }

  lemma ShareNotNegative(tokens: int, supply: int)
    requires tokens >= 0 && supply > 0
    ensures TokenShare(tokens, supply) >= 0
  {
    ShareOfNegative(-tokens, supply);
  }

  lemma RisingBlock(s: State, p: Params, st: Staking)
    requires p.Validate() && Divisor(p) > 0 && p.maxTokenPerYear >= 0 && RateChange(p, UNIT) >= 0
    requires s.minter.inflation >= 0 && st.bondedRatio <= UNIT
    ensures Block(s, p, st).Some? && Block(s, p, st).value.minter.inflation >= 0
  {
    var m := NextMinter(s.minter, p, st);
    RateChangeAntitone(p, st.bondedRatio, UNIT);
    if st.supply > 0 {
      ShareNotNegative(p.maxTokenPerYear, st.supply);
      MulMonotone(0, m.inflation, st.supply);
    }
    AnnualOf(s.minter, p, st);
    ProvisionExact(m, p);
  }

  lemma {:induction false} RisingBlocks(s: State, p: Params, sts: seq<Staking>)
    requires p.Validate() && Divisor(p) > 0 && p.maxTokenPerYear >= 0 && RateChange(p, UNIT) >= 0
    requires s.minter.inflation >= 0 && RealRatios(sts)
    ensures Blocks(s, p, sts).Some? && Blocks(s, p, sts).value.minter.inflation >= 0
  {
    if sts != [] {
      RisingBlocks(s, p, sts[..|sts| - 1]);
      RisingBlock(Blocks(s, p, sts[..|sts| - 1]).value, p, sts[|sts| - 1]);
    }
  }

  /** One fully bonded token, then a fully bonded supply at which the rounding is worst. */
  function FallingChain(p: Params): seq<Staking>
    requires p.Validate()
  {
    [Staking(1, UNIT), Staking(Parts(p) * UNIT, UNIT)]
  }

  lemma SmallSupply(p: Params)
    requires p.Validate()
    ensures TokenShare(p.maxTokenPerYear, 1) == FromInt(p.maxTokenPerYear)
    ensures TokenShare(p.minTokenPerYear, 1) == FromInt(p.minTokenPerYear)
  {
    ShareOfOne(p.maxTokenPerYear);
    ShareOfOne(p.minTokenPerYear);
  }

  lemma ShareOfOne(tokens: int)
    ensures TokenShare(tokens, 1) == FromInt(tokens)
  {
    var x := FromInt(tokens) * (UNIT * UNIT);
    assert x == (FromInt(tokens) * UNIT) * FromInt(1);
    TruncExact(FromInt(tokens) * UNIT, FromInt(1));
    ChopNearest(FromInt(tokens) * UNIT);
  }

  lemma TruncExact(q: int, d: int)
    requires d > 0
    ensures TruncQuo(q * d, d) == q
  {
    var x := if q < 0 then -q else q;
    DivBetween(x * d, x, d);
    if q < 0 {
      assert -(q * d) == x * d;
      MulMonotone(1, x, d);
    } else {
      MulMonotone(0, q, d);
    }
  }

  /** A block at the smallest supply with all of it bonded leaves a negative inflation behind. */
  lemma FallsBelowZero(p: Params, m: Minter)
    requires p.Validate() && Divisor(p) > 0 && p.minTokenPerYear < 0 && m.inflation == 0
    requires p.maxTokenPerYear < 0 || RateChange(p, UNIT) < 0
    ensures NextInflationRate(m, p, UNIT, 1) <= -1
  {
    SmallSupply(p);
    QuotaOfGoal(p);
  }

  /** A fully bonded supply never raises the inflation. */
  lemma QuotaOfGoal(p: Params)
    requires p.Validate() && Divisor(p) > 0
    ensures RateChange(p, UNIT) <= 0
  {
    GoalReached(p);
    RateChangeAntitone(p, p.goalBonded, UNIT);
  }

  /** At the goal itself the inflation does not move. */
  lemma GoalReached(p: Params)
    requires p.Validate()
    ensures RateChange(p, p.goalBonded) == 0
  {
    var x := p.goalBonded * (UNIT * UNIT);
    assert x == (UNIT * UNIT) * p.goalBonded;
    TruncExact(UNIT * UNIT, p.goalBonded);
    ChopNearest(UNIT * UNIT);
    assert Quo(p.goalBonded, p.goalBonded) == UNIT;
    assert Mul(0, p.inflationRateChange) == 0;
    TruncOfZero(FromInt(ToInt64(p.blocksPerYear)));
  }

  lemma TruncOfZero(d: int)
    requires d != 0
    ensures Quo(0, d) == 0
  {
    QuotientOfNatural(0, if d < 0 then -d else d);
  }

  lemma StaysBelowZero(p: Params, m: Minter)
    requires p.Validate() && Divisor(p) > 0 && !NeverFails(p) && m.inflation <= -1
    ensures NextInflationRate(m, p, UNIT, Parts(p) * UNIT) <= -1
  {
    QuotaOfGoal(p);
    ShareIsOne(-p.minTokenPerYear, Parts(p));
    ShareOfNegative(-p.minTokenPerYear, Parts(p) * UNIT);
  }

  lemma FailsBelowZero(s: State, p: Params)
    requires p.Validate() && Divisor(p) > 0 && !NeverFails(p) && s.minter.inflation <= -1
    ensures Block(s, p, Staking(Parts(p) * UNIT, UNIT)).None?
  {
    var supply := Parts(p) * UNIT;
    var st := Staking(supply, UNIT);
    StaysBelowZero(p, s.minter);
    AnnualOf(s.minter, p, st);
    var next := NextMinter(s.minter, p, st);
    ShareTakenBack(p, supply, NextInflationRate(s.minter, p, UNIT, supply), next.annualProvisions);
    ProvisionExact(next, p);
  }

  lemma TwoBlocks(s: State, p: Params, a: Staking, b: Staking)
    requires p.Validate()
    ensures Blocks(s, p, [a, b]) == match Block(s, p, a) case None => None case Some(mid) => Block(mid, p, b)
    ensures Blocks(s, p, [a]) == Block(s, p, a)
  {
    assert [a][..0] == [] && [a, b][..1] == [a];
    assert Blocks(s, p, [a]) == Block(s, p, a);
  }

  lemma FallingChainFails(p: Params)
    requires p.Validate() && Divisor(p) > 0 && !RunsNeverFail(p)
    ensures Blocks(State(Minter(0, 0), 0, 0), p, FallingChain(p)).None?
  {
    var s := State(Minter(0, 0), 0, 0);
    FallsBelowZero(p, s.minter);
    TwoBlocks(s, p, Staking(1, UNIT), Staking(Parts(p) * UNIT, UNIT));
    if Block(s, p, Staking(1, UNIT)).Some? {
      FailsBelowZero(Block(s, p, Staking(1, UNIT)).value, p);
    }
  }

  lemma PastInt64Fails(p: Params)
    requires p.Validate() && Divisor(p) < 0 && !NeverFails(p)
    ensures FailingState(p).minter.inflation >= 0
    ensures Blocks(FailingState(p), p, [WorstStaking(p)]).None?
  {
    FailingBlock(p);
    TwoBlocks(FailingState(p), p, WorstStaking(p), WorstStaking(p));
    ShareIsOne(FailSide(p), Parts(p));
    GoalReached(p);
    RateChangeAntitone(p, 0, p.goalBonded);
  }

  /**
   No chain fails that starts from an inflation that is not negative, whatever supplies and real bonded ratios the
   staking module reports, exactly under these settings.
   */
  lemma RunsFailOnlyIf(p: Params)
    requires p.Validate()
    ensures RunsNeverFail(p)
            <==> forall s: State, sts: seq<Staking> :: s.minter.inflation >= 0 && RealRatios(sts) ==>
                   Blocks(s, p, sts).Some?
  {
    if RunsNeverFail(p) {
      forall s: State, sts: seq<Staking> | s.minter.inflation >= 0 && RealRatios(sts)
        ensures Blocks(s, p, sts).Some?
      {
        if NeverFails(p) {
          BlocksSucceed(s, p, sts);
        } else {
          RisingBlocks(s, p, sts);
        }
      }
    } else if Divisor(p) > 0 {
      FallingChainFails(p);
    } else {
      PastInt64Fails(p);
      assert RealRatios([WorstStaking(p)]);
    }
  }

  /** A negative minimum passes validation; the first block of a chain with everything bonded then fails. */
  lemma NegativeMinimumFails()
    ensures var p := Params(UNIT, UNIT / 4, 1, 0, -5);
            p.Validate() && Block(State(Minter(0, 0), 0, 0), p, Staking(1, UNIT)).None?
  {
    var p := Params(UNIT, UNIT / 4, 1, 0, -5);
    assert Quo(UNIT, UNIT / 4) == 4 * UNIT && Mul(-3 * UNIT, UNIT) == -3 * UNIT && Quo(-3 * UNIT, UNIT) == -3 * UNIT;
    assert RateChange(p, UNIT) == -3 * UNIT;
    SmallSupply(p);
    assert NextMinter(Minter(0, 0), p, Staking(1, UNIT)).annualProvisions == -3 * UNIT;
    ProvisionExact(NextMinter(Minter(0, 0), p, Staking(1, UNIT)), p);
  }

  // ---------------------------------------------------------------- payouts

  /** What a year may pay, up to the rounding, in units. */
  function Cap(p: Params, maxSupply: nat): int
    requires p.Validate()
  {
    Max(FromInt(PaySide(p)) + maxSupply, 0)
  }

  lemma YearlyWithinCap(m: Minter, p: Params, st: Staking, maxSupply: nat)
    requires p.Validate() && st.supply <= maxSupply
    ensures Max(Yearly(p, NextMinter(m, p, st).annualProvisions), 0) <= Cap(p, maxSupply)
  {
    if st.supply > 0 {
      ProvisionsInBand(m, p, st);
    }
  }

  lemma BlockPays(s: State, p: Params, st: Staking, maxSupply: nat)
    requires p.Validate() && Block(s, p, st).Some? && st.supply <= maxSupply && s.pool >= 0
    ensures var s' := Block(s, p, st).value;
            && s'.pool >= 0 && s'.pool + s'.collector == s.pool + s.collector && s'.collector >= s.collector
            && ((s'.collector - s.collector) * UNIT) * Parts(p) <= Cap(p, maxSupply)
  {
    ProvisionExact(NextMinter(s.minter, p, st), p);
    YearlyWithinCap(s.minter, p, st, maxSupply);
  }

  /** A sum of n equal payments. */
  function Times(each: int, n: nat): int {
    if n == 0 then 0 else Times(each, n - 1) + each
  }

  lemma {:induction false} TimesIsProduct(each: int, n: nat)
    ensures Times(each, n) == n * each
  {
    if n > 0 {
      TimesIsProduct(each, n - 1);
      assert n * each == (n - 1) * each + each;
    }
  }

  lemma {:induction false} TimesGrows(each: nat, n: nat, m: nat)
    requires n <= m
    ensures 0 <= Times(each, n) <= Times(each, m)
  {
    if n < m {
      TimesGrows(each, n, m - 1);
    } else if n > 0 {
      TimesGrows(each, n - 1, m - 1);
    }
  }

  /** The most a block pays: a block's share of what a year may pay, rounded down. */
  function MostPerBlock(p: Params, maxSupply: nat): (h: nat)
    requires p.Validate()
    ensures h * (UNIT * Parts(p)) <= Cap(p, maxSupply)
  {
    QuotientOfNatural(Cap(p, maxSupply), UNIT * Parts(p));
    Cap(p, maxSupply) / (UNIT * Parts(p))
  }

  lemma BlockPaysMost(s: State, p: Params, st: Staking, maxSupply: nat)
    requires p.Validate() && Block(s, p, st).Some? && st.supply <= maxSupply && s.pool >= 0
    ensures Block(s, p, st).value.collector - s.collector <= MostPerBlock(p, maxSupply)
  {
    BlockPays(s, p, st, maxSupply);
    FitsIn(Block(s, p, st).value.collector - s.collector, Parts(p), Cap(p, maxSupply));
  }

  lemma FitsIn(v: int, n: int, cap: int)
    requires v >= 0 && n > 0 && cap >= 0 && (v * UNIT) * n <= cap
    ensures v <= cap / (UNIT * n)
  {
    var d := UNIT * n;
    var q := cap / d;
    assert (v * UNIT) * n == v * d;
    QuotientOfNatural(cap, d);
    assert (q + 1) * d == q * d + d;
    if v > q {
      MulMonotone(q + 1, v, d);
    }
  }

  lemma {:induction false} BlocksPayEach(s: State, p: Params, sts: seq<Staking>, maxSupply: nat)
    requires p.Validate() && s.pool >= 0 && Blocks(s, p, sts).Some?
    requires forall i :: 0 <= i < |sts| ==> sts[i].supply <= maxSupply
    ensures var s' := Blocks(s, p, sts).value;
            && s'.pool >= 0 && s'.pool + s'.collector == s.pool + s.collector
            && 0 <= s'.collector - s.collector <= Times(MostPerBlock(p, maxSupply), |sts|)
  {
    if sts != [] {
      var init, last := sts[..|sts| - 1], sts[|sts| - 1];
      BlocksPayEach(s, p, init, maxSupply);
      BlockPays(Blocks(s, p, init).value, p, last, maxSupply);
      BlockPaysMost(Blocks(s, p, init).value, p, last, maxSupply);
    }
  }

  lemma SharesOfCap(paid: int, h: int, n: nat, parts: int, cap: int)
    requires parts > 0 && 0 <= paid <= n * h && h * (UNIT * parts) <= cap
    ensures (paid * UNIT) * parts <= n * cap
  {
    var d := UNIT * parts;
    assert (paid * UNIT) * parts == paid * d;
    MulMonotone(paid, n * h, d);
    assert (n * h) * d == n * (h * d);
    MulMonotone(h * d, cap, n);
  }

  /**
   Under any fixed parameters that pass validation, blocks that do not fail never overdraw the pool, neither
   create nor destroy tokens, and n of them pay at most n blocks' shares of what a year may pay.
   */
  lemma BlocksPay(s: State, p: Params, sts: seq<Staking>, maxSupply: nat)
    requires p.Validate() && s.pool >= 0 && Blocks(s, p, sts).Some?
    requires forall i :: 0 <= i < |sts| ==> sts[i].supply <= maxSupply
    ensures var s' := Blocks(s, p, sts).value;
            && s'.pool >= 0 && s'.pool + s'.collector == s.pool + s.collector && s'.collector >= s.collector
            && ((s'.collector - s.collector) * UNIT) * Parts(p) <= |sts| * Cap(p, maxSupply)
  {
    BlocksPayEach(s, p, sts, maxSupply);
    TimesIsProduct(MostPerBlock(p, maxSupply), |sts|);
    SharesOfCap(
      Blocks(s, p, sts).value.collector - s.collector, MostPerBlock(p, maxSupply), |sts|, Parts(p), Cap(p, maxSupply));
  }

  lemma CancelFactor(x: int, y: int, n: int)
    requires n > 0 && x * n <= n * y
    ensures x <= y
  {
    if x > y {
      MulMonotone(y + 1, x, n);
    }
  }

  lemma {:induction false} IdleBlocks(s: State, p: Params, sts: seq<Staking>)
    requires p.Validate() && NeverPays(p) && Blocks(s, p, sts).Some?
    ensures Blocks(s, p, sts).value.collector == s.collector
  {
    if sts != [] {
      IdleBlocks(s, p, sts[..|sts| - 1]);
      IdleBlock(Blocks(s, p, sts[..|sts| - 1]).value, p, sts[|sts| - 1]);
    }
  }

  /**
   A year's number of consecutive blocks that do not fail pays at most the configured maximum and supply / 10^18
   tokens more, and nothing if that is negative: for every number of blocks that is an int64, and past that for
   every setting under which blocks cannot pay.
   */
  lemma YearPaysAtMostMaximum(s: State, p: Params, sts: seq<Staking>, maxSupply: nat)
    requires p.Validate() && s.pool >= 0 && Blocks(s, p, sts).Some?
    requires p.blocksPerYear <= MAX_INT64 || NeverPays(p)
    requires |sts| == p.blocksPerYear && forall i :: 0 <= i < |sts| ==> sts[i].supply <= maxSupply
    ensures FromInt(Blocks(s, p, sts).value.collector - s.collector)
            <= Max(FromInt(p.maxTokenPerYear) + maxSupply, 0)
  {
    if NeverPays(p) {
      IdleBlocks(s, p, sts);
    } else {
      BlocksPay(s, p, sts, maxSupply);
      CancelFactor(FromInt(Blocks(s, p, sts).value.collector - s.collector), Cap(p, maxSupply), p.blocksPerYear);
    }
  }

  /** Past the largest int64 and with a negative minimum, a first block can pay one token of a maximum of none. */
  lemma PastInt64CanPay()
    ensures var p := Params(UNIT, UNIT, UINT64_MODULUS - 1, 0, -5);
            var s := State(Minter(0, 0), 100, 0);
            p.Validate() && Block(s, p, Staking(1, 0)).Some? && Block(s, p, Staking(1, 0)).value.collector == 1
  {
    var p := Params(UNIT, UNIT, UINT64_MODULUS - 1, 0, -5);
    var m := NextMinter(Minter(0, 0), p, Staking(1, 0));
    assert ToInt64(p.blocksPerYear) == -1;
    assert Quo(0, UNIT) == 0 && Mul(UNIT, UNIT) == UNIT && Quo(UNIT, -UNIT) == -UNIT;
    SmallSupply(p);
    assert m.annualProvisions == -UNIT;
  }

  // ---------------------------------------------------------------- what a year pays at least

  /** The least a block pays where the pool holds it, and one token more. */
  function LeastPerBlock(p: Params, maxSupply: nat): (g: int)
    requires p.Validate()
    ensures g * (UNIT * Parts(p)) >= FromInt(p.minTokenPerYear) - maxSupply
  {
    var least, d := FromInt(p.minTokenPerYear) - maxSupply, UNIT * Parts(p);
    FloorAndOne(least, d);
    least / d + 1
  }

  lemma FloorAndOne(x: int, d: int)
    requires d > 0
    ensures x < (x / d + 1) * d
    ensures forall v: int :: v * d > x ==> v >= x / d + 1
  {
    assert x == (x / d) * d + x % d && (x / d + 1) * d == (x / d) * d + d;
    forall v: int | v * d > x ensures v >= x / d + 1 {
      if v <= x / d {
        MulMonotone(v, x / d, d);
      }
    }
  }

  /** The provision of a block is one token short of its share of the minimum, at most. */
  lemma ProvisionAtLeast(m: Minter, p: Params, st: Staking, maxSupply: nat)
    requires p.Validate() && Divisor(p) > 0 && 0 < st.supply <= maxSupply
    requires BlockProvision(NextMinter(m, p, st), p).Some?
    ensures BlockProvision(NextMinter(m, p, st), p).value + 1 >= LeastPerBlock(p, maxSupply)
  {
    var m' := NextMinter(m, p, st);
    ProvisionsInBand(m, p, st);
    ProvisionExact(m', p);
    assert m'.annualProvisions > FromInt(p.minTokenPerYear) - maxSupply;
    ReachesShare(BlockProvision(m', p).value + 1, Parts(p), FromInt(p.minTokenPerYear) - maxSupply);
  }

  lemma ReachesShare(v: int, n: int, least: int)
    requires n > 0 && (v * UNIT) * n > least
    ensures v >= least / (UNIT * n) + 1
  {
    assert (v * UNIT) * n == v * (UNIT * n);
    FloorAndOne(least, UNIT * n);
  }

  lemma ProvisionAtMost(m: Minter, p: Params, st: Staking, maxSupply: nat)
    requires p.Validate() && st.supply <= maxSupply && BlockProvision(NextMinter(m, p, st), p).Some?
    ensures 0 <= BlockProvision(NextMinter(m, p, st), p).value <= MostPerBlock(p, maxSupply)
  {
    ProvisionExact(NextMinter(m, p, st), p);
    YearlyWithinCap(m, p, st, maxSupply);
    FitsIn(BlockProvision(NextMinter(m, p, st), p).value, Parts(p), Cap(p, maxSupply));
  }

  lemma {:induction false} BlocksPayAtLeast(s: State, p: Params, sts: seq<Staking>, maxSupply: nat, year: nat)
    requires p.Validate() && Divisor(p) > 0 && Blocks(s, p, sts).Some? && |sts| <= year
    requires s.pool >= Times(MostPerBlock(p, maxSupply), year)
    requires forall i :: 0 <= i < |sts| ==> 0 < sts[i].supply <= maxSupply
    ensures Blocks(s, p, sts).value.collector - s.collector + |sts| >= Times(LeastPerBlock(p, maxSupply), |sts|)
  {
    TimesGrows(MostPerBlock(p, maxSupply), |sts|, year);
    if sts != [] {
      var init, last := sts[..|sts| - 1], sts[|sts| - 1];
      BlocksPayAtLeast(s, p, init, maxSupply, year);
      BlocksPayEach(s, p, init, maxSupply);
      var mid := Blocks(s, p, init).value;
      ProvisionAtLeast(mid.minter, p, last, maxSupply);
      ProvisionAtMost(mid.minter, p, last, maxSupply);
    }
  }

  lemma PoolHoldsTheYear(p: Params, pool: int, maxSupply: nat)
    requires p.Validate() && Divisor(p) > 0 && pool >= 0 && FromInt(pool) >= FromInt(p.maxTokenPerYear) + maxSupply
    ensures pool >= Times(MostPerBlock(p, maxSupply), Parts(p))
  {
    var h, n := MostPerBlock(p, maxSupply), Parts(p);
    TimesIsProduct(h, n);
    assert h * (UNIT * n) == (n * h) * UNIT;
  }

  lemma YearOfShares(paid: int, g: int, n: nat, least: int)
    requires n > 0 && paid + n >= n * g && g * (UNIT * n) >= least
    ensures FromInt(paid + n) >= least
  {
    assert g * (UNIT * n) == (n * g) * UNIT;
  }

  /** Past the largest int64, blocks that do not fail leave nothing of a positive minimum to pay. */
  lemma PastInt64AtLeast(s: State, p: Params, st: Staking, maxSupply: nat)
    requires p.Validate() && Divisor(p) < 0 && 0 < st.supply <= maxSupply && Block(s, p, st).Some?
    ensures FromInt(p.blocksPerYear) >= FromInt(p.minTokenPerYear) - maxSupply
  {
    ProvisionExact(NextMinter(s.minter, p, st), p);
    ProvisionsInBand(s.minter, p, st);
    assert Parts(p) <= p.blocksPerYear;
  }

  /**
   From a pool that holds the maximum, a year's number of blocks that do not fail pays at least the configured
   minimum, less one token for each block and less supply / 10^18 tokens.
   */
  lemma YearPaysAtLeastMinimum(s: State, p: Params, sts: seq<Staking>, maxSupply: nat)
    requires p.Validate() && Blocks(s, p, sts).Some?
    requires s.pool >= 0 && FromInt(s.pool) >= FromInt(p.maxTokenPerYear) + maxSupply
    requires |sts| == p.blocksPerYear && forall i :: 0 <= i < |sts| ==> 0 < sts[i].supply <= maxSupply
    ensures FromInt(Blocks(s, p, sts).value.collector - s.collector + p.blocksPerYear)
            >= FromInt(p.minTokenPerYear) - maxSupply
  {
    var paid := Blocks(s, p, sts).value.collector - s.collector;
    BlocksPayEach(s, p, sts, maxSupply);
    if Divisor(p) > 0 {
      PoolHoldsTheYear(p, s.pool, maxSupply);
      BlocksPayAtLeast(s, p, sts, maxSupply, |sts|);
      TimesIsProduct(LeastPerBlock(p, maxSupply), |sts|);
      YearOfShares(paid, LeastPerBlock(p, maxSupply), |sts|, FromInt(p.minTokenPerYear) - maxSupply);
    } else {
      PastInt64AtLeast(Blocks(s, p, sts[..|sts| - 1]).value, p, sts[|sts| - 1], maxSupply);
    }
  }
}
