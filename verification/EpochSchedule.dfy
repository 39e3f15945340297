/**
 The schedule of resets over whole runs of blocks: which blocks reset which limits, from the first block on,
 whatever happens to the limits between the blocks.
 */
module EpochSchedule {
  import opened Bytes
  import opened Integers
  import opened KeyOrder
  import opened RateLimitTypes
  import opened RateLimitSpec
  import opened Epochs

  /** The epoch store after one block, and after a number of blocks. */
  function BlockEpochs(epochs: map<bytes, EpochInfo>, time: int, height: int): map<bytes, EpochInfo> {
    var ids := SortedKeys(epochs.Keys);
    TickFirst(epochs, ids, Reached(epochs, ids, time), time, height)
  }

  function EpochsAfter(epochs: map<bytes, EpochInfo>, times: seq<int>): map<bytes, EpochInfo> {
    if times == [] then epochs
    else BlockEpochs(EpochsAfter(epochs, times[..|times| - 1]), times[|times| - 1], |times|)
  }

  /** The rate limiter's stores after one block. */
  function BlockLimits(s: State, tokens: Tokens, bank: Bank, epochs: map<bytes, EpochInfo>, time: int): State
    requires WellKeyed(s)
  {
    var ids := SortedKeys(epochs.Keys);
    if DAY_EPOCH in ids[..Reached(epochs, ids, time)] && EpochEnds(epochs[DAY_EPOCH], time)
    then EpochEnd(s, tokens, bank, epochs[DAY_EPOCH]) else s
  }

  /** One block of the keeper is one block of the schedule. */
  method RunBlock(ek: EpochKeeper, bank: Bank, time: int, height: int)
    requires WellKeyed(ek.limits.Abs()) && EpochsKeyed(ek.epochs)
    modifies ek, ek.limits
    ensures ek.epochs == BlockEpochs(old(ek.epochs), time, height)
    ensures ek.limits.Abs() == BlockLimits(old(ek.limits.Abs()), ek.limits.tokens, bank, old(ek.epochs), time)
  {
    ek.BeginBlocker(bank, time, height);
  }

  /** No epoch before the hour epoch in key order is still to start. */
  predicate Unblocked(epochs: map<bytes, EpochInfo>, time: int) {
    forall id :: id in epochs && Below(id, DAY_EPOCH) && id != DAY_EPOCH ==> epochs[id].startTime <= time
  }

  /** In such a store a block visits the hour epoch, unless that itself is still to start. */
  lemma HourIsVisited(epochs: map<bytes, EpochInfo>, time: int, height: int)
    requires DAY_EPOCH in epochs && Unblocked(epochs, time)
    ensures var ids := SortedKeys(epochs.Keys);
            DAY_EPOCH in ids[..Reached(epochs, ids, time)] <==> epochs[DAY_EPOCH].startTime <= time
    ensures BlockEpochs(epochs, time, height)[DAY_EPOCH] == Visit(epochs[DAY_EPOCH], time, height)
  {
    var ids := SortedKeys(epochs.Keys);
    ReachedIff(epochs, ids, DAY_EPOCH, time);
    BelowTotal(DAY_EPOCH, DAY_EPOCH);
  }

  /** No epoch up to this one in key order, itself included, is still to start. */
  predicate NoneToStart(epochs: map<bytes, EpochInfo>, id: bytes, time: int) {
    forall id' :: id' in epochs && Below(id', id) ==> epochs[id'].startTime <= time
  }

  lemma ReachedEpoch(epochs: map<bytes, EpochInfo>, id: bytes, time: int)
    requires id in epochs
    ensures var ids := SortedKeys(epochs.Keys);
            id in ids[..Reached(epochs, ids, time)] <==> NoneToStart(epochs, id, time)
    ensures NoneToStart(epochs, id, time) ==> epochs[id].startTime <= time
  {
    ReachedIff(epochs, SortedKeys(epochs.Keys), id, time);
    BelowTotal(id, id);
  }

  lemma EpochAfterBlock(epochs: map<bytes, EpochInfo>, id: bytes, time: int, height: int, reached: bool)
    requires id in epochs
    requires var ids := SortedKeys(epochs.Keys); reached <==> id in ids[..Reached(epochs, ids, time)]
    ensures id in BlockEpochs(epochs, time, height)
    ensures BlockEpochs(epochs, time, height)[id] == if reached then Tick(epochs[id], time, height) else epochs[id]
  {
  }

  /** A block visits every epoch up to which, in key order, none is still to start, and leaves all others alone. */
  lemma BlockExact(epochs: map<bytes, EpochInfo>, id: bytes, time: int, height: int)
    requires id in epochs
    ensures id in BlockEpochs(epochs, time, height)
    ensures BlockEpochs(epochs, time, height)[id]
            == if NoneToStart(epochs, id, time) then Visit(epochs[id], time, height) else epochs[id]
  {
    var reached := NoneToStart(epochs, id, time);
    ReachedEpoch(epochs, id, time);
    EpochAfterBlock(epochs, id, time, height, reached);
    assert reached ==> Visit(epochs[id], time, height) == Tick(epochs[id], time, height);
  }

  predicate SameStarts(epochs: map<bytes, EpochInfo>, epochs': map<bytes, EpochInfo>) {
    epochs.Keys == epochs'.Keys && forall id :: id in epochs ==> epochs[id].startTime == epochs'[id].startTime
  }

  lemma BlockKeepsStarts(epochs: map<bytes, EpochInfo>, time: int, height: int)
    ensures SameStarts(epochs, BlockEpochs(epochs, time, height))
  {
  }

  /** The hour epoch of the store runs as a clock of its own. */
  lemma {:induction false} HourClock(epochs: map<bytes, EpochInfo>, times: seq<int>)
    requires DAY_EPOCH in epochs && Nondecreasing(times) && (times != [] ==> Unblocked(epochs, times[0]))
    ensures SameStarts(epochs, EpochsAfter(epochs, times))
    ensures EpochsAfter(epochs, times)[DAY_EPOCH] == Visits(epochs[DAY_EPOCH], times)
  {
    if times != [] {
      var init, last := times[..|times| - 1], times[|times| - 1];
      HourClock(epochs, init);
      var before := EpochsAfter(epochs, init);
      BlockKeepsStarts(before, last, |times|);
      HourIsVisited(before, last, |times|);
    }
  }

  /** The limits a block resets when it ends the epoch of this number: those whose duration divides it. */
  function DueAt(s: State, number: nat): set<bytes>
    requires WellKeyed(s)
  {
    DueKeys(s, number % UINT64_MODULUS)
  }

  lemma EndedNext(e: EpochInfo, times: seq<int>, time: int)
    ensures Ended(e, times + [time])
            == Ended(e, times) + if EpochEnds(Visits(e, times), time) && Visits(e, times).startTime <= time
                                 then [Visits(e, times).currentEpoch] else []
  {
    assert (times + [time])[..|times|] == times;
  }

  lemma BlockOfHour(
    s: State, tokens: Tokens, bank: Bank, epochs: map<bytes, EpochInfo>, time: int, number: nat)
    requires WellKeyed(s) && Resolved(s, tokens) && DAY_EPOCH in epochs && Unblocked(epochs, time)
    requires epochs[DAY_EPOCH].identifier == DAY_EPOCH
    requires epochs[DAY_EPOCH].epochCountingStarted ==> epochs[DAY_EPOCH].currentEpoch == number
    ensures BlockLimits(s, tokens, bank, epochs, time)
            == if EpochEnds(epochs[DAY_EPOCH], time) && epochs[DAY_EPOCH].startTime <= time
               then ResetKeys(s, bank, DueAt(s, number)) else s
  {
    HourIsVisited(epochs, time, 0);
    EpochEndResetsExactlyTheDue(s, tokens, bank, epochs[DAY_EPOCH]);
  }

  lemma FirstOfAll(times: seq<int>, time: int)
    requires Nondecreasing(times + [time])
    ensures Nondecreasing(times) && (times + [time])[0] <= time
    ensures times != [] ==> (times + [time])[0] == times[0]
  {
    var all := times + [time];
    assert forall i :: 0 <= i < |times| ==> all[i] == times[i];
    assert all[|times|] == time;
  }

  lemma StaysUnblocked(epochs: map<bytes, EpochInfo>, epochs': map<bytes, EpochInfo>, time: int, later: int)
    requires SameStarts(epochs, epochs') && Unblocked(epochs, time) && time <= later
    ensures Unblocked(epochs', later)
  {
  }

  /**
   After any blocks of nondecreasing times, with anything done to the limits between them: the next block either
   ends no epoch and leaves the limits alone, or it ends the epoch whose number is one more than the number of
   epochs that ended so far, and resets exactly the limits whose duration divides that number.
   */
  lemma ResetsOnSchedule(
    s: State, tokens: Tokens, bank: Bank, epochs: map<bytes, EpochInfo>, times: seq<int>, time: int)
    requires WellKeyed(s) && Resolved(s, tokens)
    requires DAY_EPOCH in epochs && epochs[DAY_EPOCH].identifier == DAY_EPOCH && Fresh(epochs[DAY_EPOCH])
    requires Nondecreasing(times + [time]) && Unblocked(epochs, (times + [time])[0])
    ensures var (e, after) := (epochs[DAY_EPOCH], BlockLimits(s, tokens, bank, EpochsAfter(epochs, times), time));
            var (ended, ended') := (Ended(e, times), Ended(e, times + [time]));
            (ended' == ended && after == s)
            || (ended' == ended + [|ended| + 1] && after == ResetKeys(s, bank, DueAt(s, |ended| + 1)))
  {
    NextEnd(epochs[DAY_EPOCH], times, time);
    HourNow(epochs, times, time);
    BlockOfHour(s, tokens, bank, EpochsAfter(epochs, times), time, |Ended(epochs[DAY_EPOCH], times)| + 1);
  }

  /** The hour epoch before the next block. */
  lemma HourNow(epochs: map<bytes, EpochInfo>, times: seq<int>, time: int)
    requires DAY_EPOCH in epochs && Nondecreasing(times + [time]) && Unblocked(epochs, (times + [time])[0])
    ensures var now := EpochsAfter(epochs, times);
            && DAY_EPOCH in now && now[DAY_EPOCH] == Visits(epochs[DAY_EPOCH], times)
            && now[DAY_EPOCH].identifier == epochs[DAY_EPOCH].identifier && Unblocked(now, time)
  {
    FirstOfAll(times, time);
    HourClock(epochs, times);
    StaysUnblocked(epochs, EpochsAfter(epochs, times), (times + [time])[0], time);
    KeepsIdentity(epochs[DAY_EPOCH], times);
  }

  lemma NextEnd(e: EpochInfo, times: seq<int>, time: int)
    requires Fresh(e) && Nondecreasing(times + [time])
    ensures var (now, ended) := (Visits(e, times), Ended(e, times));
            && (now.epochCountingStarted ==> now.currentEpoch == |ended| + 1)
            && Ended(e, times + [time])
               == (if EpochEnds(now, time) && now.startTime <= time then ended + [|ended| + 1] else ended)
  {
    FirstOfAll(times, time);
    EndsAreConsecutive(e, times);
    EndedNext(e, times, time);
  }

  lemma {:induction false} KeepsIdentity(e: EpochInfo, times: seq<int>)
    ensures Visits(e, times).identifier == e.identifier && Visits(e, times).startTime == e.startTime
  {
    if times != [] {
      KeepsIdentity(e, times[..|times| - 1]);
    }
  }

  /** How many epochs the first n blocks ended. */
  function EndedBy(e: EpochInfo, times: seq<int>, n: nat): nat
    requires n <= |times|
  {
    |Ended(e, times[..n])|
  }

  /** The block ends an epoch whose number d divides. */
  predicate EndsMultiple(e: EpochInfo, times: seq<int>, block: nat, d: nat)
    requires block < |times| && d > 0
  {
    EndedBy(e, times, block + 1) == EndedBy(e, times, block) + 1 && (EndedBy(e, times, block) + 1) % d == 0
  }

  /** Those blocks, in order. */
  function ResetBlocks(e: EpochInfo, times: seq<int>, d: nat): seq<nat>
    requires d > 0
  {
    if times == [] then []
    else
      var last := |times| - 1;
      ResetBlocks(e, times[..last], d) + if EndsMultiple(e, times, last, d) then [last] else []
  }

  lemma NextMultiple(m: nat, d: nat)
    requires d > 0
    ensures (m + 1) % d == 0 ==> (m + 1) / d == m / d + 1 && (m / d + 1) * d == m + 1
    ensures (m + 1) % d != 0 ==> (m + 1) / d == m / d
  {
    var q, r := m / d, m % d;
    assert m == q * d + r;
    if r + 1 == d {
      assert m + 1 == (q + 1) * d;
      DivBetween(m + 1, q + 1, d);
    } else {
      DivBetween(m + 1, q, d);
      assert (m + 1) % d == r + 1;
    }
  }

  lemma PrefixEnds(e: EpochInfo, times: seq<int>, last: nat, block: nat, d: nat)
    requires block < last <= |times| && d > 0
    ensures EndsMultiple(e, times[..last], block, d) <==> EndsMultiple(e, times, block, d)
    ensures EndedBy(e, times[..last], block + 1) == EndedBy(e, times, block + 1)
  {
    assert times[..last][..block] == times[..block] && times[..last][..block + 1] == times[..block + 1];
  }

  lemma EndsOneByOne(e: EpochInfo, times: seq<int>, block: nat)
    requires Fresh(e) && Nondecreasing(times) && block < |times|
    ensures EndedBy(e, times, block) <= EndedBy(e, times, block + 1) <= EndedBy(e, times, block) + 1
  {
    assert times[..block + 1] == times[..block] + [times[block]];
    NextEnd(e, times[..block], times[block]);
  }

  lemma {:induction false} ResetBlocksAre(e: EpochInfo, times: seq<int>, d: nat, block: nat)
    requires d > 0 && block < |times|
    ensures block in ResetBlocks(e, times, d) <==> EndsMultiple(e, times, block, d)
  {
    var last := |times| - 1;
    ResetBlocksBefore(e, times[..last], d);
    if block < last {
      ResetBlocksAre(e, times[..last], d, block);
      PrefixEnds(e, times, last, block, d);
    }
  }

  lemma {:induction false} ResetBlocksBefore(e: EpochInfo, times: seq<int>, d: nat)
    requires d > 0
    ensures forall i :: i in ResetBlocks(e, times, d) ==> i < |times|
  {
    if times != [] {
      ResetBlocksBefore(e, times[..|times| - 1], d);
    }
  }

  /** The numbers of the epochs that blocks end, in the order of the blocks. */
  ghost predicate EndEpochs(e: EpochInfo, times: seq<int>, blocks: seq<nat>, d: nat) {
    forall j :: 0 <= j < |blocks| ==> blocks[j] < |times| && EndedBy(e, times, blocks[j] + 1) == (j + 1) * d
  }

  lemma EndEpochsLater(e: EpochInfo, times: seq<int>, last: nat, blocks: seq<nat>, d: nat)
    requires last <= |times| && d > 0 && EndEpochs(e, times[..last], blocks, d)
    ensures EndEpochs(e, times, blocks, d)
  {
    forall j | 0 <= j < |blocks| ensures blocks[j] < |times| && EndedBy(e, times, blocks[j] + 1) == (j + 1) * d {
      PrefixEnds(e, times, last, blocks[j], d);
    }
  }

  lemma OneMoreEnd(e: EpochInfo, times: seq<int>, blocks: seq<nat>, block: nat, d: nat)
    requires EndEpochs(e, times, blocks, d) && block < |times|
    requires EndedBy(e, times, block + 1) == (|blocks| + 1) * d
    ensures EndEpochs(e, times, blocks + [block], d)
  {
  }

  /** How the count of multiples follows the count of epochs. */
  lemma MultiplesCount(m: nat, m': nat, k: nat, d: nat)
    requires d > 0 && m <= m' <= m + 1 && k == m / d
    ensures if m' == m + 1 && (m + 1) % d == 0 then m' / d == k + 1 && m' == (k + 1) * d else m' / d == k
  {
    NextMultiple(m, d);
  }

  lemma LastBlockEnds(e: EpochInfo, times: seq<int>, d: nat)
    requires Fresh(e) && Nondecreasing(times) && times != [] && d > 0
    ensures var (last, init) := (|times| - 1, times[..|times| - 1]);
            var (m, m') := (|Ended(e, init)|, |Ended(e, times)|);
            && m == EndedBy(e, times, last) && m' == EndedBy(e, times, last + 1) && m <= m' <= m + 1
            && (EndsMultiple(e, times, last, d) <==> m' == m + 1 && (m + 1) % d == 0)
            && ResetBlocks(e, times, d)
               == ResetBlocks(e, init, d) + if EndsMultiple(e, times, last, d) then [last] else []
  {
    EndsOneByOne(e, times, |times| - 1);
    assert times[..|times|] == times;
  }

  /**
   The blocks that end an epoch whose number d divides end the epochs d, 2d, 3d and so on, without one left out,
   up to the last epoch that ended.
   */
  lemma {:induction false} ResetsAreMultiples(e: EpochInfo, times: seq<int>, d: nat)
    requires Fresh(e) && Nondecreasing(times) && d > 0
    ensures |ResetBlocks(e, times, d)| == |Ended(e, times)| / d
    ensures EndEpochs(e, times, ResetBlocks(e, times, d), d)
  {
    if times != [] {
      var (last, init) := (|times| - 1, times[..|times| - 1]);
      var r := ResetBlocks(e, init, d);
      ResetsAreMultiples(e, init, d);
      EndEpochsLater(e, times, last, r, d);
      LastBlockEnds(e, times, d);
      MultiplesCount(|Ended(e, init)|, |Ended(e, times)|, |r|, d);
      if EndsMultiple(e, times, last, d) {
        OneMoreEnd(e, times, r, last, d);
      }
    }
  }

  /** The limit of that key is stored with that duration, in stores as the handlers leave them. */
  ghost predicate Keeps(s: State, tokens: Tokens, key: bytes, duration: nat) {
    WellKeyed(s) && Resolved(s, tokens) && key in s.limits && s.limits[key].quota.durationHours == duration
  }

  /** The limit of that key is reset to the present supply, or left as it is. */
  predicate ResetOrKept(s: State, s': State, bank: Bank, key: bytes, reset: bool) {
    && key in s.limits && key in s'.limits
    && var rl := s.limits[key];
       s'.limits[key] == if reset then rl.(flow := NewFlow(Supply(bank, rl.path.denom))) else rl
  }

  lemma DueIfMultiple(s: State, tokens: Tokens, bank: Bank, key: bytes, number: nat, d: nat)
    requires Keeps(s, tokens, key, d) && number < UINT64_MODULUS && d > 0
    ensures ResetOrKept(s, ResetKeys(s, bank, DueAt(s, number)), bank, key, number % d == 0)
  {
    assert number % UINT64_MODULUS == number;
    assert Due(s.limits[key], number) <==> number % d == 0;
  }

  lemma {:induction false} EndedAtMostOnce(e: EpochInfo, times: seq<int>)
    ensures |Ended(e, times)| <= |times|
  {
    if times != [] {
      EndedAtMostOnce(e, times[..|times| - 1]);
    }
  }

  lemma NextEndCounts(e: EpochInfo, times: seq<int>, time: int)
    requires Fresh(e) && Nondecreasing(times + [time])
    ensures var (now, n) := (Visits(e, times), |Ended(e, times)|);
            && (now.epochCountingStarted ==> now.currentEpoch == n + 1)
            && |Ended(e, times + [time])| == if EpochEnds(now, time) && now.startTime <= time then n + 1 else n
  {
    NextEnd(e, times, time);
  }

  lemma NextBlockCounts(
    s: State, tokens: Tokens, bank: Bank, epochs: map<bytes, EpochInfo>, times: seq<int>, time: int, n: nat)
    requires WellKeyed(s) && Resolved(s, tokens)
    requires DAY_EPOCH in epochs && epochs[DAY_EPOCH].identifier == DAY_EPOCH && Fresh(epochs[DAY_EPOCH])
    requires Nondecreasing(times + [time]) && Unblocked(epochs, (times + [time])[0])
    requires n == |Ended(epochs[DAY_EPOCH], times)|
    ensures BlockLimits(s, tokens, bank, EpochsAfter(epochs, times), time)
            == if |Ended(epochs[DAY_EPOCH], times + [time])| == n + 1 then ResetKeys(s, bank, DueAt(s, n + 1)) else s
  {
    NextEndCounts(epochs[DAY_EPOCH], times, time);
    HourNow(epochs, times, time);
    BlockOfHour(s, tokens, bank, EpochsAfter(epochs, times), time, n + 1);
  }

  lemma LimitAtNextBlock(
    s: State, tokens: Tokens, bank: Bank, epochs: map<bytes, EpochInfo>, times: seq<int>, time: int,
    key: bytes, d: nat, n: nat, reset: bool)
    requires |times| + 1 < UINT64_MODULUS && d > 0 && Keeps(s, tokens, key, d)
    requires DAY_EPOCH in epochs && epochs[DAY_EPOCH].identifier == DAY_EPOCH && Fresh(epochs[DAY_EPOCH])
    requires Nondecreasing(times + [time]) && Unblocked(epochs, (times + [time])[0])
    requires n == |Ended(epochs[DAY_EPOCH], times)|
    requires reset <==> |Ended(epochs[DAY_EPOCH], times + [time])| == n + 1 && (n + 1) % d == 0
    ensures ResetOrKept(s, BlockLimits(s, tokens, bank, EpochsAfter(epochs, times), time), bank, key, reset)
  {
    EndedAtMostOnce(epochs[DAY_EPOCH], times);
    DueIfMultiple(s, tokens, bank, key, n + 1, d);
    NextBlockCounts(s, tokens, bank, epochs, times, time, n);
  }

  lemma LimitAfterBlock(
    s: State, tokens: Tokens, bank: Bank, epochs: map<bytes, EpochInfo>, times: seq<int>, block: nat,
    key: bytes, d: nat)
    requires block < |times| < UINT64_MODULUS && d > 0 && Keeps(s, tokens, key, d)
    requires DAY_EPOCH in epochs && epochs[DAY_EPOCH].identifier == DAY_EPOCH && Fresh(epochs[DAY_EPOCH])
    requires Nondecreasing(times) && Unblocked(epochs, times[0])
    ensures ResetOrKept(
              s, BlockLimits(s, tokens, bank, EpochsAfter(epochs, times[..block]), times[block]), bank, key,
              EndsMultiple(epochs[DAY_EPOCH], times, block, d))
  {
    var init := times[..block];
    assert times[..block + 1] == init + [times[block]] && (init + [times[block]])[0] == times[0];
    LimitAtNextBlock(s, tokens, bank, epochs, init, times[block], key, d, |Ended(epochs[DAY_EPOCH], init)|,
                     EndsMultiple(epochs[DAY_EPOCH], times, block, d));
  }

  /** What a run of blocks does to the limit of a key: the given blocks reset it, and the others leave it alone. */
  ghost predicate ResetBy(
    states: seq<State>, tokens: Tokens, banks: seq<Bank>, epochs: map<bytes, EpochInfo>, times: seq<int>,
    key: bytes, blocks: seq<nat>)
    requires |states| == |banks| == |times|
  {
    forall i :: 0 <= i < |states| ==>
      && WellKeyed(states[i])
      && ResetOrKept(
           states[i], BlockLimits(states[i], tokens, banks[i], EpochsAfter(epochs, times[..i]), times[i]), banks[i],
           key, i in blocks)
  }

  /**
   A limit that keeps its duration d over a run of blocks, whatever else happens to it and to the other limits
   between them, is reset to the present supply by exactly the blocks that end the epochs d, 2d, 3d and so on,
   without one left out, and every other block leaves it as it finds it.
   */
  lemma LimitResetsOnMultiples(
    states: seq<State>, tokens: Tokens, banks: seq<Bank>, epochs: map<bytes, EpochInfo>, times: seq<int>,
    key: bytes, d: nat)
    requires |states| == |banks| == |times| < UINT64_MODULUS && d > 0
    requires forall i :: 0 <= i < |states| ==> Keeps(states[i], tokens, key, d)
    requires DAY_EPOCH in epochs && epochs[DAY_EPOCH].identifier == DAY_EPOCH && Fresh(epochs[DAY_EPOCH])
    requires Nondecreasing(times) && (times != [] ==> Unblocked(epochs, times[0]))
    ensures var (e, r) := (epochs[DAY_EPOCH], ResetBlocks(epochs[DAY_EPOCH], times, d));
            && ResetBy(states, tokens, banks, epochs, times, key, r)
            && |r| == |Ended(e, times)| / d && EndEpochs(e, times, r, d)
  {
    var (e, r) := (epochs[DAY_EPOCH], ResetBlocks(epochs[DAY_EPOCH], times, d));
    ResetsAreMultiples(e, times, d);
    forall i | 0 <= i < |states|
      ensures WellKeyed(states[i])
              && ResetOrKept(
                   states[i], BlockLimits(states[i], tokens, banks[i], EpochsAfter(epochs, times[..i]), times[i]),
                   banks[i], key, i in r)
    {
      assert Keeps(states[i], tokens, key, d);
      ResetBlocksAre(e, times, d, i);
      LimitAfterBlock(states[i], tokens, banks[i], epochs, times, i, key, d);
    }
  }

  // ---------------------------------------------------------------- the clock does start, and catches up

  /** The hour epoch of the store has started exactly if its start time has come. */
  lemma HourStarts(epochs: map<bytes, EpochInfo>, times: seq<int>)
    requires DAY_EPOCH in epochs && Fresh(epochs[DAY_EPOCH])
    requires Nondecreasing(times) && (times != [] ==> Unblocked(epochs, times[0]))
    ensures DAY_EPOCH in EpochsAfter(epochs, times)
    ensures EpochsAfter(epochs, times)[DAY_EPOCH].epochCountingStarted
            <==> times != [] && LastTime(times) >= epochs[DAY_EPOCH].startTime
  {
    HourClock(epochs, times);
    ClockStarts(epochs[DAY_EPOCH], times);
  }

  /**
   However late the first block comes: after n + 1 blocks at a time at or past its start, the hour epoch shows the
   epoch of that time or, if that is earlier, epoch n + 1; all epochs before it have ended, and among the blocks that
   ended them are as many resets of a limit of duration d as d divides numbers among theirs.
   */
  lemma HourCatchesUp(epochs: map<bytes, EpochInfo>, time: int, n: nat, d: nat)
    requires DAY_EPOCH in epochs && Fresh(epochs[DAY_EPOCH]) && d > 0
    requires epochs[DAY_EPOCH].startTime <= time && Unblocked(epochs, time)
    ensures DAY_EPOCH in EpochsAfter(epochs, Repeat(time, n + 1))
    ensures var (e, times) := (epochs[DAY_EPOCH], Repeat(time, n + 1));
            var shown := EpochsAfter(epochs, times)[DAY_EPOCH].currentEpoch;
            && shown == (if n + 1 < Target(e, time) then n + 1 else Target(e, time))
            && |Ended(e, times)| == shown - 1 && |ResetBlocks(e, times, d)| == (shown - 1) / d
  {
    var times := Repeat(time, n + 1);
    HourClock(epochs, times);
    CatchUpFromStart(epochs[DAY_EPOCH], time, n);
    ResetsAreMultiples(epochs[DAY_EPOCH], times, d);
  }
}
