/**
 The epoch clock of the rate limiter (x/ratelimit/keeper/epoch.go, x/ratelimit/keeper/abci.go).
 Times are nanoseconds since Go's zero time; the zero time itself is 0.
 */
module Epochs {
  import opened Wrappers
  import opened Bytes
  import opened Integers
  import opened KeyOrder
  import opened RateLimitTypes
  import opened RateLimitSpec
  import opened RateLimitKeeper

  const DAY_EPOCH: bytes := [104, 111, 117, 114]  // "hour"

  const EPOCH_HOUR_PERIOD: int := 24 * 3600 * 1_000_000_000

  const ZERO_TIME: int := 0

  datatype EpochInfo = EpochInfo(
    identifier: bytes,
    startTime: int,
    duration: int,
    currentEpoch: int,
    currentEpochStartTime: int,
    epochCountingStarted: bool,
    currentEpochStartHeight: int)
  {
    predicate Validate() {
      identifier != [] && duration != 0 && currentEpoch >= 0 && currentEpochStartHeight >= 0
    }
  }

  const NO_EPOCH: EpochInfo := EpochInfo([], ZERO_TIME, 0, 0, ZERO_TIME, false, 0)

  function NewGenesisEpochInfo(identifier: bytes, duration: int): EpochInfo {
    EpochInfo(identifier, ZERO_TIME, duration, 0, ZERO_TIME, false, 0)
  }

  // ---------------------------------------------------------------- one epoch

  /** A started epoch ends in the block whose time is past its end. */
  predicate EpochEnds(e: EpochInfo, time: int) {
    e.epochCountingStarted && time > e.currentEpochStartTime + e.duration
  }

  /** What a visit of the block at this time makes of an epoch whose start time has come. */
  function Tick(e: EpochInfo, time: int, height: int): EpochInfo {
    if !e.epochCountingStarted then
      e.(epochCountingStarted := true, currentEpoch := 1, currentEpochStartTime := e.startTime,
         currentEpochStartHeight := height)
    else if EpochEnds(e, time) then
      e.(currentEpoch := e.currentEpoch + 1, currentEpochStartTime := e.currentEpochStartTime + e.duration,
         currentEpochStartHeight := height)
    else e
  }

  /** An epoch is reached by the iteration of a block, unless its start time is still to come. */
  function Visit(e: EpochInfo, time: int, height: int): EpochInfo {
    if time < e.startTime then e else Tick(e, time, height)
  }

  predicate Fresh(e: EpochInfo) {
    !e.epochCountingStarted && e.duration > 0
  }

  /** The epoch number a started clock should show: the gap since the start in durations, rounded up, and at least 1. */
  function Target(e: EpochInfo, time: int): int
    requires e.duration > 0
  {
    var gap := time - e.startTime;
    if gap <= e.duration then 1 else (gap + e.duration - 1) / e.duration
  }

  lemma TargetExceeds(e: EpochInfo, time: int, n: int)
    requires e.duration > 0 && n >= 1
    ensures Target(e, time) > n <==> time - e.startTime > n * e.duration
  {
    var gap, d := time - e.startTime, e.duration;
    MulMonotone(1, n, d);
    if gap > d {
      var q := (gap + d - 1) / d;
      QuotientOfNatural(gap + d - 1, d);
      if q > n {
        MulMonotone(n, q - 1, d);
        assert (q - 1) * d == q * d - d;
      } else {
        MulMonotone(q, n, d);
      }
    }
  }

  /** A started clock shows an epoch whose start time is that many durations after the first, and never runs ahead. */
  predicate OnTime(e: EpochInfo, time: int) {
    e.duration > 0
    && (e.epochCountingStarted ==>
          && e.startTime <= time
          && e.currentEpochStartTime == e.startTime + (e.currentEpoch - 1) * e.duration
          && 1 <= e.currentEpoch <= Target(e, time))
  }

  lemma TargetMonotone(e: EpochInfo, time: int, later: int)
    requires e.duration > 0 && time <= later
    ensures Target(e, time) <= Target(e, later)
  {
    if Target(e, time) > 1 {
      TargetExceeds(e, time, Target(e, time) - 1);
      TargetExceeds(e, later, Target(e, time) - 1);
    }
  }

  /**
   A visit starts a clock that has not started at epoch 1 and its start time, unless that is still to come; it moves
   a started clock by one exactly if it is behind. The height of the block is kept exactly where something moved.
   */
  lemma VisitExact(e: EpochInfo, time: int, height: int)
    requires OnTime(e, time)
    ensures OnTime(Visit(e, time, height), time)
    ensures !e.epochCountingStarted ==>
      Visit(e, time, height)
      == if time < e.startTime then e
         else EpochInfo(e.identifier, e.startTime, e.duration, 1, e.startTime, true, height)
    ensures e.epochCountingStarted ==>
      Visit(e, time, height).epochCountingStarted
      && Visit(e, time, height).currentEpochStartHeight
         == if Visit(e, time, height).currentEpoch != e.currentEpoch then height else e.currentEpochStartHeight
    ensures e.epochCountingStarted ==>
      Visit(e, time, height).currentEpoch ==
        if e.currentEpoch < Target(e, time) then e.currentEpoch + 1 else e.currentEpoch
    ensures var e' := Visit(e, time, height);
            e'.startTime == e.startTime && e'.duration == e.duration && e'.identifier == e.identifier
    ensures e.epochCountingStarted && e.currentEpoch < Target(e, time) <==> EpochEnds(e, time)
  {
    if e.epochCountingStarted {
      TargetExceeds(e, time, e.currentEpoch);
      assert (e.currentEpoch - 1) * e.duration + e.duration == e.currentEpoch * e.duration;
    }
  }

  function Visits(e: EpochInfo, times: seq<int>): EpochInfo {
    if times == [] then e
    else Visit(Visits(e, times[..|times| - 1]), times[|times| - 1], |times|)
  }

  /** The epoch numbers that end while the given blocks are visited. */
  function Ended(e: EpochInfo, times: seq<int>): seq<int> {
    if times == [] then []
    else
      var init := times[..|times| - 1];
      var before := Visits(e, init);
      Ended(e, init) + if EpochEnds(before, times[|times| - 1]) && before.startTime <= times[|times| - 1]
                       then [before.currentEpoch] else []
  }

  predicate Nondecreasing(times: seq<int>) {
    forall i, j :: 0 <= i <= j < |times| ==> times[i] <= times[j]
  }

  lemma {:induction false} ClockOnTime(e: EpochInfo, times: seq<int>)
    requires Fresh(e) && Nondecreasing(times) && times != []
    ensures OnTime(Visits(e, times), times[|times| - 1])
    ensures Visits(e, times).startTime == e.startTime && Visits(e, times).duration == e.duration
    ensures |times| >= 2 ==>
      var before, after := Visits(e, times[..|times| - 1]), Visits(e, times);
      before.epochCountingStarted ==> before.currentEpoch <= after.currentEpoch <= before.currentEpoch + 1
  {
    var init, last := times[..|times| - 1], times[|times| - 1];
    var before := Visits(e, init);
    if init != [] {
      ClockOnTime(e, init);
      TargetMonotone(before, init[|init| - 1], last);
    }
    VisitExact(before, last, |times|);
  }

  /**
   After any blocks of nondecreasing times, the clock of a fresh epoch satisfies the start-time equation and
   the upper bound, and the epochs that ended are 1, 2, 3, ... without a gap.
   */
  lemma {:induction false} EndsAreConsecutive(e: EpochInfo, times: seq<int>)
    requires Fresh(e) && Nondecreasing(times)
    ensures var after, ended := Visits(e, times), Ended(e, times);
            && (forall i :: 0 <= i < |ended| ==> ended[i] == i + 1)
            && |ended| == (if after.epochCountingStarted then after.currentEpoch - 1 else 0)
            && (times != [] ==> OnTime(after, times[|times| - 1]))
  {
    if times != [] {
      var init, last := times[..|times| - 1], times[|times| - 1];
      EndsAreConsecutive(e, init);
      ClockOnTime(e, times);
      var before := Visits(e, init);
      if init != [] {
        ClockOnTime(e, init);
        TargetMonotone(before, init[|init| - 1], last);
      }
      VisitExact(before, last, |times|);
    }
  }

  function Repeat(time: int, n: nat): seq<int> {
    seq(n, i => time)
  }

  /** A clock that is behind catches up in exactly as many visits as it is epochs behind, and then stands still. */
  lemma {:induction false} CatchUp(e: EpochInfo, time: int, n: nat)
    requires OnTime(e, time) && e.epochCountingStarted
    ensures OnTime(Visits(e, Repeat(time, n)), time) && Visits(e, Repeat(time, n)).epochCountingStarted
    ensures Visits(e, Repeat(time, n)).duration == e.duration && Visits(e, Repeat(time, n)).startTime == e.startTime
    ensures Visits(e, Repeat(time, n)).currentEpoch ==
      if n < Target(e, time) - e.currentEpoch then e.currentEpoch + n else Target(e, time)
  {
    if n > 0 {
      assert Repeat(time, n)[..n - 1] == Repeat(time, n - 1);
      CatchUp(e, time, n - 1);
      VisitExact(Visits(e, Repeat(time, n - 1)), time, n);
    }
  }

  function LastTime(times: seq<int>): int
    requires times != []
  {
    times[|times| - 1]
  }

  /** After any blocks of nondecreasing times, a fresh clock has started exactly if its start time has come. */
  lemma {:induction false} ClockStarts(e: EpochInfo, times: seq<int>)
    requires Fresh(e) && Nondecreasing(times)
    ensures Visits(e, times).epochCountingStarted <==> times != [] && LastTime(times) >= e.startTime
  {
    if times != [] {
      var init, last := times[..|times| - 1], LastTime(times);
      var before := Visits(e, init);
      ClockStarts(e, init);
      ClockOnTime(e, times);
      if init != [] {
        ClockOnTime(e, init);
        TargetMonotone(before, LastTime(init), last);
      }
      VisitExact(before, last, |times|);
    }
  }

  /** What the clock shows after that many visits at one time, counted from the first. */
  function Shown(e: EpochInfo, time: int, visits: nat): int
    requires e.duration > 0
  {
    if visits < Target(e, time) then visits else Target(e, time)
  }

  /**
   From the start: the first visit at or after the start time shows epoch 1, every further one the next epoch until
   the clock shows the one it should, and each but the last epoch shown has ended.
   */
  lemma {:induction false} CatchUpFromStart(e: EpochInfo, time: int, n: nat)
    requires Fresh(e) && time >= e.startTime
    ensures var (times, after) := (Repeat(time, n + 1), Visits(e, Repeat(time, n + 1)));
            && after.epochCountingStarted && after.currentEpoch == Shown(e, time, n + 1)
            && |Ended(e, times)| == Shown(e, time, n + 1) - 1
  {
    EndsAreConsecutive(e, Repeat(time, n + 1));
    LastOfRepeat(e, time, n);
    if n > 0 {
      CatchUpFromStart(e, time, n - 1);
      ClockOnTime(e, Repeat(time, n));
      ShownNext(e, Visits(e, Repeat(time, n)), time, n);
    } else {
      ShownFirst(e, time);
    }
  }

  lemma LastOfRepeat(e: EpochInfo, time: int, n: nat)
    ensures Visits(e, Repeat(time, n + 1)) == Visit(Visits(e, Repeat(time, n)), time, n + 1)
  {
    assert Repeat(time, n + 1)[..n] == Repeat(time, n);
  }

  lemma ShownFirst(e: EpochInfo, time: int)
    requires Fresh(e) && time >= e.startTime
    ensures Visit(e, time, 1).epochCountingStarted && Visit(e, time, 1).currentEpoch == Shown(e, time, 1)
  {
    VisitExact(e, time, 1);
  }

  lemma ShownNext(e: EpochInfo, before: EpochInfo, time: int, n: nat)
    requires e.duration > 0 && before.startTime == e.startTime && before.duration == e.duration
    requires OnTime(before, time) && before.epochCountingStarted && before.currentEpoch == Shown(e, time, n)
    ensures var after := Visit(before, time, n + 1);
            after.epochCountingStarted && after.currentEpoch == Shown(e, time, n + 1)
  {
    VisitExact(before, time, n + 1);
  }

  // ---------------------------------------------------------------- the end of an epoch

  /** Go's conversion of an epoch number to uint64. */
  function EpochHour(e: EpochInfo): uint64 {
    e.currentEpoch % UINT64_MODULUS
  }

  function DueOf(s: State, keys: seq<bytes>, epochHour: int): (due: seq<bytes>)
    requires WellKeyed(s) && forall k :: k in keys ==> k in s.limits
    ensures forall k :: k in due <==> k in keys && Due(s.limits[k], epochHour)
  {
    if keys == [] then []
    else
      var last := keys[|keys| - 1];
      DueOf(s, keys[..|keys| - 1], epochHour) + if Due(s.limits[last], epochHour) then [last] else []
  }

  /** The stores after the due limits among the given keys were reset one after the other. */
  function ResetDue(s: State, tokens: Tokens, bank: Bank, keys: seq<bytes>, epochHour: int): State
    requires WellKeyed(s) && forall k :: k in keys ==> k in s.limits
  {
    ResetAll(s, tokens, bank, PathsOf(s, DueOf(s, keys, epochHour)))
  }

  /** Only the epoch named "hour" resets anything; it resets the due limits in key order. */
  function EpochEnd(s: State, tokens: Tokens, bank: Bank, e: EpochInfo): State
    requires WellKeyed(s)
  {
    if e.identifier != DAY_EPOCH then s
    else ResetDue(s, tokens, bank, SortedKeys(s.limits.Keys), EpochHour(e))
  }

  /**
   An epoch end resets exactly the limits whose duration divides the ended epoch number, to the present supply
   and a zero flow, leaves every other limit as it was, and unmarks exactly the pending sends whose channel id
   starts with the channel id of a limit that was reset.
   */
  lemma EpochEndResetsExactlyTheDue(s: State, tokens: Tokens, bank: Bank, e: EpochInfo)
    requires WellKeyed(s) && Resolved(s, tokens)
    ensures EpochEnd(s, tokens, bank, e)
            == (if e.identifier == DAY_EPOCH then ResetKeys(s, bank, DueKeys(s, EpochHour(e))) else s)
  {
    if e.identifier == DAY_EPOCH {
      var due := DueOf(s, SortedKeys(s.limits.Keys), EpochHour(e));
      ResetAllIsResetKeys(s, tokens, bank, due);
      assert KeySet(due) == DueKeys(s, EpochHour(e));
    }
  }

  // ---------------------------------------------------------------- the store

  predicate EpochsKeyed(epochs: map<bytes, EpochInfo>) {
    forall id :: id in epochs ==> epochs[id].identifier == id && id != []
  }

  lemma {:induction false} ResetAllKeepsKeys(s: State, tokens: Tokens, bank: Bank, paths: seq<Path>)
    requires WellKeyed(s)
    ensures WellKeyed(ResetAll(s, tokens, bank, paths))
    ensures Resolved(s, tokens) ==> Resolved(ResetAll(s, tokens, bank, paths), tokens)
    decreases |paths|
  {
    if paths != [] {
      ResetAllKeepsKeys(s, tokens, bank, paths[..|paths| - 1]);
    }
  }

  /** The epochs in key order up to the first whose start time is still to come. */
  function Reached(epochs: map<bytes, EpochInfo>, ids: seq<bytes>, time: int): (n: nat)
    requires forall id :: id in ids ==> id in epochs
    ensures n <= |ids|
    ensures forall i :: 0 <= i < n ==> epochs[ids[i]].startTime <= time
    ensures n < |ids| ==> time < epochs[ids[n]].startTime
  {
    if ids == [] || time < epochs[ids[0]].startTime then 0
    else 1 + Reached(epochs, ids[1..], time)
  }

  /** The limits after the visited epochs that end have reset what is due. */
  function LimitsAfter(
    s: State, tokens: Tokens, bank: Bank, epochs: map<bytes, EpochInfo>, ids: seq<bytes>, n: nat, time: int): (r: State)
    requires WellKeyed(s) && n <= |ids| && forall id :: id in ids ==> id in epochs
    ensures WellKeyed(r)
  {
    if n == 0 then s
    else
      var before := LimitsAfter(s, tokens, bank, epochs, ids, n - 1, time);
      var e := epochs[ids[n - 1]];
      if !EpochEnds(e, time) then before
      else
        EpochEndKeepsKeys(before, tokens, bank, e);
        EpochEnd(before, tokens, bank, e)
  }

  lemma EpochEndKeepsKeys(s: State, tokens: Tokens, bank: Bank, e: EpochInfo)
    requires WellKeyed(s)
    ensures WellKeyed(EpochEnd(s, tokens, bank, e))
  {
    if e.identifier == DAY_EPOCH {
      ResetAllKeepsKeys(s, tokens, bank, PathsOf(s, DueOf(s, SortedKeys(s.limits.Keys), EpochHour(e))));
    }
  }

  /** The epoch store after a block, whatever the limits do. */
  function TickFirst(epochs: map<bytes, EpochInfo>, ids: seq<bytes>, n: nat,
    time: int, height: int): map<bytes, EpochInfo>
    requires n <= |ids|
  {
    map id | id in epochs :: if id in ids[..n] then Tick(epochs[id], time, height) else epochs[id]
  }

  predicate Ordered(ids: seq<bytes>) {
    forall i, j :: 0 <= i < j < |ids| ==> Below(ids[i], ids[j]) && ids[i] != ids[j]
  }

  lemma InPrefix(ids: seq<bytes>, n: nat, at: nat)
    requires Ordered(ids) && n <= |ids| && at < |ids|
    ensures ids[at] in ids[..n] <==> at < n
    ensures n < |ids| ==> ids[..n + 1] == ids[..n] + [ids[n]]
  {
    if at < n {
      assert ids[..n][at] == ids[at];
    }
  }

  lemma BelowIsEarlier(ids: seq<bytes>, i: nat, at: nat)
    requires Ordered(ids) && i < |ids| && at < |ids|
    ensures Below(ids[i], ids[at]) <==> i <= at
  {
    BelowTotal(ids[at], ids[at]);
    if i > at && Below(ids[i], ids[at]) {
      BelowAntisymmetric(ids[i], ids[at]);
    }
  }

  lemma ReachedAt(epochs: map<bytes, EpochInfo>, ids: seq<bytes>, at: nat, time: int)
    requires Ordered(ids) && at < |ids| && (forall id :: id in ids <==> id in epochs)
    ensures at < Reached(epochs, ids, time)
            <==> forall id' :: id' in epochs && Below(id', ids[at]) ==> epochs[id'].startTime <= time
  {
    var n := Reached(epochs, ids, time);
    if at < n {
      forall id' | id' in epochs && Below(id', ids[at]) ensures epochs[id'].startTime <= time {
        var i :| 0 <= i < |ids| && ids[i] == id';
        BelowIsEarlier(ids, i, at);
      }
    } else {
      BelowIsEarlier(ids, n, at);
      assert ids[n] in ids;
    }
  }

  /** The iteration reaches an epoch exactly if no epoch up to it in key order is still to start. */
  lemma ReachedIff(epochs: map<bytes, EpochInfo>, ids: seq<bytes>, id: bytes, time: int)
    requires ids == SortedKeys(epochs.Keys) && id in epochs
    ensures id in ids[..Reached(epochs, ids, time)]
            <==> forall id' :: id' in epochs && Below(id', id) ==> epochs[id'].startTime <= time
  {
    var at :| 0 <= at < |ids| && ids[at] == id;
    ReachedAt(epochs, ids, at, time);
    InPrefix(ids, Reached(epochs, ids, time), at);
  }

  lemma LimitsAfterNext(s: State, tokens: Tokens, bank: Bank, epochs: map<bytes, EpochInfo>, ids: seq<bytes>,
                        n: nat, time: int, before: State)
    requires WellKeyed(s) && 0 < n <= |ids| && forall id :: id in ids ==> id in epochs
    requires before == LimitsAfter(s, tokens, bank, epochs, ids, n - 1, time)
    ensures WellKeyed(before)
    ensures LimitsAfter(s, tokens, bank, epochs, ids, n, time)
            == if EpochEnds(epochs[ids[n - 1]], time) then EpochEnd(before, tokens, bank, epochs[ids[n - 1]])
              else before
  {
  }

  lemma DayInPrefix(ids: seq<bytes>, n: nat)
    requires Ordered(ids) && 0 < n <= |ids|
    ensures ids[n - 1] in ids
    ensures DAY_EPOCH in ids[..n] <==> DAY_EPOCH in ids[..n - 1] || ids[n - 1] == DAY_EPOCH
    ensures ids[n - 1] == DAY_EPOCH ==> DAY_EPOCH !in ids[..n - 1]
  {
    InPrefix(ids, n - 1, n - 1);
  }

  lemma EndOfOther(s: State, tokens: Tokens, bank: Bank, epochs: map<bytes, EpochInfo>, id: bytes)
    requires WellKeyed(s) && EpochsKeyed(epochs) && id in epochs
    ensures id != DAY_EPOCH ==> EpochEnd(s, tokens, bank, epochs[id]) == s
  {
  }

  /** Only the hour epoch touches the limits, so a block resets what is due for it or nothing. */
  lemma {:induction false} BlockResets(
    s: State, tokens: Tokens, bank: Bank, epochs: map<bytes, EpochInfo>, ids: seq<bytes>, n: nat, time: int)
    requires WellKeyed(s) && EpochsKeyed(epochs) && n <= |ids| && (forall id :: id in ids ==> id in epochs)
    requires Ordered(ids)
    ensures LimitsAfter(s, tokens, bank, epochs, ids, n, time)
            == (if DAY_EPOCH in ids[..n] && EpochEnds(epochs[DAY_EPOCH], time)
                then EpochEnd(s, tokens, bank, epochs[DAY_EPOCH]) else s)
  {
    if n > 0 {
      BlockResets(s, tokens, bank, epochs, ids, n - 1, time);
      DayInPrefix(ids, n);
      var before := LimitsAfter(s, tokens, bank, epochs, ids, n - 1, time);
      LimitsAfterNext(s, tokens, bank, epochs, ids, n, time, before);
      EndOfOther(before, tokens, bank, epochs, ids[n - 1]);
    }
  }

  lemma DueOfSnoc(s: State, keys: seq<bytes>, epochHour: int, i: nat)
    requires WellKeyed(s) && i < |keys| && forall k :: k in keys ==> k in s.limits
    ensures var due := DueOf(s, keys[..i], epochHour);
            DueOf(s, keys[..i + 1], epochHour) == if Due(s.limits[keys[i]], epochHour) then due + [keys[i]] else due
  {
    assert keys[..i + 1][..i] == keys[..i];
  }

  /** One more iteration of the reset loop. */
  lemma OneMoreKey(s: State, tokens: Tokens, bank: Bank, keys: seq<bytes>, epochHour: int, i: nat)
    requires WellKeyed(s) && i < |keys| && forall k :: k in keys ==> k in s.limits
    ensures var before := ResetDue(s, tokens, bank, keys[..i], epochHour);
            var rl := s.limits[keys[i]];
            ResetDue(s, tokens, bank, keys[..i + 1], epochHour)
            == (if Due(rl, epochHour) then Reset(before, tokens, bank, rl.path.denom, rl.path.channelId).0 else before)
  {
    var due := DueOf(s, keys[..i], epochHour);
    DueOfSnoc(s, keys, epochHour, i);
    if Due(s.limits[keys[i]], epochHour) {
      PathsOfSnoc(s, due, keys[i]);
      ResetAllSnoc(s, tokens, bank, PathsOf(s, due), s.limits[keys[i]].path);
    }
  }

  /** The first i epochs were visited, and all of them had to be. */
  ghost predicate Visited(
    before: map<bytes, EpochInfo>, s: State, tokens: Tokens, bank: Bank, ids: seq<bytes>, i: nat,
      time: int, height: int,
    epochs: map<bytes, EpochInfo>, s': State)
    requires WellKeyed(s) && i <= |ids| && forall id :: id in ids ==> id in before
  {
    && (forall j :: 0 <= j < i ==> before[ids[j]].startTime <= time)
    && epochs == TickFirst(before, ids, i, time, height)
    && s' == LimitsAfter(s, tokens, bank, before, ids, i, time)
  }

  lemma VisitedNext(
    before: map<bytes, EpochInfo>, s: State, tokens: Tokens, bank: Bank, ids: seq<bytes>, i: nat,
      time: int, height: int,
    epochs: map<bytes, EpochInfo>, s': State, epochs': map<bytes, EpochInfo>, s'': State)
    requires WellKeyed(s) && WellKeyed(s') && Ordered(ids) && i < |ids| && forall id :: id in ids ==> id in before
    requires EpochsKeyed(before) && Visited(before, s, tokens, bank, ids, i, time, height, epochs, s')
    requires epochs[ids[i]].startTime <= time
    requires epochs' == epochs[ids[i] := Tick(epochs[ids[i]], time, height)]
    requires s'' == if EpochEnds(epochs[ids[i]], time) then EpochEnd(s', tokens, bank, epochs[ids[i]]) else s'
    ensures EpochsKeyed(epochs') && WellKeyed(s'')
    ensures Visited(before, s, tokens, bank, ids, i + 1, time, height, epochs', s'')
  {
    TickOneMore(before, ids, i, time, height);
    TickKeepsKeys(before, ids, i + 1, time, height);
    EpochEndKeepsKeys(s', tokens, bank, epochs[ids[i]]);
  }

  lemma VisitedAll(
    before: map<bytes, EpochInfo>, s: State, tokens: Tokens, bank: Bank, ids: seq<bytes>, i: nat,
      time: int, height: int,
    epochs: map<bytes, EpochInfo>, s': State)
    requires WellKeyed(s) && Ordered(ids) && i <= |ids| && forall id :: id in ids ==> id in before
    requires Visited(before, s, tokens, bank, ids, i, time, height, epochs, s')
    requires i < |ids| ==> time < epochs[ids[i]].startTime
    ensures i == Reached(before, ids, time)
  {
    if i < |ids| {
      TickOneMore(before, ids, i, time, height);
    }
    ReachedIs(before, ids, i, time);
  }

  class EpochKeeper {
    var epochs: map<bytes, EpochInfo>
    const limits: Keeper

    constructor (limits: Keeper)
      ensures this.limits == limits && epochs == map[]
    {
      this.limits := limits;
      epochs := map[];
    }

    method AddEpochInfo(epoch: EpochInfo, time: int, height: int) returns (r: Result<(), Error>)
      requires EpochsKeyed(epochs)
      modifies this
      ensures r.Ok? <==> epoch.Validate() && epoch.identifier !in old(epochs)
      ensures r.Err? ==>
        epochs == old(epochs) && r.error == if epoch.Validate() then EpochAlreadyExists else InvalidEpoch
      ensures r.Ok? ==> epochs == old(epochs)[epoch.identifier := epoch.(
                startTime := if epoch.startTime == ZERO_TIME then time else epoch.startTime,
                currentEpochStartHeight := height)]
      ensures EpochsKeyed(epochs)
    {
      if !epoch.Validate() {
        return Err(InvalidEpoch);
      }
      var existing := if epoch.identifier in epochs then epochs[epoch.identifier] else NO_EPOCH;
      if existing != NO_EPOCH {
        return Err(EpochAlreadyExists);
      }
      var e := epoch;
      if e.startTime == ZERO_TIME {
        e := e.(startTime := time);
      }
      e := e.(currentEpochStartHeight := height);
      epochs := epochs[e.identifier := e];
      return Ok(());
    }

    /** Resets the due limits of a snapshot, one by one. */
    method ResetSnapshot(bank: Bank, all: seq<RateLimit>, epochHour: uint64, ghost keys: seq<bytes>)
      requires WellKeyed(limits.Abs()) && |all| == |keys|
      requires forall i :: 0 <= i < |keys| ==> keys[i] in limits.limits && all[i] == limits.limits[keys[i]]
      modifies limits
      ensures limits.Abs() == ResetDue(old(limits.Abs()), limits.tokens, bank, keys, epochHour)
    {
      ghost var s := limits.Abs();
      for i := 0 to |all|
        invariant limits.Abs() == ResetDue(s, limits.tokens, bank, keys[..i], epochHour)
      {
        var rateLimit := all[i];
        OneMoreKey(s, limits.tokens, bank, keys, epochHour, i);
        if epochHour % rateLimit.quota.durationHours == 0 {
          var r := limits.ResetRateLimit(bank, rateLimit.path.denom, rateLimit.path.channelId);
        }
      }
      assert keys[..|all|] == keys;
    }

    method AfterEpochEnd(bank: Bank, e: EpochInfo)
      requires WellKeyed(limits.Abs())
      modifies limits
      ensures limits.Abs() == EpochEnd(old(limits.Abs()), limits.tokens, bank, e)
    {
      if e.identifier == DAY_EPOCH {
        var all := limits.GetAllRateLimits();
        ResetSnapshot(bank, all, EpochHour(e), SortedKeys(limits.limits.Keys));
      }
    }

    /** The visit of one epoch whose start time has come. */
    method VisitEpoch(bank: Bank, id: bytes, time: int, height: int)
      requires WellKeyed(limits.Abs()) && EpochsKeyed(epochs) && id in epochs
      modifies this, limits
      ensures epochs == old(epochs)[id := Tick(old(epochs)[id], time, height)]
      ensures limits.Abs() == if EpochEnds(old(epochs)[id], time)
                              then EpochEnd(old(limits.Abs()), limits.tokens, bank, old(epochs)[id])
                              else old(limits.Abs())
    {
      var epochInfo := epochs[id];
      var shouldInitialEpochStart := !epochInfo.epochCountingStarted;
      var epochEndTime := epochInfo.currentEpochStartTime + epochInfo.duration;
      if !(time > epochEndTime || shouldInitialEpochStart) {
        return;
      }
      epochInfo := epochInfo.(currentEpochStartHeight := height);
      if shouldInitialEpochStart {
        epochInfo := epochInfo.(
          epochCountingStarted := true, currentEpoch := 1, currentEpochStartTime := epochInfo.startTime);
      } else {
        AfterEpochEnd(bank, epochInfo);
        epochInfo := epochInfo.(
          currentEpoch := epochInfo.currentEpoch + 1,
          currentEpochStartTime := epochInfo.currentEpochStartTime + epochInfo.duration);
      }
      epochs := epochs[epochInfo.identifier := epochInfo];
    }

    /** The body of the loop over the epochs. */
    method VisitNext(
      bank: Bank, ids: seq<bytes>, i: nat, time: int, height: int, ghost before: map<bytes, EpochInfo>, ghost s: State)
      requires WellKeyed(s) && WellKeyed(limits.Abs()) && Ordered(ids) && i < |ids|
      requires EpochsKeyed(before) && EpochsKeyed(epochs) && forall id :: id in ids ==> id in before
      requires Visited(before, s, limits.tokens, bank, ids, i, time, height, epochs, limits.Abs())
      requires epochs[ids[i]].startTime <= time
      modifies this, limits
      ensures EpochsKeyed(epochs) && WellKeyed(limits.Abs())
      ensures Visited(before, s, limits.tokens, bank, ids, i + 1, time, height, epochs, limits.Abs())
    {
      ghost var epochs0, limits0 := epochs, limits.Abs();
      VisitEpoch(bank, ids[i], time, height);
      VisitedNext(before, s, limits.tokens, bank, ids, i, time, height, epochs0, limits0, epochs, limits.Abs());
    }

    /** Visits the epochs in the given order and stops at the first that is still to start. */
    method IterateEpochInfo(bank: Bank, ids: seq<bytes>, time: int, height: int)
      requires WellKeyed(limits.Abs()) && EpochsKeyed(epochs)
      requires Ordered(ids) && forall id :: id in ids ==> id in epochs
      modifies this, limits
      ensures var n := Reached(old(epochs), ids, time);
              && epochs == TickFirst(old(epochs), ids, n, time, height)
              && limits.Abs() == LimitsAfter(old(limits.Abs()), limits.tokens, bank, old(epochs), ids, n, time)
    {
      ghost var before := epochs;
      ghost var s := limits.Abs();
      var i := 0;
      while i < |ids| && time >= epochs[ids[i]].startTime
        invariant 0 <= i <= |ids|
        invariant EpochsKeyed(epochs) && WellKeyed(limits.Abs())
        invariant Visited(before, s, limits.tokens, bank, ids, i, time, height, epochs, limits.Abs())
      {
        VisitNext(bank, ids, i, time, height, before, s);
        i := i + 1;
      }
      VisitedAll(before, s, limits.tokens, bank, ids, i, time, height, epochs, limits.Abs());
    }

    /**
     One block: the epochs up to the first that is still to start move on, the others do not; and the limits
     change only if the hour epoch is among those reached and ends.
     */
    method BeginBlocker(bank: Bank, time: int, height: int)
      requires WellKeyed(limits.Abs()) && EpochsKeyed(epochs)
      modifies this, limits
      ensures var ids := SortedKeys(old(epochs).Keys);
              var n := Reached(old(epochs), ids, time);
              && epochs == TickFirst(old(epochs), ids, n, time, height)
              && limits.Abs() == (if DAY_EPOCH in ids[..n] && EpochEnds(old(epochs)[DAY_EPOCH], time)
                                  then EpochEnd(old(limits.Abs()), limits.tokens, bank, old(epochs)[DAY_EPOCH])
                                  else old(limits.Abs()))
      ensures EpochsKeyed(epochs) && WellKeyed(limits.Abs())
    {
      var ids := SortedKeys(epochs.Keys);
      BlockResets(limits.Abs(), limits.tokens, bank, epochs, ids, Reached(epochs, ids, time), time);
      TickKeepsKeys(epochs, ids, Reached(epochs, ids, time), time, height);
      IterateEpochInfo(bank, ids, time, height);
    }
  }

  lemma TickKeepsKeys(epochs: map<bytes, EpochInfo>, ids: seq<bytes>, n: nat, time: int, height: int)
    requires EpochsKeyed(epochs) && n <= |ids|
    ensures EpochsKeyed(TickFirst(epochs, ids, n, time, height))
  {
  }

  lemma TickOneMore(epochs: map<bytes, EpochInfo>, ids: seq<bytes>, i: nat, time: int, height: int)
    requires i < |ids| && ids[i] in epochs
    requires Ordered(ids)
    ensures TickFirst(epochs, ids, i, time, height)[ids[i]] == epochs[ids[i]]
    ensures TickFirst(epochs, ids, i + 1, time, height)
            == TickFirst(epochs, ids, i, time, height)[ids[i] := Tick(epochs[ids[i]], time, height)]
  {
    InPrefix(ids, i, i);
  }

  lemma {:induction false} ReachedIs(epochs: map<bytes, EpochInfo>, ids: seq<bytes>, n: nat, time: int)
    requires n <= |ids| && forall id :: id in ids ==> id in epochs
    requires forall j :: 0 <= j < n ==> epochs[ids[j]].startTime <= time
    requires n < |ids| ==> time < epochs[ids[n]].startTime
    ensures Reached(epochs, ids, time) == n
  {
    if n > 0 {
      assert forall j :: 0 <= j < n - 1 ==> ids[1..][j] == ids[j + 1];
      ReachedIs(epochs, ids[1..], n - 1, time);
    }
  }
}
