/**
 The history a run of the rate limiter leaves behind, and what the stored flows should be according to it.
 Nothing here looks at the stores: the sums are defined by the recorded events alone.
 */
module RateLimitHistory {
  import opened Wrappers
  import opened Bytes
  import opened Denoms
  import opened RateLimitTypes

  datatype Event =
    | Counted(info: PacketInfo, sequence: uint64)   // a send was added to the outflow of its path
    | Received(info: PacketInfo)                    // a receive was added to the inflow of its path
    | Reverted(info: PacketInfo, sequence: uint64)  // a send was taken off the outflow again
    | Settled(info: PacketInfo, sequence: uint64)   // a send was acknowledged with success
    | Zeroed(key: bytes, cleared: Option<bytes>, ceiling: Option<int>)
      // the flow of a path started again at zero; the channel id whose pending sends were unmarked with it;
      // the send threshold from then on, if the channel value is not zero

  type Log = seq<Event>

  function PathKey(info: PacketInfo): bytes {
    LimitKey(info.denom, info.channelId)
  }

  predicate SamePacket(e: Event, c: Event)
    requires (e.Counted? || e.Reverted? || e.Settled?) && c.Counted?
  {
    e.info.channelId == c.info.channelId && e.sequence == c.sequence
  }

  /** Event e takes the amount counted by c off the flow: its packet is reverted, or its path zeroed. */
  predicate Discounts(e: Event, c: Event)
    requires c.Counted?
  {
    match e
    case Reverted(_, _) => SamePacket(e, c)
    case Zeroed(key, _, _) => key == PathKey(c.info)
    case _ => false
  }

  /** After event e, the send counted by c is no longer marked as pending. */
  predicate Closes(e: Event, c: Event)
    requires c.Counted?
  {
    match e
    case Reverted(_, _) => SamePacket(e, c)
    case Settled(_, _) => SamePacket(e, c)
    case Zeroed(_, cleared, _) => cleared.Some? && cleared.value <= PendingKey(c.info.channelId, c.sequence)
    case _ => false
  }

  /** The send counted at index i is still part of the flow. */
  predicate Survives(log: Log, i: int) {
    0 <= i < |log| && log[i].Counted? && forall j :: i < j < |log| ==> !Discounts(log[j], log[i])
  }

  /** The send counted at index i is still marked as pending. */
  predicate Open(log: Log, i: int) {
    0 <= i < |log| && log[i].Counted? && forall j :: i < j < |log| ==> !Closes(log[j], log[i])
  }

  // ---------------------------------------------------------------- sums over the history

  /** Counted sends of a path since its last zeroing that were not reverted, among the first n events. */
  function OutstandingUpTo(log: Log, key: bytes, n: nat): int
    requires n <= |log|
  {
    if n == 0 then 0
    else OutstandingUpTo(log, key, n - 1)
         + if Survives(log, n - 1) && PathKey(log[n - 1].info) == key then log[n - 1].info.amount else 0
  }

  function Outstanding(log: Log, key: bytes): int {
    OutstandingUpTo(log, key, |log|)
  }

  /** A send of this packet was counted and is still part of the flow. */
  predicate CountsFor(log: Log, e: Event)
    requires e.Reverted?
  {
    exists i :: 0 <= i < |log| && Survives(log, i) && SamePacket(e, log[i])
  }

  /**
   Stale reverts of a path since its last zeroing: those of sends that were counted before it, whose amounts were
   no longer part of the flow.
   */
  function StaleSince(log: Log, key: bytes): int {
    if log == [] then 0
    else
      var (init, e) := (log[..|log| - 1], log[|log| - 1]);
      if e.Zeroed? && e.key == key then 0
      else
        StaleSince(init, key)
        + if e.Reverted? && PathKey(e.info) == key && !CountsFor(init, e) then e.info.amount else 0
  }

  /** Sends counted on a path since its last zeroing, reverted or not. */
  function CountedSince(log: Log, key: bytes): int {
    if log == [] then 0
    else
      var (init, e) := (log[..|log| - 1], log[|log| - 1]);
      if e.Zeroed? && e.key == key then 0
      else CountedSince(init, key) + if e.Counted? && PathKey(e.info) == key then e.info.amount else 0
  }

  /** Counted sends of a path whose pending mark is among the given ones. */
  function MarkedUpTo(log: Log, marks: set<bytes>, key: bytes, n: nat): int
    requires n <= |log|
  {
    if n == 0 then 0
    else
      var e := log[n - 1];
      MarkedUpTo(log, marks, key, n - 1)
      + if e.Counted? && PathKey(e.info) == key && PendingKey(e.info.channelId, e.sequence) in marks
        then e.info.amount else 0
  }

  function Marked(log: Log, marks: set<bytes>, key: bytes): int {
    MarkedUpTo(log, marks, key, |log|)
  }

  /** The part of them that was counted before the last zeroing of the path, or reverted. */
  function StaleMarkedUpTo(log: Log, marks: set<bytes>, key: bytes, n: nat): int
    requires n <= |log|
  {
    if n == 0 then 0
    else
      var e := log[n - 1];
      StaleMarkedUpTo(log, marks, key, n - 1)
      + if e.Counted? && PathKey(e.info) == key && PendingKey(e.info.channelId, e.sequence) in marks
           && !Survives(log, n - 1)
        then e.info.amount else 0
  }

  function StaleMarked(log: Log, marks: set<bytes>, key: bytes): int {
    StaleMarkedUpTo(log, marks, key, |log|)
  }

  /** Receives of a path since its last zeroing. */
  function ReceivedSince(log: Log, key: bytes): int {
    if log == [] then 0
    else
      var (init, e) := (log[..|log| - 1], log[|log| - 1]);
      if e.Zeroed? && e.key == key then 0
      else ReceivedSince(init, key) + if e.Received? && PathKey(e.info) == key then e.info.amount else 0
  }

  /** Amounts reverted on a path since its last zeroing, whichever window they were counted in. */
  function RevertedSince(log: Log, key: bytes): int {
    if log == [] then 0
    else
      var (init, e) := (log[..|log| - 1], log[|log| - 1]);
      if e.Zeroed? && e.key == key then 0
      else RevertedSince(init, key) + if e.Reverted? && PathKey(e.info) == key then e.info.amount else 0
  }

  /** Over the whole history: counted sends, less reverted sends, less receives of a path. */
  function NetSent(log: Log, key: bytes): int {
    if log == [] then 0
    else
      var (init, e) := (log[..|log| - 1], log[|log| - 1]);
      NetSent(init, key)
      + match e
        case Counted(info, _) => if PathKey(info) == key then info.amount else 0
        case Received(info) => if PathKey(info) == key then -info.amount else 0
        case Reverted(info, _) => if PathKey(info) == key then -info.amount else 0
        case _ => 0
  }

  /** How often the flow of a path started at zero. */
  function Windows(log: Log, key: bytes): nat {
    if log == [] then 0
    else
      var (init, e) := (log[..|log| - 1], log[|log| - 1]);
      Windows(init, key) + if e.Zeroed? && e.key == key then 1 else 0
  }

  /** Every window of the path had a threshold, of at most t. */
  predicate Ceilings(log: Log, key: bytes, t: int) {
    forall i :: 0 <= i < |log| && log[i].Zeroed? && log[i].key == key ==>
      log[i].ceiling.Some? && log[i].ceiling.value <= t
  }

  // ---------------------------------------------------------------- how one more event changes the sums

  lemma SurvivesExtend(log: Log, e: Event, i: nat)
    requires i < |log|
    ensures Survives(log + [e], i) <==> Survives(log, i) && !Discounts(e, log[i])
  {
    var l := log + [e];
    assert l[i] == log[i] && l[|log|] == e;
    if Survives(l, i) {
      forall j | i < j < |log| ensures !Discounts(log[j], log[i]) {
        assert l[j] == log[j];
      }
    }
  }

  lemma OpenExtend(log: Log, e: Event, i: nat)
    requires i < |log|
    ensures Open(log + [e], i) <==> Open(log, i) && !Closes(e, log[i])
  {
    var l := log + [e];
    assert l[i] == log[i] && l[|log|] == e;
    if Open(l, i) {
      forall j | i < j < |log| ensures !Closes(log[j], log[i]) {
        assert l[j] == log[j];
      }
    }
  }

  lemma {:induction false} OutstandingKept(log: Log, e: Event, key: bytes, n: nat)
    requires n <= |log|
    requires forall i :: 0 <= i < n && log[i].Counted? && PathKey(log[i].info) == key && Survives(log, i) ==>
               !Discounts(e, log[i])
    ensures OutstandingUpTo(log + [e], key, n) == OutstandingUpTo(log, key, n)
  {
    if n > 0 {
      OutstandingKept(log, e, key, n - 1);
      SurvivesExtend(log, e, n - 1);
    }
  }

  lemma {:induction false} OutstandingZeroed(log: Log, e: Event, key: bytes, n: nat)
    requires n <= |log| && e.Zeroed? && e.key == key
    ensures OutstandingUpTo(log + [e], key, n) == 0
  {
    if n > 0 {
      OutstandingZeroed(log, e, key, n - 1);
      SurvivesExtend(log, e, n - 1);
    }
  }

  /** Reverting the one event that counted a packet takes off exactly its amount. */
  lemma {:induction false} OutstandingReverted(log: Log, e: Event, key: bytes, n: nat, at: nat)
    requires n <= |log| && e.Reverted? && at < |log|
    requires Survives(log, at) && log[at].info == e.info && log[at].sequence == e.sequence && PathKey(e.info) == key
    requires forall i :: 0 <= i < |log| && i != at && log[i].Counted? ==> !SamePacket(e, log[i])
    ensures OutstandingUpTo(log + [e], key, n) == OutstandingUpTo(log, key, n) - if at < n then e.info.amount else 0
  {
    if n > 0 {
      OutstandingReverted(log, e, key, n - 1, at);
      SurvivesExtend(log, e, n - 1);
    }
  }

  /** The marked amounts, but for the stale ones, are part of the outstanding ones. */
  lemma {:induction false} MarkedAtMostOutstanding(log: Log, marks: set<bytes>, key: bytes, n: nat)
    requires n <= |log|
    requires forall i :: 0 <= i < |log| && log[i].Counted? ==> log[i].info.amount >= 0
    ensures 0 <= StaleMarkedUpTo(log, marks, key, n) <= MarkedUpTo(log, marks, key, n)
            <= OutstandingUpTo(log, key, n) + StaleMarkedUpTo(log, marks, key, n)
  {
    if n > 0 {
      MarkedAtMostOutstanding(log, marks, key, n - 1);
    }
  }

  /** A path has no stale marked amount if all its marked sends of a positive amount are part of the flow. */
  lemma {:induction false} NoneStaleMarked(log: Log, marks: set<bytes>, key: bytes, n: nat)
    requires n <= |log|
    requires forall i | 0 <= i < |log| && log[i].Counted? && PathKey(log[i].info) == key ::
               PendingKey(log[i].info.channelId, log[i].sequence) in marks ==>
                 log[i].info.amount == 0 || Survives(log, i)
    ensures StaleMarkedUpTo(log, marks, key, n) == 0
  {
    if n > 0 {
      NoneStaleMarked(log, marks, key, n - 1);
    }
  }

  /** A send that is part of the flow is part of the outstanding amount of its path. */
  lemma {:induction false} SurvivorIsOutstanding(log: Log, key: bytes, n: nat, i: nat)
    requires i < n <= |log| && Survives(log, i) && PathKey(log[i].info) == key
    requires forall j :: 0 <= j < |log| && log[j].Counted? ==> log[j].info.amount >= 0
    ensures log[i].info.amount <= OutstandingUpTo(log, key, n)
  {
    if i < n - 1 {
      SurvivorIsOutstanding(log, key, n - 1, i);
    } else {
      OutstandingNonnegative(log, key, n - 1);
    }
  }

  lemma {:induction false} OutstandingNonnegative(log: Log, key: bytes, n: nat)
    requires n <= |log| && forall j :: 0 <= j < |log| && log[j].Counted? ==> log[j].info.amount >= 0
    ensures OutstandingUpTo(log, key, n) >= 0
  {
    if n > 0 {
      OutstandingNonnegative(log, key, n - 1);
    }
  }

  /** The event at index j is a revert of the path, since its last zeroing, of a send no longer part of the flow. */
  predicate StaleRevert(log: Log, key: bytes, j: int) {
    && 0 <= j < |log| && log[j].Reverted? && PathKey(log[j].info) == key
    && !CountsFor(log[..j], log[j])
    && forall m :: j < m < |log| ==> !(log[m].Zeroed? && log[m].key == key)
  }

  lemma {:induction false} StaleSinceZero(log: Log, key: bytes)
    requires forall j :: 0 <= j < |log| && log[j].Reverted? ==> log[j].info.amount >= 0
    ensures StaleSince(log, key) >= 0
    ensures StaleSince(log, key) == 0 <==> forall j :: StaleRevert(log, key, j) ==> log[j].info.amount == 0
    decreases |log|
  {
    if log != [] {
      var init, e := log[..|log| - 1], log[|log| - 1];
      StaleSinceZero(init, key);
      if !(e.Zeroed? && e.key == key) {
        forall j | 0 <= j < |init| ensures StaleRevert(log, key, j) <==> StaleRevert(init, key, j) {
          assert log[..j] == init[..j];
        }
        assert log[..|init|] == init;
        if e.Reverted? && PathKey(e.info) == key && !CountsFor(init, e) {
          assert StaleRevert(log, key, |init|);
        }
        forall j | StaleRevert(log, key, j) ensures j < |init| ==> StaleRevert(init, key, j) {
        }
      } else {
        assert forall j :: 0 <= j < |log| ==> !StaleRevert(log, key, j);
      }
    }
  }
}
