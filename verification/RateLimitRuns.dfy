/**
 Runs of the rate limiter: packets are sent, received, acknowledged and timed out in any order, limits are
 added, updated, removed and reset, and the whitelist changes.

 A step whose handler returns an error changes nothing. A receive whose inner application step fails is
 discarded by the channel keeper together with its count, so it does not appear in a run.
 */
module RateLimitRuns {
  import opened Wrappers
  import opened Bytes
  import opened Denoms
  import opened RateLimitTypes
  import opened RateLimitSpec
  import opened RateLimitHistory

  datatype Op =
    | SendOp(info: PacketInfo, sequence: uint64)
    | RecvOp(info: PacketInfo)
    | AckOp(info: PacketInfo, sequence: uint64)   // acknowledged with success
    | FailOp(info: PacketInfo, sequence: uint64)  // acknowledged with an error, or timed out
    | AddOp(bank: Bank, msg: LimitMsg)
    | UpdateOp(bank: Bank, msg: LimitMsg)
    | RemoveOp(denom: bytes, channelId: bytes)
    | ResetOp(bank: Bank, denom: bytes, channelId: bytes)
    | WhitelistOp(whitelist: map<bytes, AddressPair>)

  /** The stores, the packets the channel keeper has sent, and the history. */
  datatype World = World(s: State, sent: map<(bytes, uint64), PacketInfo>, log: Log)

  const EMPTY: World := World(State(map[], {}, map[]), map[], [])

  function Ceiling(rl: RateLimit): Option<int> {
    if rl.flow.channelValue == 0 then None else Some(rl.Threshold(PacketSend))
  }

  /** The event of a path whose record was just stored with a zero flow. */
  function Zeroing(s: State, key: bytes, cleared: Option<bytes>): Event
    requires key in s.limits
  {
    Zeroed(key, cleared, Ceiling(s.limits[key]))
  }

  function Step(w: World, tokens: Tokens, op: Op): World {
    match op
    case SendOp(info, n) =>
      var (s, r) := Send(w.s, info, n);
      if r.Err? then w
      else World(s, w.sent[(info.channelId, n) := info], if r.value then w.log + [Counted(info, n)] else w.log)
    case RecvOp(info) =>
      var (s, r) := Check(w.s, PacketRecv, info);
      if r == Ok(true) then World(s, w.sent, w.log + [Received(info)]) else w
    case AckOp(info, n) =>
      World(Settle(w.s, info, n), w.sent, w.log + [Settled(info, n)])
    case FailOp(info, n) =>
      if Undoes(w.s, info, n) then World(Undo(w.s, info, n), w.sent, w.log + [Reverted(info, n)]) else w
    case AddOp(bank, msg) =>
      var (s, r) := Add(w.s, tokens, bank, msg);
      if r.Err? then w else World(s, w.sent, w.log + [Zeroing(s, MsgKey(tokens, msg), None)])
    case UpdateOp(bank, msg) =>
      var (s, r) := Update(w.s, tokens, bank, msg);
      if r.Err? then w else World(s, w.sent, w.log + [Zeroing(s, MsgKey(tokens, msg), None)])
    case RemoveOp(denom, channel) =>
      w.(s := Remove(w.s, tokens, denom, channel).0)
    case ResetOp(bank, denom, channel) =>
      var key := LimitKey(Resolve(tokens, denom, channel), channel);
      var (s, r) := Reset(w.s, tokens, bank, denom, channel);
      if r.Err? || key !in s.limits then w
      else World(s, w.sent, w.log + [Zeroing(s, key, Some(channel))])
    case WhitelistOp(whitelist) =>
      w.(s := w.s.(whitelist := whitelist))
  }

  function MsgKey(tokens: Tokens, msg: LimitMsg): bytes {
    LimitKey(Resolve(tokens, msg.denom, msg.channelId), msg.channelId)
  }

  function Run(tokens: Tokens, ops: seq<Op>): World
    decreases |ops|
  {
    if ops == [] then EMPTY
    else Step(Run(tokens, ops[..|ops| - 1]), tokens, ops[|ops| - 1])
  }

  // ---------------------------------------------------------------- what the environment guarantees

  /** Amounts are nonnegative and messages pass their own validation. */
  predicate Basic(op: Op) {
    match op
    case SendOp(info, _) => info.amount >= 0
    case RecvOp(info) => info.amount >= 0
    case AckOp(info, _) => info.amount >= 0
    case FailOp(info, _) => info.amount >= 0
    case AddOp(_, msg) => msg.ValidateBasic()
    case UpdateOp(_, msg) => msg.ValidateBasic()
    case _ => true
  }

  /** Channels are ones the channel keeper made, sequences are fresh, and only sent packets come back. */
  predicate Linked(w: World, op: Op) {
    match op
    case SendOp(info, n) => ChannelId(info.channelId) && (info.channelId, n) !in w.sent
    case AckOp(info, n) => (info.channelId, n) in w.sent && w.sent[(info.channelId, n)] == info
    case FailOp(info, n) => (info.channelId, n) in w.sent && w.sent[(info.channelId, n)] == info
    case AddOp(_, msg) => ChannelId(msg.channelId)
    case UpdateOp(_, msg) => ChannelId(msg.channelId)
    case ResetOp(_, _, channel) => ChannelId(channel)
    case _ => true
  }

  predicate Legal(tokens: Tokens, ops: seq<Op>)
    decreases |ops|
  {
    ops == []
    || (var init, op := ops[..|ops| - 1], ops[|ops| - 1];
        var w := Run(tokens, init);
        Legal(tokens, init) && Basic(op) && Linked(w, op))
  }

  // ---------------------------------------------------------------- the history invariant

  ghost predicate SentOk(w: World) {
    forall p :: p in w.sent ==> p.0 == w.sent[p].channelId && ChannelId(p.0) && w.sent[p].amount >= 0
  }

  /** Counted and reverted events are of sent packets, and no packet is counted twice. */
  ghost predicate LogOk(w: World) {
    && (forall i :: 0 <= i < |w.log| && (w.log[i].Counted? || w.log[i].Reverted?) ==>
          var p := (w.log[i].info.channelId, w.log[i].sequence); p in w.sent && w.sent[p] == w.log[i].info)
    && (forall i, j :: 0 <= i < j < |w.log| && w.log[i].Counted? && w.log[j].Counted? ==>
          !SamePacket(w.log[i], w.log[j]))
  }

  function Mark(e: Event): bytes
    requires e.Counted?
  {
    PendingKey(e.info.channelId, e.sequence)
  }

  /** The pending marks are exactly those of the sends the history leaves open. */
  ghost predicate MarksOk(w: World) {
    && (forall k :: k in w.s.pending ==> exists i :: Open(w.log, i) && Mark(w.log[i]) == k)
    && (forall i :: Open(w.log, i) ==> Mark(w.log[i]) in w.s.pending)
  }

  /** The flow of a path is what the history says. */
  ghost predicate FlowOk(log: Log, k: bytes, flow: FlowValue) {
    && flow.outflow == Outstanding(log, k) - StaleSince(log, k)
    && flow.outflow == CountedSince(log, k) - RevertedSince(log, k)
    && flow.inflow == ReceivedSince(log, k)
  }

  ghost predicate FlowsOk(w: World) {
    forall k :: k in w.s.limits ==> FlowOk(w.log, k, w.s.limits[k].flow)
  }

  ghost predicate Inv(w: World) {
    WellKeyed(w.s) && SentOk(w) && LogOk(w) && MarksOk(w) && FlowsOk(w)
  }

  lemma SameMarkSamePacket(w: World, i: nat, channel: bytes, n: uint64)
    requires SentOk(w) && LogOk(w) && i < |w.log| && w.log[i].Counted?
    requires ChannelId(channel) && Mark(w.log[i]) == PendingKey(channel, n)
    ensures w.log[i].info.channelId == channel && w.log[i].sequence == n
  {
    PendingKeyInjective(w.log[i].info.channelId, w.log[i].sequence, channel, n);
  }

  lemma LogExtends(log: Log, e: Event)
    ensures forall i :: 0 <= i < |log| ==> (log + [e])[i] == log[i]
    ensures forall i :: 0 <= i < |log| ==>
      (Open(log + [e], i) <==> Open(log, i) && (log[i].Counted? ==> !Closes(e, log[i])))
    ensures Open(log + [e], |log|) <==> e.Counted?
    ensures (log + [e])[..|log|] == log
  {
    forall i | 0 <= i < |log|
      ensures Open(log + [e], i) <==> Open(log, i) && (log[i].Counted? ==> !Closes(e, log[i]))
    {
      if log[i].Counted? {
        OpenExtend(log, e, i);
      }
    }
  }

  lemma SendKeepsMarks(w: World, w': World, e: Event)
    requires MarksOk(w) && e.Counted?
    requires w'.log == w.log + [e] && w'.s.pending == w.s.pending + {Mark(e)}
    ensures MarksOk(w')
  {
    LogExtends(w.log, e);
    forall k | k in w'.s.pending ensures exists i :: Open(w'.log, i) && Mark(w'.log[i]) == k {
      if k in w.s.pending {
        var i :| Open(w.log, i) && Mark(w.log[i]) == k;
        assert Open(w'.log, i);
      } else {
        assert Open(w'.log, |w.log|);
      }
    }
    forall i | Open(w'.log, i) ensures Mark(w'.log[i]) in w'.s.pending {
      if i < |w.log| {
        assert Open(w.log, i);
      }
    }
  }

  /** One path's flow moves by the amount of the event, and nothing else in the limits changes. */
  ghost predicate Moves(w: World, w': World, key: bytes, inflow: int, outflow: int) {
    && key in w.s.limits
    && var rl := w.s.limits[key];
       w'.s.limits == w.s.limits[key := rl.(flow :=
         FlowValue(rl.flow.inflow + inflow, rl.flow.outflow + outflow, rl.flow.channelValue))]
  }

  lemma MovesKeepsKeys(w: World, w': World, key: bytes, inflow: int, outflow: int)
    requires WellKeyed(w.s) && Moves(w, w', key, inflow, outflow)
    ensures WellKeyed(w'.s) && w'.s.limits.Keys == w.s.limits.Keys
  {
  }

  lemma SendMoves(w: World, tokens: Tokens, op: Op)
    requires WellKeyed(w.s) && op.SendOp? && Check(w.s, PacketSend, op.info).1 == Ok(true)
    ensures Moves(w, Step(w, tokens, op), PathKey(op.info), 0, op.info.amount)
    ensures Step(w, tokens, op) ==
      World(Step(w, tokens, op).s.(pending := w.s.pending + {Mark(Counted(op.info, op.sequence))}),
            w.sent[(op.info.channelId, op.sequence) := op.info], w.log + [Counted(op.info, op.sequence)])
  {
  }

  lemma SendUncounted(w: World, tokens: Tokens, op: Op)
    requires op.SendOp? && Check(w.s, PacketSend, op.info).1 != Ok(true)
    ensures var w' := Step(w, tokens, op);
            w' == w || w' == w.(sent := w.sent[(op.info.channelId, op.sequence) := op.info])
  {
  }

  lemma RecvMoves(w: World, tokens: Tokens, op: Op)
    requires WellKeyed(w.s) && op.RecvOp? && Check(w.s, PacketRecv, op.info).1 == Ok(true)
    ensures Moves(w, Step(w, tokens, op), PathKey(op.info), op.info.amount, 0)
    ensures Step(w, tokens, op).log == w.log + [Received(op.info)]
    ensures Step(w, tokens, op).s.pending == w.s.pending && Step(w, tokens, op).sent == w.sent
  {
  }

  lemma FailMoves(w: World, tokens: Tokens, op: Op)
    requires WellKeyed(w.s) && op.FailOp? && Undoes(w.s, op.info, op.sequence)
    ensures Moves(w, Step(w, tokens, op), PathKey(op.info), 0, -op.info.amount)
    ensures Step(w, tokens, op).log == w.log + [Reverted(op.info, op.sequence)]
    ensures Step(w, tokens, op).s.pending == w.s.pending - {PendingKey(op.info.channelId, op.sequence)}
    ensures Step(w, tokens, op).sent == w.sent
  {
  }

  lemma SendKeepsLog(w: World, w': World, e: Event)
    requires SentOk(w) && LogOk(w) && e.Counted? && ChannelId(e.info.channelId) && e.info.amount >= 0
    requires (e.info.channelId, e.sequence) !in w.sent
    requires w'.sent == w.sent[(e.info.channelId, e.sequence) := e.info]
    requires w'.log == w.log || w'.log == w.log + [e]
    ensures SentOk(w') && LogOk(w')
  {
  }

  lemma LogKept(w: World, w': World, e: Event)
    requires SentOk(w) && LogOk(w) && !e.Counted? && w'.sent == w.sent && w'.log == w.log + [e]
    requires e.Reverted? ==>
               (e.info.channelId, e.sequence) in w.sent && w.sent[(e.info.channelId, e.sequence)] == e.info
    ensures SentOk(w') && LogOk(w')
  {
  }

  /** An event that is no send keeps the marks in step if it closes exactly the sends whose marks it takes away. */
  lemma ClosingMarks(w: World, w': World, e: Event)
    requires MarksOk(w) && !e.Counted? && w'.log == w.log + [e] && w'.s.pending <= w.s.pending
    requires forall i :: Open(w.log, i) ==> (Mark(w.log[i]) in w'.s.pending <==> !Closes(e, w.log[i]))
    ensures MarksOk(w')
  {
    LogExtends(w.log, e);
    forall k | k in w'.s.pending ensures exists i :: Open(w'.log, i) && Mark(w'.log[i]) == k {
      var i :| Open(w.log, i) && Mark(w.log[i]) == k;
      assert Open(w'.log, i);
    }
  }

  // ---------------------------------------------------------------- how one more event changes a flow

  /** An event that is neither a revert nor a zeroing of the path only adds what it counts or receives. */
  lemma FlowAfterMove(log: Log, e: Event, k: bytes, flow: FlowValue, flow': FlowValue)
    requires FlowOk(log, k, flow) && (e.Counted? || e.Received? || e.Settled? || (e.Zeroed? && e.key != k))
    requires flow'.outflow == flow.outflow + if e.Counted? && PathKey(e.info) == k then e.info.amount else 0
    requires flow'.inflow == flow.inflow + if e.Received? && PathKey(e.info) == k then e.info.amount else 0
    ensures FlowOk(log + [e], k, flow')
  {
    LogExtends(log, e);
    OutstandingKept(log, e, k, |log|);
    if e.Counted? {
      assert Survives(log + [e], |log|);
    }
  }

  lemma FlowAfterZeroing(log: Log, e: Event, flow': FlowValue)
    requires e.Zeroed? && flow'.outflow == 0 == flow'.inflow
    ensures FlowOk(log + [e], e.key, flow')
  {
    LogExtends(log, e);
    OutstandingZeroed(log, e, e.key, |log|);
  }

  /** A revert is taken off the outstanding amounts if its send is among them, and is stale otherwise. */
  lemma OutstandingLessRevert(w: World, e: Event, k: bytes)
    requires LogOk(w) && e.Reverted?
    requires (e.info.channelId, e.sequence) in w.sent && w.sent[(e.info.channelId, e.sequence)] == e.info
    ensures Outstanding(w.log + [e], k) - StaleSince(w.log + [e], k)
            == Outstanding(w.log, k) - StaleSince(w.log, k) - if PathKey(e.info) == k then e.info.amount else 0
  {
    LogExtends(w.log, e);
    if CountsFor(w.log, e) {
      var at :| 0 <= at < |w.log| && Survives(w.log, at) && SamePacket(e, w.log[at]);
      OnlyCount(w, e, at);
      if k == PathKey(e.info) {
        OutstandingReverted(w.log, e, k, |w.log|, at);
      } else {
        OutstandingKept(w.log, e, k, |w.log|);
      }
    } else {
      OutstandingKept(w.log, e, k, |w.log|);
    }
  }

  lemma OnlyCount(w: World, e: Event, at: nat)
    requires LogOk(w) && e.Reverted? && at < |w.log| && w.log[at].Counted? && SamePacket(e, w.log[at])
    requires (e.info.channelId, e.sequence) in w.sent && w.sent[(e.info.channelId, e.sequence)] == e.info
    ensures w.log[at] == Counted(e.info, e.sequence)
    ensures forall i :: 0 <= i < |w.log| && i != at && w.log[i].Counted? ==> !SamePacket(e, w.log[i])
  {
    forall i | 0 <= i < |w.log| && i != at && w.log[i].Counted? ensures !SamePacket(e, w.log[i]) {
      if i < at {
        assert !SamePacket(w.log[i], w.log[at]);
      } else {
        assert !SamePacket(w.log[at], w.log[i]);
      }
    }
  }

  lemma FlowAfterRevert(w: World, e: Event, k: bytes, flow: FlowValue, flow': FlowValue)
    requires LogOk(w) && FlowOk(w.log, k, flow) && e.Reverted?
    requires (e.info.channelId, e.sequence) in w.sent && w.sent[(e.info.channelId, e.sequence)] == e.info
    requires flow'.outflow == flow.outflow - if PathKey(e.info) == k then e.info.amount else 0
    requires flow'.inflow == flow.inflow
    ensures FlowOk(w.log + [e], k, flow')
  {
    OutstandingLessRevert(w, e, k);
    LogExtends(w.log, e);
  }

  lemma CountedFlows(w: World, w': World, e: Event)
    requires FlowsOk(w) && e.Counted? && Moves(w, w', PathKey(e.info), 0, e.info.amount)
    requires w'.log == w.log + [e]
    ensures FlowsOk(w')
  {
    forall k | k in w'.s.limits ensures FlowOk(w'.log, k, w'.s.limits[k].flow) {
      FlowAfterMove(w.log, e, k, w.s.limits[k].flow, w'.s.limits[k].flow);
    }
  }

  lemma SendKeepsInv(w: World, tokens: Tokens, op: Op)
    requires Inv(w) && op.SendOp? && Basic(op) && Linked(w, op)
    ensures Inv(Step(w, tokens, op))
  {
    var e := Counted(op.info, op.sequence);
    var w' := Step(w, tokens, op);
    if Check(w.s, PacketSend, op.info).1 == Ok(true) {
      SendMoves(w, tokens, op);
      MovesKeepsKeys(w, w', PathKey(op.info), 0, op.info.amount);
      SendKeepsLog(w, w', e);
      SendKeepsMarks(w, w', e);
      CountedFlows(w, w', e);
    } else {
      SendUncounted(w, tokens, op);
      if w' != w {
        SendKeepsLog(w, w', e);
      }
    }
  }

  lemma RecvKeepsInv(w: World, tokens: Tokens, op: Op)
    requires Inv(w) && op.RecvOp?
    ensures Inv(Step(w, tokens, op))
  {
    if Check(w.s, PacketRecv, op.info).1 == Ok(true) {
      RecvMoves(w, tokens, op);
      ReceivedKeepsInv(w, Step(w, tokens, op), Received(op.info));
    }
  }

  lemma ReceivedKeepsInv(w: World, w': World, e: Event)
    requires Inv(w) && e.Received? && Moves(w, w', PathKey(e.info), e.info.amount, 0)
    requires w'.log == w.log + [e] && w'.s.pending == w.s.pending && w'.sent == w.sent
    ensures Inv(w')
  {
    MovesKeepsKeys(w, w', PathKey(e.info), e.info.amount, 0);
    LogKept(w, w', e);
    ClosingMarks(w, w', e);
    ReceivedFlows(w, w', e);
  }

  lemma ReceivedFlows(w: World, w': World, e: Event)
    requires FlowsOk(w) && e.Received? && Moves(w, w', PathKey(e.info), e.info.amount, 0) && w'.log == w.log + [e]
    ensures FlowsOk(w')
  {
    forall k | k in w'.s.limits ensures FlowOk(w'.log, k, w'.s.limits[k].flow) {
      FlowAfterMove(w.log, e, k, w.s.limits[k].flow, w'.s.limits[k].flow);
    }
  }

  /** An event that leaves a send open is not about its packet, so it does not carry its mark. */
  lemma OtherMark(w: World, i: nat, e: Event)
    requires SentOk(w) && LogOk(w) && i < |w.log| && w.log[i].Counted? && !Closes(e, w.log[i])
    requires (e.Reverted? || e.Settled?) && (e.info.channelId, e.sequence) in w.sent
    ensures Mark(w.log[i]) != PendingKey(e.info.channelId, e.sequence)
  {
    if Mark(w.log[i]) == PendingKey(e.info.channelId, e.sequence) {
      SameMarkSamePacket(w, i, e.info.channelId, e.sequence);
    }
  }

  /** Taking one packet's mark away keeps the marks in step with the history. */
  lemma UnmarkOne(w: World, w': World, e: Event)
    requires SentOk(w) && LogOk(w) && MarksOk(w)
    requires (e.Reverted? || e.Settled?) && (e.info.channelId, e.sequence) in w.sent
    requires w'.log == w.log + [e]
    requires w'.s.pending == w.s.pending - {PendingKey(e.info.channelId, e.sequence)}
    ensures MarksOk(w')
  {
    forall i | Open(w.log, i) ensures Mark(w.log[i]) in w'.s.pending <==> !Closes(e, w.log[i]) {
      if !Closes(e, w.log[i]) {
        OtherMark(w, i, e);
      }
    }
    ClosingMarks(w, w', e);
  }

  lemma AckKeepsInv(w: World, tokens: Tokens, op: Op)
    requires Inv(w) && op.AckOp? && Linked(w, op)
    ensures Inv(Step(w, tokens, op))
  {
    var e := Settled(op.info, op.sequence);
    var w' := Step(w, tokens, op);
    LogKept(w, w', e);
    UnmarkOne(w, w', e);
    SettledFlows(w, w', e);
  }

  lemma SettledFlows(w: World, w': World, e: Event)
    requires FlowsOk(w) && e.Settled? && w'.log == w.log + [e] && w'.s.limits == w.s.limits
    ensures FlowsOk(w')
  {
    forall k | k in w'.s.limits ensures FlowOk(w'.log, k, w'.s.limits[k].flow) {
      FlowAfterMove(w.log, e, k, w.s.limits[k].flow, w'.s.limits[k].flow);
    }
  }

  lemma FailKeepsInv(w: World, tokens: Tokens, op: Op)
    requires Inv(w) && op.FailOp? && Linked(w, op)
    ensures Inv(Step(w, tokens, op))
  {
    if Undoes(w.s, op.info, op.sequence) {
      FailMoves(w, tokens, op);
      RevertedKeepsInv(w, Step(w, tokens, op), Reverted(op.info, op.sequence));
    }
  }

  lemma RevertedKeepsInv(w: World, w': World, e: Event)
    requires Inv(w) && e.Reverted? && Moves(w, w', PathKey(e.info), 0, -e.info.amount)
    requires (e.info.channelId, e.sequence) in w.sent && w.sent[(e.info.channelId, e.sequence)] == e.info
    requires PendingKey(e.info.channelId, e.sequence) in w.s.pending
    requires w'.log == w.log + [e] && w'.sent == w.sent
    requires w'.s.pending == w.s.pending - {PendingKey(e.info.channelId, e.sequence)}
    ensures Inv(w')
  {
    MovesKeepsKeys(w, w', PathKey(e.info), 0, -e.info.amount);
    LogKept(w, w', e);
    UnmarkOne(w, w', e);
    RevertedFlows(w, w', e);
  }

  /** The mark leads to the one event that counted the packet. */
  lemma MarkedEvent(w: World, e: Event) returns (at: int)
    requires SentOk(w) && LogOk(w) && MarksOk(w) && e.Reverted?
    requires (e.info.channelId, e.sequence) in w.sent && w.sent[(e.info.channelId, e.sequence)] == e.info
    requires PendingKey(e.info.channelId, e.sequence) in w.s.pending
    ensures Open(w.log, at) && w.log[at] == Counted(e.info, e.sequence)
  {
    at :| Open(w.log, at) && Mark(w.log[at]) == PendingKey(e.info.channelId, e.sequence);
    SameMarkSamePacket(w, at, e.info.channelId, e.sequence);
  }

  lemma RevertedFlows(w: World, w': World, e: Event)
    requires LogOk(w) && FlowsOk(w)
    requires e.Reverted? && Moves(w, w', PathKey(e.info), 0, -e.info.amount)
    requires (e.info.channelId, e.sequence) in w.sent && w.sent[(e.info.channelId, e.sequence)] == e.info
    requires w'.log == w.log + [e]
    ensures FlowsOk(w')
  {
    forall k | k in w'.s.limits ensures FlowOk(w'.log, k, w'.s.limits[k].flow) {
      FlowAfterRevert(w, e, k, w.s.limits[k].flow, w'.s.limits[k].flow);
    }
  }

  /** Zeroing a path keeps the invariant if it closes exactly the sends whose marks it takes away. */
  lemma ZeroingKeepsInv(w: World, w': World, e: Event)
    requires Inv(w) && e.Zeroed? && e.key in w'.s.limits
    requires w'.sent == w.sent && w'.log == w.log + [e] && WellKeyed(w'.s)
    requires w'.s.limits[e.key].flow.outflow == 0 == w'.s.limits[e.key].flow.inflow
    requires forall k :: k in w'.s.limits && k != e.key ==> k in w.s.limits && w'.s.limits[k] == w.s.limits[k]
    requires w'.s.pending <= w.s.pending
    requires forall i :: Open(w.log, i) ==> (Mark(w.log[i]) in w'.s.pending <==> !Closes(e, w.log[i]))
    ensures Inv(w')
  {
    LogKept(w, w', e);
    ClosingMarks(w, w', e);
    ZeroingFlows(w, w', e);
  }

  lemma ZeroingFlows(w: World, w': World, e: Event)
    requires FlowsOk(w) && e.Zeroed? && e.key in w'.s.limits && w'.log == w.log + [e]
    requires w'.s.limits[e.key].flow.outflow == 0 == w'.s.limits[e.key].flow.inflow
    requires forall k :: k in w'.s.limits && k != e.key ==> k in w.s.limits && w'.s.limits[k] == w.s.limits[k]
    ensures FlowsOk(w')
  {
    forall k | k in w'.s.limits ensures FlowOk(w'.log, k, w'.s.limits[k].flow) {
      if k == e.key {
        FlowAfterZeroing(w.log, e, w'.s.limits[k].flow);
      } else {
        FlowAfterMove(w.log, e, k, w.s.limits[k].flow, w'.s.limits[k].flow);
      }
    }
  }

  /** What an add, an update or a reset that takes effect does: one path starts again at zero. */
  predicate Restarts(w: World, w': World, e: Event) {
    && e.Zeroed? && w'.log == w.log + [e] && w'.sent == w.sent && WellKeyed(w'.s)
    && e.key in w'.s.limits && e.ceiling == Ceiling(w'.s.limits[e.key])
    && w'.s.limits[e.key].flow.outflow == 0 == w'.s.limits[e.key].flow.inflow
    && (forall k :: k in w'.s.limits && k != e.key ==> k in w.s.limits && w'.s.limits[k] == w.s.limits[k])
    && w.s.limits.Keys <= w'.s.limits.Keys
  }

  lemma ResetRestarts(w: World, tokens: Tokens, op: Op)
    requires WellKeyed(w.s) && op.ResetOp? && Step(w, tokens, op) != w
    ensures var w', key := Step(w, tokens, op), LimitKey(Resolve(tokens, op.denom, op.channelId), op.channelId);
            key in w.s.limits && key in w'.s.limits && Restarts(w, w', Zeroing(w'.s, key, Some(op.channelId)))
            && w'.s.limits[key].minRateLimitAmount == w.s.limits[key].minRateLimitAmount
            && w'.s.pending == Unmark(w.s, op.channelId).pending
  {
  }

  lemma StoreRestarts(w: World, tokens: Tokens, op: Op)
    requires WellKeyed(w.s) && (op.AddOp? || op.UpdateOp?) && Basic(op) && Step(w, tokens, op) != w
    ensures var w', key := Step(w, tokens, op), MsgKey(tokens, op.msg);
            key in w'.s.limits && Restarts(w, w', Zeroing(w'.s, key, None))
            && w'.s.limits[key].minRateLimitAmount == op.msg.minRateLimitAmount
            && w'.s.pending == w.s.pending
  {
  }

  /** A reset clears the marks of its channel, an add or an update none. */
  lemma RestartKeepsInv(w: World, w': World, e: Event)
    requires Inv(w) && Restarts(w, w', e)
    requires w'.s.pending == match e.cleared case None => w.s.pending case Some(c) => Unmark(w.s, c).pending
    ensures Inv(w')
  {
    forall i | Open(w.log, i) ensures Mark(w.log[i]) in w'.s.pending <==> !Closes(e, w.log[i]) {
      assert Mark(w.log[i]) in w.s.pending;
    }
    ZeroingKeepsInv(w, w', e);
  }

  lemma ResetKeepsInv(w: World, tokens: Tokens, op: Op)
    requires Inv(w) && op.ResetOp?
    ensures Inv(Step(w, tokens, op))
  {
    var w' := Step(w, tokens, op);
    if w' != w {
      ResetRestarts(w, tokens, op);
      var key := LimitKey(Resolve(tokens, op.denom, op.channelId), op.channelId);
      RestartKeepsInv(w, w', Zeroing(w'.s, key, Some(op.channelId)));
    }
  }

  lemma StoreKeepsInv(w: World, tokens: Tokens, op: Op)
    requires Inv(w) && (op.AddOp? || op.UpdateOp?) && Basic(op)
    ensures Inv(Step(w, tokens, op))
  {
    var w' := Step(w, tokens, op);
    if w' != w {
      StoreRestarts(w, tokens, op);
      RestartKeepsInv(w, w', Zeroing(w'.s, MsgKey(tokens, op.msg), None));
    }
  }

  lemma RemoveKeepsInv(w: World, tokens: Tokens, op: Op)
    requires Inv(w) && op.RemoveOp?
    ensures Inv(Step(w, tokens, op))
  {
    assert MarksOk(Step(w, tokens, op)) by { assert MarksOk(w); }
  }

  lemma StepKeepsInv(w: World, tokens: Tokens, op: Op)
    requires Inv(w) && Basic(op) && Linked(w, op)
    ensures Inv(Step(w, tokens, op))
  {
    match op
    case SendOp(_, _) => SendKeepsInv(w, tokens, op);
    case RecvOp(_) => RecvKeepsInv(w, tokens, op);
    case AckOp(_, _) => AckKeepsInv(w, tokens, op);
    case FailOp(_, _) => FailKeepsInv(w, tokens, op);
    case AddOp(_, _) => StoreKeepsInv(w, tokens, op);
    case UpdateOp(_, _) => StoreKeepsInv(w, tokens, op);
    case RemoveOp(_, _) => RemoveKeepsInv(w, tokens, op);
    case ResetOp(_, _, _) => ResetKeepsInv(w, tokens, op);
    case WhitelistOp(_) => assert MarksOk(Step(w, tokens, op)) by { assert MarksOk(w); }
  }

  lemma {:induction false} RunKeepsInv(tokens: Tokens, ops: seq<Op>)
    requires Legal(tokens, ops)
    ensures Inv(Run(tokens, ops))
    decreases |ops|
  {
    if ops != [] {
      var init := ops[..|ops| - 1];
      RunKeepsInv(tokens, init);
      StepKeepsInv(Run(tokens, init), tokens, ops[|ops| - 1]);
    }
  }
}
