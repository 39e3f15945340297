/**
 Whether the outflow of a path covers what may still be undone on it, told path by path, and what updates, adds
 and removals of the path have to do with it.
 */
module RateLimitCoverage {
  import opened Wrappers
  import opened Bytes
  import opened Denoms
  import opened RateLimitTypes
  import opened RateLimitSpec
  import opened RateLimitHistory
  import opened RateLimitRuns
  import opened RateLimitTheorems

  /** Packets, by channel and sequence. */
  type Ids = set<(bytes, uint64)>

  function IdOf(e: Event): (bytes, uint64)
    requires e.Counted? || e.Reverted? || e.Settled?
  {
    (e.info.channelId, e.sequence)
  }

  /** An add or an update that zeroes its path, rather than being refused. */
  predicate TakesEffect(s: State, tokens: Tokens, op: Op) {
    match op
    case AddOp(bank, msg) =>
      Supply(bank, Resolve(tokens, msg.denom, msg.channelId)) != 0 && MsgKey(tokens, msg) !in s.limits
    case UpdateOp(_, msg) => MsgKey(tokens, msg) in s.limits
    case _ => false
  }

  /** None of these packets of the path is pending with a positive amount. */
  predicate NothingAtStakeAmong(w: World, ids: Ids, key: bytes) {
    forall p :: p in w.sent && p in ids && PathKey(w.sent[p]) == key && PendingKey(p.0, p.1) in w.s.pending ==>
      w.sent[p].amount == 0
  }

  /** If the step zeroes the path, none of these packets is at stake. Removals are never asked anything. */
  predicate Clean(w: World, ids: Ids, tokens: Tokens, op: Op, key: bytes) {
    TakesEffect(w.s, tokens, op) && MsgKey(tokens, op.msg) == key ==> NothingAtStakeAmong(w, ids, key)
  }

  /** A send of one of these packets on the path, of a positive amount. */
  predicate AtStakeIn(e: Event, ids: Ids, key: bytes) {
    e.Counted? && PathKey(e.info) == key && e.info.amount > 0 && IdOf(e) in ids
  }

  /**
   No revert on the path was stale, but for amounts of zero, and while its limit exists, those of these packets
   that are pending with a positive amount are part of its flow.
   */
  ghost predicate PathOk(w: World, ids: Ids, key: bytes) {
    && StaleSince(w.log, key) == 0
    && (key in w.s.limits ==>
          forall i :: Open(w.log, i) && AtStakeIn(w.log[i], ids, key) ==> Survives(w.log, i))
  }

  /** The packets looked at after a step are those from before it, some of them left out, and new ones. */
  predicate Follow(w: World, ids: Ids, ids': Ids) {
    forall id :: id in ids' ==> id in ids || id !in w.sent
  }

  lemma OpenAndSurviving(log: Log, e: Event, i: nat)
    requires i < |log| && log[i].Counted?
    ensures Open(log + [e], i) <==> Open(log, i) && !Closes(e, log[i])
    ensures Survives(log + [e], i) <==> Survives(log, i) && !Discounts(e, log[i])
    ensures (log + [e])[i] == log[i]
  {
    OpenExtend(log, e, i);
    SurvivesExtend(log, e, i);
  }

  /** The pending sends of a positive amount that the event takes off the flow are closed with it. */
  ghost predicate Tidy(w: World, ids: Ids, e: Event, key: bytes) {
    forall i :: Open(w.log, i) && AtStakeIn(w.log[i], ids, key) && Discounts(e, w.log[i]) ==> Closes(e, w.log[i])
  }

  ghost predicate NoneOpen(w: World, ids: Ids, key: bytes) {
    forall i :: Open(w.log, i) ==> !AtStakeIn(w.log[i], ids, key)
  }

  lemma PathExtends(w: World, ids: Ids, w': World, ids': Ids, e: Event, key: bytes)
    requires LogOk(w) && PathOk(w, ids, key) && w'.log == w.log + [e] && Follow(w, ids, ids')
    requires key in w'.s.limits ==> (key in w.s.limits && Tidy(w, ids, e, key)) || NoneOpen(w, ids, key)
    requires e.Reverted? && PathKey(e.info) == key ==> CountsFor(w.log, e) || e.info.amount == 0
    ensures PathOk(w', ids', key)
  {
    if key in w'.s.limits {
      forall i | Open(w'.log, i) && AtStakeIn(w'.log[i], ids', key)
        ensures Survives(w'.log, i)
      {
        if i < |w.log| {
          OpenAndSurviving(w.log, e, i);
          assert IdOf(w.log[i]) in w.sent;
        }
      }
    }
    assert w'.log[..|w.log|] == w.log;
  }

  lemma PathStays(w: World, ids: Ids, w': World, ids': Ids, key: bytes)
    requires LogOk(w) && PathOk(w, ids, key) && w'.log == w.log && Follow(w, ids, ids')
    requires w'.s.limits.Keys <= w.s.limits.Keys
    ensures PathOk(w', ids', key)
  {
    forall i | Open(w.log, i) && IdOf(w.log[i]) in ids' ensures IdOf(w.log[i]) in ids {
      assert IdOf(w.log[i]) in w.sent;
    }
  }

  lemma SendKeepsPath(w: World, ids: Ids, ids': Ids, tokens: Tokens, op: Op, key: bytes)
    requires Inv(w) && PathOk(w, ids, key) && op.SendOp? && Follow(w, ids, ids')
    ensures PathOk(Step(w, tokens, op), ids', key)
  {
    var w' := Step(w, tokens, op);
    if Check(w.s, PacketSend, op.info).1 == Ok(true) {
      SendMoves(w, tokens, op);
      MovesKeepsKeys(w, w', PathKey(op.info), 0, op.info.amount);
      PathExtends(w, ids, w', ids', Counted(op.info, op.sequence), key);
    } else {
      SendUncounted(w, tokens, op);
      PathStays(w, ids, w', ids', key);
    }
  }

  lemma RecvKeepsPath(w: World, ids: Ids, ids': Ids, tokens: Tokens, op: Op, key: bytes)
    requires Inv(w) && PathOk(w, ids, key) && op.RecvOp? && Follow(w, ids, ids')
    ensures PathOk(Step(w, tokens, op), ids', key)
  {
    var w' := Step(w, tokens, op);
    if Check(w.s, PacketRecv, op.info).1 == Ok(true) {
      RecvMoves(w, tokens, op);
      MovesKeepsKeys(w, w', PathKey(op.info), op.info.amount, 0);
      PathExtends(w, ids, w', ids', Received(op.info), key);
    } else {
      PathStays(w, ids, w', ids', key);
    }
  }

  /** A marked send of the path that fails was still part of its flow. */
  lemma RevertKeepsPath(w: World, ids: Ids, w': World, ids': Ids, e: Event, key: bytes)
    requires Inv(w) && PathOk(w, ids, key) && e.Reverted? && IdOf(e) in ids && PathKey(e.info) in w.s.limits
    requires IdOf(e) in w.sent && w.sent[IdOf(e)] == e.info && PendingKey(e.info.channelId, e.sequence) in w.s.pending
    requires w'.log == w.log + [e] && w'.s.limits.Keys == w.s.limits.Keys && Follow(w, ids, ids')
    ensures PathOk(w', ids', key)
  {
    var at := MarkedEvent(w, e);
    assert e.info.amount >= 0;
    if PathKey(e.info) == key && e.info.amount > 0 {
      assert AtStakeIn(w.log[at], ids, key);
      assert Survives(w.log, at) && SamePacket(e, w.log[at]);
    }
    PathExtends(w, ids, w', ids', e, key);
  }

  lemma FailKeepsPath(w: World, ids: Ids, ids': Ids, tokens: Tokens, op: Op, key: bytes)
    requires Inv(w) && PathOk(w, ids, key) && op.FailOp? && Linked(w, op) && Follow(w, ids, ids')
    requires (op.info.channelId, op.sequence) in ids
    ensures PathOk(Step(w, tokens, op), ids', key)
  {
    var w' := Step(w, tokens, op);
    if Undoes(w.s, op.info, op.sequence) {
      FailMoves(w, tokens, op);
      MovesKeepsKeys(w, w', PathKey(op.info), 0, -op.info.amount);
      RevertKeepsPath(w, ids, w', ids', Reverted(op.info, op.sequence), key);
    } else {
      PathStays(w, ids, w', ids', key);
    }
  }

  lemma ResetKeepsPath(w: World, ids: Ids, ids': Ids, tokens: Tokens, op: Op, key: bytes)
    requires Inv(w) && PathOk(w, ids, key) && op.ResetOp? && Linked(w, op) && Follow(w, ids, ids')
    ensures PathOk(Step(w, tokens, op), ids', key)
  {
    var w' := Step(w, tokens, op);
    var d := Resolve(tokens, op.denom, op.channelId);
    var at := LimitKey(d, op.channelId);
    if at in w.s.limits {
      var e := Zeroing(w'.s, at, Some(op.channelId));
      forall i | Open(w.log, i) && PathKey(w.log[i].info) == key && Discounts(e, w.log[i])
        ensures Closes(e, w.log[i])
      {
        var info := w.log[i].info;
        assert (info.channelId, w.log[i].sequence) in w.sent;
        LimitKeyInjective(info.denom, info.channelId, d, op.channelId);
        PendingPrefix(op.channelId, info.channelId, w.log[i].sequence);
      }
      assert Tidy(w, ids, e, key);
      PathExtends(w, ids, w', ids', e, key);
    } else {
      PathStays(w, ids, w', ids', key);
    }
  }

  lemma NothingAtStakeIsOpen(w: World, ids: Ids, key: bytes)
    requires Inv(w) && NothingAtStakeAmong(w, ids, key)
    ensures NoneOpen(w, ids, key)
  {
    forall i | Open(w.log, i) ensures !AtStakeIn(w.log[i], ids, key) {
      assert IdOf(w.log[i]) in w.sent && Mark(w.log[i]) in w.s.pending;
    }
  }

  lemma StoreKeepsPath(w: World, ids: Ids, ids': Ids, tokens: Tokens, op: Op, key: bytes)
    requires Inv(w) && PathOk(w, ids, key) && (op.AddOp? || op.UpdateOp?) && Follow(w, ids, ids')
    requires Clean(w, ids, tokens, op, key)
    ensures PathOk(Step(w, tokens, op), ids', key)
  {
    var w' := Step(w, tokens, op);
    StoreTakesEffect(w, tokens, op);
    if TakesEffect(w.s, tokens, op) {
      if MsgKey(tokens, op.msg) == key {
        NothingAtStakeIsOpen(w, ids, key);
      }
      PathExtends(w, ids, w', ids', Zeroing(w'.s, MsgKey(tokens, op.msg), None), key);
    } else {
      PathStays(w, ids, w', ids', key);
    }
  }

  /** What an add or an update does to the stores and the history. */
  lemma StoreTakesEffect(w: World, tokens: Tokens, op: Op)
    requires op.AddOp? || op.UpdateOp?
    ensures var (w', key) := (Step(w, tokens, op), MsgKey(tokens, op.msg));
            if TakesEffect(w.s, tokens, op) then
              && w'.s.limits.Keys == w.s.limits.Keys + {key} && w'.s.limits[key].flow.outflow == 0
              && w'.log == w.log + [Zeroing(w'.s, key, None)]
              && w'.s.pending == w.s.pending && w'.sent == w.sent
            else w' == w
  {
  }

  lemma StepKeepsPath(w: World, ids: Ids, ids': Ids, tokens: Tokens, op: Op, key: bytes)
    requires Inv(w) && PathOk(w, ids, key) && Basic(op) && Linked(w, op) && Follow(w, ids, ids')
    requires Clean(w, ids, tokens, op, key)
    requires op.FailOp? ==> (op.info.channelId, op.sequence) in ids
    ensures PathOk(Step(w, tokens, op), ids', key)
  {
    match op
    case SendOp(_, _) => SendKeepsPath(w, ids, ids', tokens, op, key);
    case RecvOp(_) => RecvKeepsPath(w, ids, ids', tokens, op, key);
    case AckOp(info, n) => PathExtends(w, ids, Step(w, tokens, op), ids', Settled(info, n), key);
    case FailOp(_, _) => FailKeepsPath(w, ids, ids', tokens, op, key);
    case AddOp(_, _) => StoreKeepsPath(w, ids, ids', tokens, op, key);
    case UpdateOp(_, _) => StoreKeepsPath(w, ids, ids', tokens, op, key);
    case RemoveOp(_, _) => PathStays(w, ids, Step(w, tokens, op), ids', key);
    case ResetOp(_, _, _) => ResetKeepsPath(w, ids, ids', tokens, op, key);
    case WhitelistOp(_) => PathStays(w, ids, Step(w, tokens, op), ids', key);
  }

  /** The amount of a pending packet that is looked at is part of the outflow, which is what is outstanding. */
  lemma PathCovers(w: World, ids: Ids, info: PacketInfo, n: uint64)
    requires Inv(w) && PathOk(w, ids, PathKey(info)) && PathKey(info) in w.s.limits
    requires (info.channelId, n) in ids && (info.channelId, n) in w.sent && w.sent[(info.channelId, n)] == info
    requires PendingKey(info.channelId, n) in w.s.pending
    ensures 0 <= info.amount <= w.s.limits[PathKey(info)].flow.outflow
  {
    var key := PathKey(info);
    var i := MarkedEvent(w, Reverted(info, n));
    RevertsNonnegative(w);
    OutstandingNonnegative(w.log, key, |w.log|);
    assert FlowOk(w.log, key, w.s.limits[key].flow);
    if info.amount > 0 {
      SurvivorIsOutstanding(w.log, key, |w.log|, i);
    }
  }

  // ---------------------------------------------------------------- whole runs

  /** The outflow of the path covers all that is pending on it. */
  predicate Covered(w: World, key: bytes) {
    key in w.s.limits ==> Marked(w.log, w.s.pending, key) <= w.s.limits[key].flow.outflow
  }

  predicate AlwaysCovered(tokens: Tokens, ops: seq<Op>, key: bytes)
    decreases |ops|
  {
    Covered(Run(tokens, ops), key) && (ops == [] || AlwaysCovered(tokens, ops[..|ops| - 1], key))
  }

  /** Every add and update of the path that takes effect finds nothing at stake on it. */
  predicate AlwaysClean(tokens: Tokens, ops: seq<Op>, key: bytes)
    decreases |ops|
  {
    ops == []
    || (var w := Run(tokens, ops[..|ops| - 1]);
        AlwaysClean(tokens, ops[..|ops| - 1], key) && Clean(w, w.sent.Keys, tokens, ops[|ops| - 1], key))
  }

  lemma SentGrows(w: World, tokens: Tokens, op: Op)
    requires Linked(w, op)
    ensures Follow(w, w.sent.Keys, Step(w, tokens, op).sent.Keys)
    ensures op.FailOp? ==> (op.info.channelId, op.sequence) in w.sent
  {
  }

  lemma {:induction false} RunKeepsPath(tokens: Tokens, ops: seq<Op>, key: bytes)
    requires Legal(tokens, ops) && AlwaysClean(tokens, ops, key)
    ensures PathOk(Run(tokens, ops), Run(tokens, ops).sent.Keys, key)
    decreases |ops|
  {
    if ops != [] {
      var init, op := ops[..|ops| - 1], ops[|ops| - 1];
      var w := Run(tokens, init);
      RunKeepsPath(tokens, init, key);
      RunKeepsInv(tokens, init);
      SentGrows(w, tokens, op);
      StepKeepsPath(w, w.sent.Keys, Step(w, tokens, op).sent.Keys, tokens, op, key);
    }
  }

  lemma CleanPathCovered(w: World, key: bytes)
    requires Inv(w) && PathOk(w, w.sent.Keys, key) && key in w.s.limits
    ensures StaleMarked(w.log, w.s.pending, key) == 0
    ensures 0 <= Marked(w.log, w.s.pending, key) <= w.s.limits[key].flow.outflow
    ensures w.s.limits[key].flow.outflow == Outstanding(w.log, key)
  {
    MarkedIsOpen(w);
    RevertsNonnegative(w);
    forall i | 0 <= i < |w.log| && w.log[i].Counted? && PathKey(w.log[i].info) == key && Mark(w.log[i]) in w.s.pending
      ensures w.log[i].info.amount == 0 || Survives(w.log, i)
    {
      assert IdOf(w.log[i]) in w.sent;
    }
    NoneStaleMarked(w.log, w.s.pending, key, |w.log|);
    CoveredByOutflow(w, key);
    assert FlowOk(w.log, key, w.s.limits[key].flow);
  }

  /** Where an add or an update of the path takes effect and the outflow covers the path afterwards, it was clean. */
  lemma CleanIfCovered(tokens: Tokens, ops: seq<Op>, op: Op, key: bytes)
    requires Legal(tokens, ops) && Covered(Step(Run(tokens, ops), tokens, op), key)
    ensures var w := Run(tokens, ops); Clean(w, w.sent.Keys, tokens, op, key)
  {
    var w := Run(tokens, ops);
    if TakesEffect(w.s, tokens, op) && MsgKey(tokens, op.msg) == key {
      if op.UpdateOp? {
        UpdateCoversPending(tokens, ops, op);
      } else {
        AddCoversPending(tokens, ops, op);
      }
    }
  }

  /**
   The outflow of a path covers its pending sends throughout a run, so that undoing any of them, in any order, never
   takes it below zero, exactly if every add and update of the path that takes effect finds none of a positive
   amount pending on it. Removals of the path, and whatever happens to other paths, do not matter.
   */
  lemma {:induction false} CoveredThroughout(tokens: Tokens, ops: seq<Op>, key: bytes)
    requires Legal(tokens, ops)
    ensures AlwaysCovered(tokens, ops, key) <==> AlwaysClean(tokens, ops, key)
    decreases |ops|
  {
    if ops != [] {
      CoveredThroughout(tokens, ops[..|ops| - 1], key);
      if AlwaysCovered(tokens, ops, key) {
        CleanIfCovered(tokens, ops[..|ops| - 1], ops[|ops| - 1], key);
      }
    }
    if AlwaysClean(tokens, ops, key) && key in Run(tokens, ops).s.limits {
      RunKeepsPath(tokens, ops, key);
      RunKeepsInv(tokens, ops);
      CleanPathCovered(Run(tokens, ops), key);
    }
  }

  /**
   After every run the amounts of all pending sends of a path fit into its outflow, the stale reverts and the stale
   marks together; where every add and update of the path that took effect found nothing at stake, they fit into
   the outflow, and that is exactly what is outstanding.
   */
  lemma PendingCoveredByOutflow(tokens: Tokens, ops: seq<Op>, key: bytes)
    requires Legal(tokens, ops) && key in Run(tokens, ops).s.limits
    ensures var w := Run(tokens, ops);
            var (outflow, marked) := (w.s.limits[key].flow.outflow, Marked(w.log, w.s.pending, key));
            && 0 <= marked <= outflow + StaleSince(w.log, key) + StaleMarked(w.log, w.s.pending, key)
            && (AlwaysClean(tokens, ops, key) ==> marked <= outflow == Outstanding(w.log, key))
  {
    RunKeepsInv(tokens, ops);
    CoveredByOutflow(Run(tokens, ops), key);
    if AlwaysClean(tokens, ops, key) {
      RunKeepsPath(tokens, ops, key);
      CleanPathCovered(Run(tokens, ops), key);
    }
  }
}
