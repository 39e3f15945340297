/** What holds of the rate limiter after every run. */
module RateLimitTheorems {
  import opened Wrappers
  import opened Bytes
  import opened Denoms
  import opened RateLimitTypes
  import opened RateLimitSpec
  import opened RateLimitHistory
  import opened RateLimitRuns

  // ---------------------------------------------------------------- flows and pending marks refine the history

  /**
   The stored flow of every limit is what the history says, whatever else happened to this or any other path: the
   sends counted since its last zeroing less those reverted since; or, told by the sends themselves, those still
   outstanding less the stale reverts. The two agree with the outstanding sends alone exactly if no revert of a
   positive amount since the last zeroing was stale.
   */
  lemma FlowsFollowHistory(tokens: Tokens, ops: seq<Op>, key: bytes)
    requires Legal(tokens, ops) && key in Run(tokens, ops).s.limits
    ensures var (flow, log) := (Run(tokens, ops).s.limits[key].flow, Run(tokens, ops).log);
            && flow.outflow == CountedSince(log, key) - RevertedSince(log, key)
            && flow.outflow == Outstanding(log, key) - StaleSince(log, key)
            && flow.inflow == ReceivedSince(log, key)
            && flow.outflow <= Outstanding(log, key)
            && (flow.outflow == Outstanding(log, key)
                <==> forall j :: StaleRevert(log, key, j) ==> log[j].info.amount == 0)
  {
    RunKeepsInv(tokens, ops);
    var w := Run(tokens, ops);
    assert FlowOk(w.log, key, w.s.limits[key].flow);
    RevertsNonnegative(w);
    StaleSinceZero(w.log, key);
  }

  lemma RevertsNonnegative(w: World)
    requires SentOk(w) && LogOk(w)
    ensures forall j :: 0 <= j < |w.log| && (w.log[j].Reverted? || w.log[j].Counted?) ==> w.log[j].info.amount >= 0
  {
    forall j | 0 <= j < |w.log| && (w.log[j].Reverted? || w.log[j].Counted?) ensures w.log[j].info.amount >= 0 {
      assert (w.log[j].info.channelId, w.log[j].sequence) in w.sent;
    }
  }

  /** A send is marked as pending exactly while it is counted and nothing has closed it. */
  lemma MarksFollowHistory(tokens: Tokens, ops: seq<Op>, key: bytes)
    requires Legal(tokens, ops)
    ensures var w := Run(tokens, ops);
            key in w.s.pending <==> exists i :: Open(w.log, i) && Mark(w.log[i]) == key
  {
    RunKeepsInv(tokens, ops);
  }

  lemma MarkedIsOpen(w: World)
    requires Inv(w)
    ensures forall i :: 0 <= i < |w.log| && w.log[i].Counted? && Mark(w.log[i]) in w.s.pending ==> Open(w.log, i)
  {
    forall i | 0 <= i < |w.log| && w.log[i].Counted? && Mark(w.log[i]) in w.s.pending ensures Open(w.log, i) {
      var o :| Open(w.log, o) && Mark(w.log[o]) == Mark(w.log[i]);
      assert (w.log[o].info.channelId, w.log[o].sequence) in w.sent;
      SameMarkSamePacket(w, i, w.log[o].info.channelId, w.log[o].sequence);
      assert SamePacket(w.log[o], w.log[i]) && SamePacket(w.log[i], w.log[o]);
      assert o == i;
    }
  }

  lemma CoveredByOutflow(w: World, key: bytes)
    requires Inv(w) && key in w.s.limits
    ensures 0 <= StaleMarked(w.log, w.s.pending, key) <= Marked(w.log, w.s.pending, key)
            <= w.s.limits[key].flow.outflow + StaleSince(w.log, key) + StaleMarked(w.log, w.s.pending, key)
  {
    RevertsNonnegative(w);
    MarkedAtMostOutstanding(w.log, w.s.pending, key, |w.log|);
    assert FlowOk(w.log, key, w.s.limits[key].flow);
  }

  // ---------------------------------------------------------------- what a revert takes back

  /** Event j reverts the send counted by event i, and nothing between them closed it. */
  predicate Reverts(log: Log, i: int, j: int) {
    && 0 <= i < j < |log| && log[j].Reverted? && log[i] == Counted(log[j].info, log[j].sequence)
    && forall m :: i < m < j ==> !Closes(log[m], log[i])
  }

  ghost predicate RevertsJustified(log: Log) {
    forall j :: 0 <= j < |log| && log[j].Reverted? ==> exists i :: Reverts(log, i, j)
  }

  lemma RevertsExtend(log: Log, e: Event)
    requires RevertsJustified(log)
    requires e.Reverted? ==> exists i :: Open(log, i) && log[i] == Counted(e.info, e.sequence)
    ensures RevertsJustified(log + [e])
  {
    var l := log + [e];
    forall j | 0 <= j < |l| && l[j].Reverted? ensures exists i :: Reverts(l, i, j) {
      if j < |log| {
        var i :| Reverts(log, i, j);
        assert Reverts(l, i, j);
      } else {
        var i :| Open(log, i) && log[i] == Counted(e.info, e.sequence);
        assert Reverts(l, i, j);
      }
    }
  }

  lemma StepLog(w: World, tokens: Tokens, op: Op)
    ensures var w' := Step(w, tokens, op);
            w'.log == w.log || exists e :: w'.log == w.log + [e] && (e.Reverted? ==>
              op.FailOp? && e == Reverted(op.info, op.sequence) && Undoes(w.s, op.info, op.sequence))
  {
    var w' := Step(w, tokens, op);
    if w'.log != w.log {
      assert w'.log == w.log + [w'.log[|w.log|]];
    }
  }

  lemma {:induction false} RunReverts(tokens: Tokens, ops: seq<Op>)
    requires Legal(tokens, ops)
    ensures RevertsJustified(Run(tokens, ops).log)
    decreases |ops|
  {
    if ops != [] {
      var init, op := ops[..|ops| - 1], ops[|ops| - 1];
      var w := Run(tokens, init);
      RunReverts(tokens, init);
      RunKeepsInv(tokens, init);
      StepLog(w, tokens, op);
      var w' := Step(w, tokens, op);
      if w'.log != w.log {
        var e :| w'.log == w.log + [e] && (e.Reverted? ==>
          op.FailOp? && e == Reverted(op.info, op.sequence) && Undoes(w.s, op.info, op.sequence));
        if e.Reverted? {
          var at := MarkedEvent(w, e);
        }
        RevertsExtend(w.log, e);
      }
    }
  }

  /**
   Every revert takes back, at its full amount and on its own path, one send that was counted earlier and that
   no success, no revert and no reset that unmarked its channel came between; no send is reverted twice; and a
   revert is stale exactly if an update or an add zeroed its path in between.
   */
  lemma RevertsAreJustified(tokens: Tokens, ops: seq<Op>)
    requires Legal(tokens, ops)
    ensures var log := Run(tokens, ops).log;
            RevertsJustified(log)
            && forall j, j' :: 0 <= j < j' < |log| && log[j].Reverted? && log[j'].Reverted? ==>
                 (log[j].info.channelId, log[j].sequence) != (log[j'].info.channelId, log[j'].sequence)
    ensures var log := Run(tokens, ops).log;
            forall i, j :: Reverts(log, i, j) ==>
              (CountsFor(log[..j], log[j]) <==>
               forall m :: i < m < j && log[m].Zeroed? ==> log[m].key != PathKey(log[i].info))
  {
    RunReverts(tokens, ops);
    RevertsStale(tokens, ops);
    RunKeepsInv(tokens, ops);
    var log := Run(tokens, ops).log;
    forall j, j' | 0 <= j < j' < |log| && log[j].Reverted? && log[j'].Reverted?
      ensures (log[j].info.channelId, log[j].sequence) != (log[j'].info.channelId, log[j'].sequence)
    {
      var i :| Reverts(log, i, j);
      var i' :| Reverts(log, i', j');
      if i' < j {
        assert !Closes(log[j], log[i']);
      } else {
        assert !SamePacket(log[i], log[i']);
      }
    }
  }

  lemma RevertsStale(tokens: Tokens, ops: seq<Op>)
    requires Legal(tokens, ops)
    ensures var log := Run(tokens, ops).log;
            forall i, j :: Reverts(log, i, j) ==>
              (CountsFor(log[..j], log[j]) <==>
               forall m :: i < m < j && log[m].Zeroed? ==> log[m].key != PathKey(log[i].info))
  {
    RunKeepsInv(tokens, ops);
    var w := Run(tokens, ops);
    forall i, j | Reverts(w.log, i, j)
      ensures CountsFor(w.log[..j], w.log[j]) <==>
              forall m :: i < m < j && w.log[m].Zeroed? ==> w.log[m].key != PathKey(w.log[i].info)
    {
      CountBeforeRevert(w, i, j);
    }
  }

  lemma OneCount(w: World, i: nat, o: nat)
    requires LogOk(w) && i < |w.log| && o < |w.log| && w.log[i].Counted? && w.log[o].Counted?
    ensures SamePacket(w.log[o], w.log[i]) ==> i == o
  {
    if i < o {
      assert !SamePacket(w.log[i], w.log[o]);
    } else if o < i {
      assert !SamePacket(w.log[o], w.log[i]);
    }
  }

  lemma CountBeforeRevert(w: World, i: nat, j: nat)
    requires LogOk(w) && Reverts(w.log, i, j)
    ensures CountsFor(w.log[..j], w.log[j]) <==> Survives(w.log[..j], i)
    ensures Survives(w.log[..j], i)
            <==> forall m :: i < m < j && w.log[m].Zeroed? ==> w.log[m].key != PathKey(w.log[i].info)
  {
    var log := w.log[..j];
    assert log[i] == w.log[i] && SamePacket(w.log[j], log[i]);
    if CountsFor(log, w.log[j]) {
      var o :| 0 <= o < |log| && Survives(log, o) && SamePacket(w.log[j], log[o]);
      assert log[o] == w.log[o];
      OneCount(w, i, o);
    }
    forall m | i < m < j ensures Discounts(log[m], log[i])
                                 <==> w.log[m].Zeroed? && w.log[m].key == PathKey(w.log[i].info)
    {
      assert log[m] == w.log[m] && !Closes(w.log[m], w.log[i]);
    }
  }

  // ---------------------------------------------------------------- updates and removals

  lemma {:induction false} MarkedExtend(log: Log, e: Event, marks: set<bytes>, key: bytes, n: nat)
    requires n <= |log|
    ensures MarkedUpTo(log + [e], marks, key, n) == MarkedUpTo(log, marks, key, n)
  {
    if n > 0 {
      MarkedExtend(log, e, marks, key, n - 1);
    }
  }

  predicate Stakes(e: Event, marks: set<bytes>, key: bytes) {
    e.Counted? && PathKey(e.info) == key && Mark(e) in marks && e.info.amount > 0
  }

  lemma {:induction false} MarkedPositive(log: Log, marks: set<bytes>, key: bytes, n: nat)
    requires n <= |log|
    requires forall i :: 0 <= i < |log| && log[i].Counted? ==> log[i].info.amount >= 0
    ensures MarkedUpTo(log, marks, key, n) >= 0
    ensures MarkedUpTo(log, marks, key, n) > 0 <==> exists i :: 0 <= i < n && Stakes(log[i], marks, key)
  {
    if n > 0 {
      MarkedPositive(log, marks, key, n - 1);
      if Stakes(log[n - 1], marks, key) {
      } else if exists i :: 0 <= i < n && Stakes(log[i], marks, key) {
        var i :| 0 <= i < n && Stakes(log[i], marks, key);
        assert i < n - 1;
      }
    }
  }

  /** No send of a positive amount is still pending on the path. */
  predicate NothingAtStake(w: World, key: bytes) {
    forall p :: p in w.sent && PathKey(w.sent[p]) == key && PendingKey(p.0, p.1) in w.s.pending ==>
      w.sent[p].amount == 0
  }

  lemma StakesAreSent(w: World, key: bytes)
    requires Inv(w)
    ensures NothingAtStake(w, key) <==> !exists i :: 0 <= i < |w.log| && Stakes(w.log[i], w.s.pending, key)
  {
    if NothingAtStake(w, key) {
      forall i | 0 <= i < |w.log| ensures !Stakes(w.log[i], w.s.pending, key) {
        if w.log[i].Counted? {
          assert (w.log[i].info.channelId, w.log[i].sequence) in w.sent;
        }
      }
    } else {
      var p :| p in w.sent && PathKey(w.sent[p]) == key && PendingKey(p.0, p.1) in w.s.pending && w.sent[p].amount != 0;
      var i :| Open(w.log, i) && Mark(w.log[i]) == PendingKey(p.0, p.1);
      SameMarkSamePacket(w, i, p.0, p.1);
      assert Stakes(w.log[i], w.s.pending, key);
    }
  }

  lemma ZeroedCoversPending(w: World, w': World, e: Event)
    requires Inv(w) && e.Zeroed? && w'.log == w.log + [e] && w'.s.pending == w.s.pending
    ensures Marked(w'.log, w'.s.pending, e.key) <= 0 <==> NothingAtStake(w, e.key)
  {
    MarkedExtend(w.log, e, w.s.pending, e.key, |w.log|);
    MarkedUnlessNothing(w, e.key);
  }

  lemma MarkedUnlessNothing(w: World, key: bytes)
    requires Inv(w)
    ensures Marked(w.log, w.s.pending, key) <= 0 <==> NothingAtStake(w, key)
  {
    forall i | 0 <= i < |w.log| && w.log[i].Counted? ensures w.log[i].info.amount >= 0 {
      assert (w.log[i].info.channelId, w.log[i].sequence) in w.sent;
    }
    MarkedPositive(w.log, w.s.pending, key, |w.log|);
    StakesAreSent(w, key);
  }

  lemma StoreShape(w: World, tokens: Tokens, op: Op)
    requires op.AddOp? || op.UpdateOp?
    ensures var w', key := Step(w, tokens, op), MsgKey(tokens, op.msg);
            w' != w ==>
              key in w'.s.limits && w'.s.limits[key].flow.outflow == 0 && w'.s.pending == w.s.pending
              && w'.log == w.log + [Zeroing(w'.s, key, None)]
    ensures op.UpdateOp? && MsgKey(tokens, op.msg) in w.s.limits ==> Step(w, tokens, op) != w
    ensures (op.AddOp? && MsgKey(tokens, op.msg) !in w.s.limits
             && Supply(op.bank, Resolve(tokens, op.msg.denom, op.msg.channelId)) != 0) ==> Step(w, tokens, op) != w
  {
    assert Step(w, tokens, op) != w ==> |Step(w, tokens, op).log| == |w.log| + 1;
  }

  /**
   An update zeroes the outflow but leaves the pending marks. The outflow still covers the pending sends of
   the path if and only if none of a positive amount was pending when the update came.
   */
  lemma UpdateCoversPending(tokens: Tokens, ops: seq<Op>, op: Op)
    requires Legal(tokens, ops) && op.UpdateOp? && MsgKey(tokens, op.msg) in Run(tokens, ops).s.limits
    ensures var w, w', key := Run(tokens, ops), Step(Run(tokens, ops), tokens, op), MsgKey(tokens, op.msg);
            key in w'.s.limits
            && (Marked(w'.log, w'.s.pending, key) <= w'.s.limits[key].flow.outflow <==> NothingAtStake(w, key))
  {
    var w, w', key := Run(tokens, ops), Step(Run(tokens, ops), tokens, op), MsgKey(tokens, op.msg);
    RunKeepsInv(tokens, ops);
    StoreShape(w, tokens, op);
    ZeroedCoversPending(w, w', Zeroing(w'.s, key, None));
  }

  /**
   An add zeroes the outflow as well, and finds the marks that a removal left behind, however long ago: the new
   outflow covers the pending sends of the path if and only if none of a positive amount is still pending.
   */
  lemma AddCoversPending(tokens: Tokens, ops: seq<Op>, add: Op)
    requires Legal(tokens, ops) && add.AddOp? && MsgKey(tokens, add.msg) !in Run(tokens, ops).s.limits
    requires Supply(add.bank, Resolve(tokens, add.msg.denom, add.msg.channelId)) != 0
    ensures var w, w', key := Run(tokens, ops), Step(Run(tokens, ops), tokens, add), MsgKey(tokens, add.msg);
            key in w'.s.limits
            && (Marked(w'.log, w'.s.pending, key) <= w'.s.limits[key].flow.outflow <==> NothingAtStake(w, key))
  {
    var w, w', key := Run(tokens, ops), Step(Run(tokens, ops), tokens, add), MsgKey(tokens, add.msg);
    RunKeepsInv(tokens, ops);
    StoreShape(w, tokens, add);
    ZeroedCoversPending(w, w', Zeroing(w'.s, key, None));
  }

  /**
   Every pending send of a positive amount that an update or an add finds on its path takes the outflow below zero
   if it is the next to fail.
   */
  lemma StaleAnswerGoesNegative(tokens: Tokens, ops: seq<Op>, op: Op, p: (bytes, uint64))
    requires Legal(tokens, ops) && (op.UpdateOp? || op.AddOp?) && Basic(op)
    requires Step(Run(tokens, ops), tokens, op) != Run(tokens, ops)
    requires var w := Run(tokens, ops);
             p in w.sent && PathKey(w.sent[p]) == MsgKey(tokens, op.msg) && w.sent[p].amount > 0
             && PendingKey(p.0, p.1) in w.s.pending
    ensures var w, key := Run(tokens, ops), MsgKey(tokens, op.msg);
            var w1 := Step(w, tokens, op);
            var w2 := Step(w1, tokens, FailOp(w.sent[p], p.1));
            Linked(w1, FailOp(w.sent[p], p.1)) && key in w2.s.limits
            && w2.s.limits[key].flow.outflow == -w.sent[p].amount
  {
    var w := Run(tokens, ops);
    RunKeepsInv(tokens, ops);
    StoreShape(w, tokens, op);
    var w1 := Step(w, tokens, op);
    StoreKeeps(w, tokens, op);
    assert p.0 == w.sent[p].channelId;
    FailFromZero(w1, tokens, w.sent[p], p.1);
  }

  lemma StoreKeeps(w: World, tokens: Tokens, op: Op)
    requires WellKeyed(w.s) && (op.AddOp? || op.UpdateOp?) && Basic(op)
    ensures WellKeyed(Step(w, tokens, op).s) && Step(w, tokens, op).sent == w.sent
  {
  }

  lemma FailFromZero(w: World, tokens: Tokens, info: PacketInfo, n: uint64)
    requires WellKeyed(w.s) && PathKey(info) in w.s.limits && w.s.limits[PathKey(info)].flow.outflow == 0
    requires PendingKey(info.channelId, n) in w.s.pending
    ensures var w' := Step(w, tokens, FailOp(info, n));
            PathKey(info) in w'.s.limits && w'.s.limits[PathKey(info)].flow.outflow == -info.amount
  {
    FailMoves(w, tokens, FailOp(info, n));
  }

  /** The failing family has a member: a send, an update, then the timeout of the send. */
  lemma UpdateCanMakeOutflowNegative(tokens: Tokens, bank: Bank)
    requires tokens == map[] && bank == map[[117] := 1000]
    ensures var channel: bytes := CHANNEL_PREFIX + [49];
            var msg := LimitMsg([117], channel, 100, 100, 1, 24);
            var info := PacketInfo(channel, [117], 10, [1], [2]);
            var w1 := Step(EMPTY, tokens, AddOp(bank, msg));
            var w2 := Step(w1, tokens, SendOp(info, 1));
            var w3 := Step(w2, tokens, UpdateOp(bank, msg));
            var w4 := Step(w3, tokens, FailOp(info, 1));
            var key := LimitKey([117], channel);
            Basic(AddOp(bank, msg)) && Linked(w1, SendOp(info, 1)) && Linked(w3, FailOp(info, 1))
            && key in w4.s.limits && w4.s.limits[key].flow.outflow == -10
  {
    var channel: bytes := CHANNEL_PREFIX + [49];
    assert channel[8..] == [49];
  }
}
