/**
 The packets a chain still awaits the answers of: whether each mark in the store belongs to one, and whether the
 outflow of its path covers it, both with the exact condition on the calls of the run.
 */
module RateLimitAwaited {
  import opened Wrappers
  import opened Bytes
  import opened Denoms
  import opened RateLimitTypes
  import opened RateLimitSpec
  import opened RateLimitHistory
  import opened RateLimitRuns
  import opened RateLimitCoverage
  import opened RateLimitMiddleware

  /** What a commitment is counted as; every committed packet can be read. */
  function InfoOf(c: Chain, rules: TraceRules, k: (bytes, uint64)): Result<PacketInfo, ParseError>
    requires k in c.commitments
  {
    ParsePacketInfo(rules, c.commitments[k], PacketSend)
  }

  predicate IsMarked(c: Chain, k: (bytes, uint64)) {
    PendingKey(k.0, k.1) in c.s.pending
  }

  /** The world of the rate limiter that the chain follows. */
  function WorldOf(tokens: Tokens, rules: TraceRules, calls: seq<Call>): World {
    Run(tokens, ChainOps(tokens, rules, calls))
  }

  lemma ChainWorld(tokens: Tokens, rules: TraceRules, calls: seq<Call>)
    requires FairRun(calls)
    ensures Refines(ChainRun(tokens, rules, calls), WorldOf(tokens, rules, calls), rules)
    ensures Inv(WorldOf(tokens, rules, calls))
  {
    ChainIsALegalRun(tokens, rules, calls);
    RunKeepsInv(tokens, ChainOps(tokens, rules, calls));
  }

  /** The world after one more call: one step further, or the same. */
  function WorldAfter(c: Chain, w: World, tokens: Tokens, rules: TraceRules, call: Call): World {
    var ops := OpsOf(c, tokens, rules, call);
    if ops == [] then w else Step(w, tokens, ops[0])
  }

  lemma NextWorld(tokens: Tokens, rules: TraceRules, calls: seq<Call>)
    requires FairRun(calls) && calls != []
    ensures var init, call := calls[..|calls| - 1], calls[|calls| - 1];
            WorldOf(tokens, rules, calls)
            == WorldAfter(ChainRun(tokens, rules, init), WorldOf(tokens, rules, init), tokens, rules, call)
  {
    var init, call := calls[..|calls| - 1], calls[|calls| - 1];
    var ops, more := ChainOps(tokens, rules, init), OpsOf(ChainRun(tokens, rules, init), tokens, rules, call);
    if more == [] {
      assert ops + more == ops;
    } else {
      assert ops + more == ops + [more[0]] && (ops + [more[0]])[..|ops|] == ops;
    }
  }

  // ---------------------------------------------------------------- covered by the outflow

  /** No awaited packet of the path is pending with a positive amount. */
  predicate NoneAtStake(c: Chain, rules: TraceRules, key: bytes) {
    forall k :: k in c.commitments && IsMarked(c, k) ==>
      var r := InfoOf(c, rules, k); r.Ok? && PathKey(r.value) == key ==> r.value.amount == 0
  }

  /** If the call zeroes the path, no awaited packet of it is at stake. Removals are never asked anything. */
  predicate CleanCall(c: Chain, tokens: Tokens, rules: TraceRules, call: Call, key: bytes) {
    call.AdminCall? && TakesEffect(c.s, tokens, call.op) && MsgKey(tokens, call.op.msg) == key ==>
      NoneAtStake(c, rules, key)
  }

  predicate AlwaysCleanCalls(tokens: Tokens, rules: TraceRules, calls: seq<Call>, key: bytes)
    decreases |calls|
  {
    calls == []
    || (var init := calls[..|calls| - 1];
        AlwaysCleanCalls(tokens, rules, init, key)
        && CleanCall(ChainRun(tokens, rules, init), tokens, rules, calls[|calls| - 1], key))
  }

  /** While the path has a limit, the amount of each marked packet it awaits is part of the outflow. */
  predicate AwaitedCovered(c: Chain, rules: TraceRules, key: bytes) {
    forall k :: k in c.commitments && IsMarked(c, k) ==>
      var r := InfoOf(c, rules, k);
      r.Ok? && PathKey(r.value) == key && key in c.s.limits ==> r.value.amount <= c.s.limits[key].flow.outflow
  }

  predicate AlwaysAwaitedCovered(tokens: Tokens, rules: TraceRules, calls: seq<Call>, key: bytes)
    decreases |calls|
  {
    AwaitedCovered(ChainRun(tokens, rules, calls), rules, key)
    && (calls == [] || AlwaysAwaitedCovered(tokens, rules, calls[..|calls| - 1], key))
  }

  lemma CleanStep(c: Chain, w: World, tokens: Tokens, rules: TraceRules, call: Call, key: bytes)
    requires Refines(c, w, rules) && CleanCall(c, tokens, rules, call, key) && OpOf(c, rules, call).Some?
    ensures Clean(w, c.commitments.Keys, tokens, OpOf(c, rules, call).value, key)
  {
    var op := OpOf(c, rules, call).value;
    if TakesEffect(w.s, tokens, op) && MsgKey(tokens, op.msg) == key {
      forall p | p in w.sent && p in c.commitments && PathKey(w.sent[p]) == key && PendingKey(p.0, p.1) in w.s.pending
        ensures w.sent[p].amount == 0
      {
        assert IsMarked(c, p) && InfoOf(c, rules, p) == Ok(w.sent[p]);
      }
    }
  }

  /** Commitments only go, but for that of a packet that is new. */
  lemma CommitmentsFollow(c: Chain, w: World, tokens: Tokens, rules: TraceRules, call: Call)
    requires Refines(c, w, rules)
    ensures Follow(w, c.commitments.Keys, Deliver(c, tokens, rules, call).commitments.Keys)
  {
  }

  lemma FailIsAwaited(c: Chain, tokens: Tokens, rules: TraceRules, call: Call)
    requires Effect(c, tokens, rules, call).Some? && OpOf(c, rules, call).Some?
    requires OpOf(c, rules, call).value.FailOp? && !call.AdminCall?
    ensures var op := OpOf(c, rules, call).value; (op.info.channelId, op.sequence) in c.commitments
  {
    assert Committed(c, call.packet);
  }

  lemma CallKeepsPath(c: Chain, w: World, tokens: Tokens, rules: TraceRules, call: Call, key: bytes)
    requires Refines(c, w, rules) && Inv(w) && Fair(call) && PathOk(w, c.commitments.Keys, key)
    requires CleanCall(c, tokens, rules, call, key)
    ensures PathOk(WorldAfter(c, w, tokens, rules, call), Deliver(c, tokens, rules, call).commitments.Keys, key)
  {
    var ids' := Deliver(c, tokens, rules, call).commitments.Keys;
    DeliverRefines(c, w, tokens, rules, call);
    CommitmentsFollow(c, w, tokens, rules, call);
    if Effect(c, tokens, rules, call).Some? && !call.OpenCall? {
      var op := OpOf(c, rules, call).value;
      CleanStep(c, w, tokens, rules, call, key);
      if op.FailOp? {
        FailIsAwaited(c, tokens, rules, call);
      }
      StepKeepsPath(w, c.commitments.Keys, ids', tokens, op, key);
    } else {
      PathStays(w, c.commitments.Keys, w, ids', key);
    }
  }

  lemma {:induction false} CallsKeepPath(tokens: Tokens, rules: TraceRules, calls: seq<Call>, key: bytes)
    requires FairRun(calls) && AlwaysCleanCalls(tokens, rules, calls, key)
    ensures PathOk(WorldOf(tokens, rules, calls), ChainRun(tokens, rules, calls).commitments.Keys, key)
    decreases |calls|
  {
    if calls != [] {
      var init := calls[..|calls| - 1];
      CallsKeepPath(tokens, rules, init, key);
      ChainWorld(tokens, rules, init);
      NextWorld(tokens, rules, calls);
      CallKeepsPath(
        ChainRun(tokens, rules, init), WorldOf(tokens, rules, init), tokens, rules, calls[|calls| - 1], key);
    }
  }

  lemma PathCoversAwaited(c: Chain, w: World, rules: TraceRules, key: bytes)
    requires Refines(c, w, rules) && Inv(w) && PathOk(w, c.commitments.Keys, key)
    ensures AwaitedCovered(c, rules, key)
  {
    forall k | k in c.commitments && IsMarked(c, k)
      ensures var r := InfoOf(c, rules, k);
              r.Ok? && PathKey(r.value) == key && key in c.s.limits ==> r.value.amount <= c.s.limits[key].flow.outflow
    {
      if PathKey(w.sent[k]) == key && key in c.s.limits {
        PathCovers(w, c.commitments.Keys, w.sent[k], k.1);
      }
    }
  }

  /** Where a call zeroes the path, its outflow of zero covers what is awaited only if nothing is at stake. */
  lemma CleanIfAwaitedCovered(c: Chain, w: World, tokens: Tokens, rules: TraceRules, call: Call, key: bytes)
    requires Refines(c, w, rules) && Inv(w) && AwaitedCovered(Deliver(c, tokens, rules, call), rules, key)
    ensures CleanCall(c, tokens, rules, call, key)
  {
    if call.AdminCall? && TakesEffect(c.s, tokens, call.op) && MsgKey(tokens, call.op.msg) == key {
      var c' := Deliver(c, tokens, rules, call);
      StoreTakesEffect(World(c.s, map[], []), tokens, call.op);
      forall k | k in c.commitments && IsMarked(c, k)
        ensures var r := InfoOf(c, rules, k); r.Ok? && PathKey(r.value) == key ==> r.value.amount == 0
      {
        assert k in c'.commitments && IsMarked(c', k) && InfoOf(c', rules, k) == Ok(w.sent[k]);
      }
    }
  }

  /**
   Throughout a run of the chain the outflow of a path covers each marked packet it awaits, so that a failed answer
   never takes it below zero, exactly if every add and update of the path that takes effect finds no awaited packet
   of it pending with a positive amount. Removals, and whatever happens to other paths, do not matter.
   */
  lemma {:induction false} AwaitedCoveredThroughout(tokens: Tokens, rules: TraceRules, calls: seq<Call>, key: bytes)
    requires FairRun(calls)
    ensures AlwaysAwaitedCovered(tokens, rules, calls, key) <==> AlwaysCleanCalls(tokens, rules, calls, key)
    decreases |calls|
  {
    if calls != [] {
      var init := calls[..|calls| - 1];
      AwaitedCoveredThroughout(tokens, rules, init, key);
      if AlwaysAwaitedCovered(tokens, rules, calls, key) {
        ChainWorld(tokens, rules, init);
        CleanIfAwaitedCovered(
          ChainRun(tokens, rules, init), WorldOf(tokens, rules, init), tokens, rules, calls[|calls| - 1], key);
      }
    }
    if AlwaysCleanCalls(tokens, rules, calls, key) {
      ChainWorld(tokens, rules, calls);
      CallsKeepPath(tokens, rules, calls, key);
      PathCoversAwaited(ChainRun(tokens, rules, calls), WorldOf(tokens, rules, calls), rules, key);
    }
  }

  // ---------------------------------------------------------------- marks of awaited packets

  /** Every mark in the store is that of a packet that still awaits its answer. */
  ghost predicate MarksAwaited(c: Chain) {
    forall m :: m in c.s.pending ==> exists k :: k in c.commitments && PendingKey(k.0, k.1) == m
  }

  /** The answer is an error or a timeout, and the callback succeeds. */
  predicate FailsPacket(c: Chain, tokens: Tokens, rules: TraceRules, call: Call) {
    Effect(c, tokens, rules, call).Some? && (call.TimeoutCall? || (call.AckCall? && call.ack.AckError?))
  }

  /** The failed answer to a marked packet finds the limit of its path. */
  predicate FindsLimit(c: Chain, tokens: Tokens, rules: TraceRules, call: Call) {
    FailsPacket(c, tokens, rules, call) && IsMarked(c, CommitmentKey(call.packet)) ==>
      var r := ParsePacketInfo(rules, call.packet, PacketSend); r.Ok? && PathKey(r.value) in c.s.limits
  }

  ghost predicate AlwaysMarksAwaited(tokens: Tokens, rules: TraceRules, calls: seq<Call>)
    decreases |calls|
  {
    MarksAwaited(ChainRun(tokens, rules, calls))
    && (calls == [] || AlwaysMarksAwaited(tokens, rules, calls[..|calls| - 1]))
  }

  predicate AlwaysFindsLimit(tokens: Tokens, rules: TraceRules, calls: seq<Call>)
    decreases |calls|
  {
    calls == []
    || (var init := calls[..|calls| - 1];
        AlwaysFindsLimit(tokens, rules, init)
        && FindsLimit(ChainRun(tokens, rules, init), tokens, rules, calls[|calls| - 1]))
  }

  /** What an answer that takes effect does to marks and commitments. */
  lemma AnswerShape(c: Chain, w: World, tokens: Tokens, rules: TraceRules, call: Call)
    requires Refines(c, w, rules) && (call.AckCall? || call.TimeoutCall?) && Effect(c, tokens, rules, call).Some?
    ensures var (c', k) := (Deliver(c, tokens, rules, call), CommitmentKey(call.packet));
            && k in c.commitments && c'.commitments == c.commitments - {k}
            && (FailsPacket(c, tokens, rules, call) && IsMarked(c, k) && !FindsLimit(c, tokens, rules, call) ==>
                  c'.s.pending == c.s.pending)
            && (!(FailsPacket(c, tokens, rules, call) && IsMarked(c, k)) || FindsLimit(c, tokens, rules, call) ==>
                  c'.s.pending == c.s.pending - {PendingKey(k.0, k.1)})
  {
    assert Committed(c, call.packet);
  }

  lemma OneCommitment(c: Chain, w: World, rules: TraceRules, k: (bytes, uint64), k': (bytes, uint64))
    requires Refines(c, w, rules) && Inv(w) && k in c.commitments && k' in c.commitments
    ensures PendingKey(k.0, k.1) == PendingKey(k'.0, k'.1) ==> k == k'
  {
    if PendingKey(k.0, k.1) == PendingKey(k'.0, k'.1) {
      PendingKeyInjective(k.0, k.1, k'.0, k'.1);
    }
  }

  /** A commitment goes together with its mark. */
  lemma UnmarkedKeepsMarks(c: Chain, c': Chain, k: (bytes, uint64))
    requires MarksAwaited(c) && c'.commitments == c.commitments - {k}
    requires c'.s.pending == c.s.pending - {PendingKey(k.0, k.1)}
    ensures MarksAwaited(c')
  {
    forall m | m in c'.s.pending ensures exists k' :: k' in c'.commitments && PendingKey(k'.0, k'.1) == m {
      var k' :| k' in c.commitments && PendingKey(k'.0, k'.1) == m;
      assert k' != k;
    }
  }

  /** A commitment goes and its mark stays. */
  lemma OrphanIsLeft(c: Chain, w: World, rules: TraceRules, c': Chain, k: (bytes, uint64))
    requires Refines(c, w, rules) && Inv(w) && k in c.commitments && IsMarked(c', k)
    requires c'.commitments == c.commitments - {k}
    ensures !MarksAwaited(c')
  {
    if MarksAwaited(c') {
      var k' :| k' in c'.commitments && PendingKey(k'.0, k'.1) == PendingKey(k.0, k.1);
      OneCommitment(c, w, rules, k, k');
    }
  }

  lemma AnswerKeepsMarks(c: Chain, w: World, tokens: Tokens, rules: TraceRules, call: Call)
    requires Refines(c, w, rules) && Inv(w) && MarksAwaited(c)
    requires (call.AckCall? || call.TimeoutCall?) && Effect(c, tokens, rules, call).Some?
    ensures MarksAwaited(Deliver(c, tokens, rules, call)) <==> FindsLimit(c, tokens, rules, call)
  {
    var c', k := Deliver(c, tokens, rules, call), CommitmentKey(call.packet);
    AnswerShape(c, w, tokens, rules, call);
    if FindsLimit(c, tokens, rules, call) {
      UnmarkedKeepsMarks(c, c', k);
    } else {
      OrphanIsLeft(c, w, rules, c', k);
    }
  }

  lemma OthersKeepMarks(c: Chain, w: World, tokens: Tokens, rules: TraceRules, call: Call)
    requires Refines(c, w, rules) && Inv(w) && MarksAwaited(c) && Fair(call)
    requires !call.AckCall? && !call.TimeoutCall?
    ensures MarksAwaited(Deliver(c, tokens, rules, call))
  {
    var c' := Deliver(c, tokens, rules, call);
    if call.AdminCall? {
      AdminStores(w, tokens, call.op);
    }
    if call.SendCall? && Effect(c, tokens, rules, call).Some? {
      SendMarks(c, tokens, rules, call.packet);
    }
    forall m | m in c'.s.pending ensures exists k :: k in c'.commitments && PendingKey(k.0, k.1) == m {
      if m in c.s.pending {
        var k :| k in c.commitments && PendingKey(k.0, k.1) == m;
        assert k in c'.commitments;
      } else {
        var k := (call.packet.sourceChannel, c.next[call.packet.sourceChannel]);
        assert k in c'.commitments;
      }
    }
  }

  lemma SendMarks(c: Chain, tokens: Tokens, rules: TraceRules, packet: Packet)
    requires Effect(c, tokens, rules, SendCall(packet)).Some?
    ensures var (c', k) := (Deliver(c, tokens, rules, SendCall(packet)),
                            (packet.sourceChannel, c.next[packet.sourceChannel]));
            k in c'.commitments && c'.s.pending <= c.s.pending + {PendingKey(k.0, k.1)}
  {
  }

  /**
   Throughout a run of the chain every mark in the store is that of a packet that still awaits its answer, exactly if
   every failed answer to a marked packet finds the limit of its path.
   */
  lemma {:induction false} MarksAwaitedThroughout(tokens: Tokens, rules: TraceRules, calls: seq<Call>)
    requires FairRun(calls)
    ensures AlwaysMarksAwaited(tokens, rules, calls) <==> AlwaysFindsLimit(tokens, rules, calls)
    decreases |calls|
  {
    if calls != [] {
      var init, call := calls[..|calls| - 1], calls[|calls| - 1];
      var c, w := ChainRun(tokens, rules, init), WorldOf(tokens, rules, init);
      MarksAwaitedThroughout(tokens, rules, init);
      ChainWorld(tokens, rules, init);
      if AlwaysMarksAwaited(tokens, rules, init) {
        if Effect(c, tokens, rules, call).Some? && (call.AckCall? || call.TimeoutCall?) {
          AnswerKeepsMarks(c, w, tokens, rules, call);
        } else if !call.AckCall? && !call.TimeoutCall? {
          OthersKeepMarks(c, w, tokens, rules, call);
        }
      }
    }
  }

  /**
   Together: where every failed answer to a marked packet found its limit, each mark belongs to an awaited packet;
   and where every add and update of its path found nothing at stake, its amount is part of the outflow.
   */
  lemma MarkIsAwaitedAndCovered(tokens: Tokens, rules: TraceRules, calls: seq<Call>, mark: bytes)
    requires FairRun(calls) && AlwaysFindsLimit(tokens, rules, calls)
    requires mark in ChainRun(tokens, rules, calls).s.pending
    ensures var c := ChainRun(tokens, rules, calls);
            exists k ::
              && k in c.commitments && PendingKey(k.0, k.1) == mark && InfoOf(c, rules, k).Ok?
              && var info := InfoOf(c, rules, k).value;
                 AlwaysCleanCalls(tokens, rules, calls, PathKey(info)) && PathKey(info) in c.s.limits ==>
                   0 <= info.amount <= c.s.limits[PathKey(info)].flow.outflow
  {
    var c, w := ChainRun(tokens, rules, calls), WorldOf(tokens, rules, calls);
    MarksAwaitedThroughout(tokens, rules, calls);
    ChainWorld(tokens, rules, calls);
    var k :| k in c.commitments && PendingKey(k.0, k.1) == mark;
    var info := w.sent[k];
    assert InfoOf(c, rules, k) == Ok(info);
    if AlwaysCleanCalls(tokens, rules, calls, PathKey(info)) && PathKey(info) in c.s.limits {
      CallsKeepPath(tokens, rules, calls, PathKey(info));
      PathCovers(w, c.commitments.Keys, info, k.1);
    }
  }
}
