/** The end of an epoch within a run of the rate limiter. */
module EpochRuns {
  import opened KeyOrder
  import opened RateLimitTypes
  import opened RateLimitSpec
  import opened RateLimitRuns
  import opened Epochs

  /** Stored paths name channels the channel keeper made. */
  predicate ChannelsOk(s: State) {
    forall k :: k in s.limits ==> ChannelId(s.limits[k].path.channelId)
  }

  lemma RunLast(tokens: Tokens, ops: seq<Op>)
    requires ops != []
    ensures var init, op := ops[..|ops| - 1], ops[|ops| - 1];
            Run(tokens, ops) == Step(Run(tokens, init), tokens, op)
            && (Legal(tokens, ops) ==> Legal(tokens, init) && Linked(Run(tokens, init), op))
  {
  }

  lemma StepChannelsOk(w: World, tokens: Tokens, op: Op)
    requires ChannelsOk(w.s) && Linked(w, op)
    ensures ChannelsOk(Step(w, tokens, op).s)
  {
  }

  lemma {:induction false} RunChannelsOk(tokens: Tokens, ops: seq<Op>)
    requires Legal(tokens, ops)
    ensures ChannelsOk(Run(tokens, ops).s)
    decreases |ops|
  {
    if ops != [] {
      RunLast(tokens, ops);
      RunChannelsOk(tokens, ops[..|ops| - 1]);
      StepChannelsOk(Run(tokens, ops[..|ops| - 1]), tokens, ops[|ops| - 1]);
    }
  }

  lemma StepResolved(w: World, tokens: Tokens, op: Op)
    requires ResolveIdempotent(tokens) && Resolved(w.s, tokens)
    ensures Resolved(Step(w, tokens, op).s, tokens)
  {
  }

  /** If looking a denomination up twice changes nothing, every stored path is found by its own denomination. */
  lemma {:induction false} RunResolved(tokens: Tokens, ops: seq<Op>)
    requires ResolveIdempotent(tokens)
    ensures Resolved(Run(tokens, ops).s, tokens)
    decreases |ops|
  {
    if ops != [] {
      RunLast(tokens, ops);
      RunResolved(tokens, ops[..|ops| - 1]);
      StepResolved(Run(tokens, ops[..|ops| - 1]), tokens, ops[|ops| - 1]);
    }
  }

  function ResetOps(bank: Bank, paths: seq<Path>): seq<Op> {
    seq(|paths|, i requires 0 <= i < |paths| => ResetOp(bank, paths[i].denom, paths[i].channelId))
  }

  lemma ResetStep(w: World, tokens: Tokens, bank: Bank, p: Path)
    requires WellKeyed(w.s)
    ensures Step(w, tokens, ResetOp(bank, p.denom, p.channelId)).s == Reset(w.s, tokens, bank, p.denom, p.channelId).0
  {
  }

  lemma RunSnoc(tokens: Tokens, ops: seq<Op>, op: Op)
    requires Legal(tokens, ops) && op.ResetOp? && ChannelId(op.channelId)
    ensures Run(tokens, ops + [op]) == Step(Run(tokens, ops), tokens, op)
    ensures Legal(tokens, ops + [op])
  {
    assert (ops + [op])[..|ops|] == ops;
  }

  lemma ResetSnoc(tokens: Tokens, ops: seq<Op>, bank: Bank, p: Path)
    requires Legal(tokens, ops) && ChannelId(p.channelId)
    ensures var op := ResetOp(bank, p.denom, p.channelId);
            Legal(tokens, ops + [op])
            && Run(tokens, ops + [op]).s == Reset(Run(tokens, ops).s, tokens, bank, p.denom, p.channelId).0
  {
    RunSnoc(tokens, ops, ResetOp(bank, p.denom, p.channelId));
    RunKeepsInv(tokens, ops);
    ResetStep(Run(tokens, ops), tokens, bank, p);
  }

  lemma ResetOpsSnoc(ops: seq<Op>, bank: Bank, paths: seq<Path>, p: Path)
    ensures ops + ResetOps(bank, paths + [p]) == (ops + ResetOps(bank, paths)) + [ResetOp(bank, p.denom, p.channelId)]
  {
  }

  lemma ResetRunSnoc(tokens: Tokens, ops: seq<Op>, bank: Bank, init: seq<Path>, last: Path)
    requires Legal(tokens, ops + ResetOps(bank, init)) && ChannelId(last.channelId)
    requires Run(tokens, ops + ResetOps(bank, init)).s == ResetAll(Run(tokens, ops).s, tokens, bank, init)
    ensures Legal(tokens, ops + ResetOps(bank, init + [last]))
    ensures Run(tokens, ops + ResetOps(bank, init + [last])).s
      == ResetAll(Run(tokens, ops).s, tokens, bank, init + [last])
  {
    ResetOpsSnoc(ops, bank, init, last);
    ResetSnoc(tokens, ops + ResetOps(bank, init), bank, last);
    ResetAllSnoc(Run(tokens, ops).s, tokens, bank, init, last);
  }

  lemma {:induction false} ResetRun(tokens: Tokens, ops: seq<Op>, bank: Bank, paths: seq<Path>)
    requires Legal(tokens, ops) && forall i :: 0 <= i < |paths| ==> ChannelId(paths[i].channelId)
    ensures Legal(tokens, ops + ResetOps(bank, paths))
    ensures Run(tokens, ops + ResetOps(bank, paths)).s == ResetAll(Run(tokens, ops).s, tokens, bank, paths)
    decreases |paths|
  {
    if paths == [] {
      assert ops + ResetOps(bank, paths) == ops;
    } else {
      var init, last := paths[..|paths| - 1], paths[|paths| - 1];
      assert paths == init + [last];
      ResetRun(tokens, ops, bank, init);
      ResetRunSnoc(tokens, ops, bank, init, last);
    }
  }

  /**
   The end of an epoch after a legal run is itself the end of a legal run, so everything that holds after every
   run also holds across epochs.
   */
  lemma EpochEndIsARun(tokens: Tokens, ops: seq<Op>, bank: Bank, e: EpochInfo) returns (resets: seq<Op>)
    requires Legal(tokens, ops)
    ensures WellKeyed(Run(tokens, ops).s)
    ensures Legal(tokens, ops + resets)
    ensures Run(tokens, ops + resets).s == EpochEnd(Run(tokens, ops).s, tokens, bank, e)
  {
    RunKeepsInv(tokens, ops);
    RunChannelsOk(tokens, ops);
    var paths := EndPaths(Run(tokens, ops).s, e);
    ResetRun(tokens, ops, bank, paths);
    EndResets(Run(tokens, ops).s, tokens, bank, e);
    resets := ResetOps(bank, paths);
  }

  /** The paths the end of an epoch resets, in order. */
  function EndPaths(s: State, e: EpochInfo): (paths: seq<Path>)
    requires WellKeyed(s)
    ensures ChannelsOk(s) ==> forall i :: 0 <= i < |paths| ==> ChannelId(paths[i].channelId)
  {
    if e.identifier != DAY_EPOCH then [] else PathsOf(s, DueOf(s, SortedKeys(s.limits.Keys), EpochHour(e)))
  }

  lemma EndResets(s: State, tokens: Tokens, bank: Bank, e: EpochInfo)
    requires WellKeyed(s)
    ensures ResetAll(s, tokens, bank, EndPaths(s, e)) == EpochEnd(s, tokens, bank, e)
  {
  }
}
