/**
 How far a path's flow can get from balance. These bounds hold over every run of nonnegative amounts and valid
 messages: they need neither fresh sequences nor genuine packets, and updates and removals are unrestricted.
 */
module RateLimitThresholds {
  import opened Wrappers
  import opened Bytes
  import opened Denoms
  import opened RateLimitTypes
  import opened RateLimitSpec
  import opened RateLimitHistory
  import opened RateLimitRuns

  predicate AllBasic(ops: seq<Op>) {
    forall i :: 0 <= i < |ops| ==> Basic(ops[i])
  }

  /** The ceiling of the path's current window, if it ever had one. */
  function CurrentCeiling(log: Log, key: bytes): Option<Option<int>> {
    if log == [] then None
    else
      var (init, e) := (log[..|log| - 1], log[|log| - 1]);
      if e.Zeroed? && e.key == key then Some(e.ceiling) else CurrentCeiling(init, key)
  }

  predicate LimitOk(log: Log, key: bytes, rl: RateLimit) {
    && rl.minRateLimitAmount > 0
    && RevertedSince(log, key) >= 0
    && CurrentCeiling(log, key) == Some(Ceiling(rl))
    && (rl.flow.channelValue != 0 ==>
          && rl.flow.NetOutflow() <= rl.Threshold(PacketSend)
          && -rl.flow.NetOutflow() <= rl.Threshold(PacketRecv) + RevertedSince(log, key))
  }

  predicate Balanced(w: World) {
    WellKeyed(w.s) && forall k :: k in w.s.limits ==> LimitOk(w.log, k, w.s.limits[k])
  }

  lemma Latest(log: Log, e: Event)
    ensures (log + [e])[..|log|] == log && (log + [e])[|log|] == e
  {
  }

  lemma MovedBalanced(w: World, w': World, key: bytes, inflow: int, outflow: int, e: Event)
    requires Balanced(w) && Moves(w, w', key, inflow, outflow) && w'.log == w.log + [e] && !e.Zeroed?
    requires forall k :: k in w.s.limits ==>
      RevertedSince(w'.log, k) == RevertedSince(w.log, k) + if k == key && e.Reverted? then e.info.amount else 0
    requires e.Reverted? ==> e.info.amount >= 0
    requires var rl := w.s.limits[key];
             rl.flow.channelValue != 0 ==>
               && rl.flow.NetOutflow() + outflow - inflow <= rl.Threshold(PacketSend)
               && -rl.flow.NetOutflow() - outflow + inflow <= rl.Threshold(PacketRecv) + RevertedSince(w'.log, key)
    ensures Balanced(w')
  {
    Latest(w.log, e);
    MovesKeepsKeys(w, w', key, inflow, outflow);
    forall k | k in w'.s.limits ensures LimitOk(w'.log, k, w'.s.limits[k]) {
      assert LimitOk(w.log, k, w.s.limits[k]);
    }
  }

  lemma ZeroedBalanced(w: World, w': World, e: Event)
    requires Balanced(w) && Restarts(w, w', e) && w'.s.limits[e.key].minRateLimitAmount > 0
    ensures Balanced(w')
  {
    Latest(w.log, e);
    forall k | k in w'.s.limits ensures LimitOk(w'.log, k, w'.s.limits[k]) {
      if k != e.key {
        assert LimitOk(w.log, k, w.s.limits[k]);
      }
    }
  }

  lemma CountedWithinThreshold(s: State, direction: Direction, info: PacketInfo)
    requires Check(s, direction, info).1 == Ok(true)
    ensures PathKey(info) in s.limits
    ensures var rl := s.limits[PathKey(info)];
            rl.flow.channelValue != 0 ==>
              (if direction.PacketSend? then rl.flow.NetOutflow() + info.amount else info.amount - rl.flow.NetOutflow())
              <= rl.Threshold(direction)
  {
  }

  lemma SendKeepsBalance(w: World, tokens: Tokens, op: Op)
    requires Balanced(w) && Basic(op) && op.SendOp?
    ensures Balanced(Step(w, tokens, op))
  {
    if Check(w.s, PacketSend, op.info).1 == Ok(true) {
      SendMoves(w, tokens, op);
      CountedWithinThreshold(w.s, PacketSend, op.info);
      Latest(w.log, Counted(op.info, op.sequence));
      assert LimitOk(w.log, PathKey(op.info), w.s.limits[PathKey(op.info)]);
      MovedBalanced(w, Step(w, tokens, op), PathKey(op.info), 0, op.info.amount, Counted(op.info, op.sequence));
    } else {
      SendUncounted(w, tokens, op);
    }
  }

  lemma RecvKeepsBalance(w: World, tokens: Tokens, op: Op)
    requires Balanced(w) && Basic(op) && op.RecvOp?
    ensures Balanced(Step(w, tokens, op))
  {
    if Check(w.s, PacketRecv, op.info).1 == Ok(true) {
      RecvMoves(w, tokens, op);
      CountedWithinThreshold(w.s, PacketRecv, op.info);
      Latest(w.log, Received(op.info));
      assert LimitOk(w.log, PathKey(op.info), w.s.limits[PathKey(op.info)]);
      MovedBalanced(w, Step(w, tokens, op), PathKey(op.info), op.info.amount, 0, Received(op.info));
    }
  }

  lemma FailKeepsBalance(w: World, tokens: Tokens, op: Op)
    requires Balanced(w) && Basic(op) && op.FailOp?
    ensures Balanced(Step(w, tokens, op))
  {
    if Undoes(w.s, op.info, op.sequence) {
      FailMoves(w, tokens, op);
      Latest(w.log, Reverted(op.info, op.sequence));
      assert LimitOk(w.log, PathKey(op.info), w.s.limits[PathKey(op.info)]);
      MovedBalanced(w, Step(w, tokens, op), PathKey(op.info), 0, -op.info.amount, Reverted(op.info, op.sequence));
    }
  }

  lemma AckKeepsBalance(w: World, tokens: Tokens, op: Op)
    requires Balanced(w) && op.AckOp?
    ensures Balanced(Step(w, tokens, op))
  {
    var e := Settled(op.info, op.sequence);
    Latest(w.log, e);
    forall k | k in w.s.limits ensures LimitOk(w.log + [e], k, w.s.limits[k]) {
      assert LimitOk(w.log, k, w.s.limits[k]);
    }
  }

  lemma ControlKeepsBalance(w: World, tokens: Tokens, op: Op)
    requires Balanced(w) && Basic(op) && (op.AddOp? || op.UpdateOp? || op.ResetOp?)
    ensures Balanced(Step(w, tokens, op))
  {
    var w' := Step(w, tokens, op);
    if w' != w {
      if op.ResetOp? {
        ResetRestarts(w, tokens, op);
        var key := LimitKey(Resolve(tokens, op.denom, op.channelId), op.channelId);
        assert LimitOk(w.log, key, w.s.limits[key]);
        ZeroedBalanced(w, w', Zeroing(w'.s, key, Some(op.channelId)));
      } else {
        StoreRestarts(w, tokens, op);
        ZeroedBalanced(w, w', Zeroing(w'.s, MsgKey(tokens, op.msg), None));
      }
    }
  }

  lemma StepKeepsBalance(w: World, tokens: Tokens, op: Op)
    requires Balanced(w) && Basic(op)
    ensures Balanced(Step(w, tokens, op))
  {
    match op
    case SendOp(_, _) => SendKeepsBalance(w, tokens, op);
    case RecvOp(_) => RecvKeepsBalance(w, tokens, op);
    case FailOp(_, _) => FailKeepsBalance(w, tokens, op);
    case AckOp(_, _) => AckKeepsBalance(w, tokens, op);
    case AddOp(_, _) => ControlKeepsBalance(w, tokens, op);
    case UpdateOp(_, _) => ControlKeepsBalance(w, tokens, op);
    case ResetOp(_, _, _) => ControlKeepsBalance(w, tokens, op);
    case RemoveOp(_, _) =>
    case WhitelistOp(_) =>
  }

  lemma {:induction false} RunBalanced(tokens: Tokens, ops: seq<Op>)
    requires AllBasic(ops)
    ensures Balanced(Run(tokens, ops))
    decreases |ops|
  {
    if ops != [] {
      RunBalanced(tokens, ops[..|ops| - 1]);
      StepKeepsBalance(Run(tokens, ops[..|ops| - 1]), tokens, ops[|ops| - 1]);
    }
  }

  /**
   In every reachable state, a path of nonzero channel value has a net outflow of at most its send threshold,
   and a net inflow of at most its receive threshold plus what was reverted on it since its last zeroing.
   */
  lemma FlowWithinThresholds(tokens: Tokens, ops: seq<Op>, key: bytes)
    requires AllBasic(ops) && key in Run(tokens, ops).s.limits
    requires Run(tokens, ops).s.limits[key].flow.channelValue != 0
    ensures var rl, log := Run(tokens, ops).s.limits[key], Run(tokens, ops).log;
            && rl.flow.outflow - rl.flow.inflow <= rl.Threshold(PacketSend)
            && rl.flow.inflow - rl.flow.outflow <= rl.Threshold(PacketRecv) + RevertedSince(log, key)
  {
    RunBalanced(tokens, ops);
  }

  // ---------------------------------------------------------------- over all windows

  /** The total net outflow so far: full windows of t each, and the present one at its actual level. */
  predicate WithinBudget(w: World, key: bytes, t: int) {
    if key in w.s.limits then
      Windows(w.log, key) > 0 && NetSent(w.log, key)
        <= (Windows(w.log, key) - 1) * t + w.s.limits[key].flow.NetOutflow()
    else
      NetSent(w.log, key) <= Windows(w.log, key) * t
  }

  lemma {:induction false} CurrentIsACeiling(log: Log, key: bytes, t: int)
    requires Ceilings(log, key, t) && CurrentCeiling(log, key).Some?
    ensures CurrentCeiling(log, key).value.Some? && CurrentCeiling(log, key).value.value <= t
  {
    var (init, e) := (log[..|log| - 1], log[|log| - 1]);
    if !(e.Zeroed? && e.key == key) {
      CurrentIsACeiling(init, key, t);
    }
  }

  /** The present window is within t. */
  lemma PresentWindow(w: World, key: bytes, t: int)
    requires Balanced(w) && Ceilings(w.log, key, t) && key in w.s.limits
    ensures w.s.limits[key].flow.NetOutflow() <= t
  {
    assert LimitOk(w.log, key, w.s.limits[key]);
    CurrentIsACeiling(w.log, key, t);
  }

  lemma MoveWithinBudget(w: World, w': World, at: bytes, inflow: int, outflow: int, e: Event, key: bytes, t: int)
    requires WithinBudget(w, key, t) && Moves(w, w', at, inflow, outflow) && w'.log == w.log + [e] && !e.Zeroed?
    requires NetSent(w'.log, key) == NetSent(w.log, key) + if key == at then outflow - inflow else 0
    ensures WithinBudget(w', key, t)
  {
    Latest(w.log, e);
    assert Windows(w'.log, key) == Windows(w.log, key);
  }

  lemma SendWithinBudget(w: World, tokens: Tokens, op: Op, key: bytes, t: int)
    requires WellKeyed(w.s) && WithinBudget(w, key, t) && op.SendOp?
    ensures WithinBudget(Step(w, tokens, op), key, t)
  {
    if Check(w.s, PacketSend, op.info).1 == Ok(true) {
      SendMoves(w, tokens, op);
      Latest(w.log, Counted(op.info, op.sequence));
      MoveWithinBudget(w, Step(w, tokens, op), PathKey(op.info), 0, op.info.amount,
        Counted(op.info, op.sequence), key, t);
    } else {
      SendUncounted(w, tokens, op);
    }
  }

  lemma RecvWithinBudget(w: World, tokens: Tokens, op: Op, key: bytes, t: int)
    requires WellKeyed(w.s) && WithinBudget(w, key, t) && op.RecvOp?
    ensures WithinBudget(Step(w, tokens, op), key, t)
  {
    if Check(w.s, PacketRecv, op.info).1 == Ok(true) {
      RecvMoves(w, tokens, op);
      Latest(w.log, Received(op.info));
      MoveWithinBudget(w, Step(w, tokens, op), PathKey(op.info), op.info.amount, 0, Received(op.info), key, t);
    }
  }

  lemma FailWithinBudget(w: World, tokens: Tokens, op: Op, key: bytes, t: int)
    requires WellKeyed(w.s) && WithinBudget(w, key, t) && op.FailOp?
    ensures WithinBudget(Step(w, tokens, op), key, t)
  {
    if Undoes(w.s, op.info, op.sequence) {
      FailMoves(w, tokens, op);
      Latest(w.log, Reverted(op.info, op.sequence));
      MoveWithinBudget(w, Step(w, tokens, op), PathKey(op.info), 0, -op.info.amount,
        Reverted(op.info, op.sequence), key, t);
    }
  }

  lemma AckWithinBudget(w: World, tokens: Tokens, op: Op, key: bytes, t: int)
    requires WithinBudget(w, key, t) && op.AckOp?
    ensures WithinBudget(Step(w, tokens, op), key, t)
  {
    Latest(w.log, Settled(op.info, op.sequence));
    assert Windows(Step(w, tokens, op).log, key) == Windows(w.log, key);
  }

  lemma NextWindow(w: World, w': World, e: Event, key: bytes, t: int)
    requires Balanced(w) && Ceilings(w.log, key, t) && WithinBudget(w, key, t) && Restarts(w, w', e)
    ensures WithinBudget(w', key, t)
  {
    Latest(w.log, e);
    if key == e.key && key in w.s.limits {
      PresentWindow(w, key, t);
      OneMoreWindow(Windows(w.log, key), t);
    }
  }

  lemma OneMoreWindow(n: int, t: int)
    ensures n * t == (n - 1) * t + t
  {
  }

  lemma ControlWithinBudget(w: World, tokens: Tokens, op: Op, key: bytes, t: int)
    requires Balanced(w) && Ceilings(w.log, key, t) && WithinBudget(w, key, t) && Basic(op)
    requires op.AddOp? || op.UpdateOp? || op.ResetOp?
    ensures WithinBudget(Step(w, tokens, op), key, t)
  {
    var w' := Step(w, tokens, op);
    if w' != w {
      if op.ResetOp? {
        ResetRestarts(w, tokens, op);
        var at := LimitKey(Resolve(tokens, op.denom, op.channelId), op.channelId);
        NextWindow(w, w', Zeroing(w'.s, at, Some(op.channelId)), key, t);
      } else {
        StoreRestarts(w, tokens, op);
        NextWindow(w, w', Zeroing(w'.s, MsgKey(tokens, op.msg), None), key, t);
      }
    }
  }

  lemma RemoveWithinBudget(w: World, tokens: Tokens, op: Op, key: bytes, t: int)
    requires Balanced(w) && Ceilings(w.log, key, t) && WithinBudget(w, key, t) && op.RemoveOp?
    ensures WithinBudget(Step(w, tokens, op), key, t)
  {
    if key in w.s.limits {
      PresentWindow(w, key, t);
      OneMoreWindow(Windows(w.log, key), t);
    }
  }

  lemma CeilingsShrink(w: World, tokens: Tokens, op: Op, key: bytes, t: int)
    requires Ceilings(Step(w, tokens, op).log, key, t)
    ensures Ceilings(w.log, key, t)
  {
    var l := Step(w, tokens, op).log;
    assert w.log <= l;
    assert forall i :: 0 <= i < |w.log| ==> w.log[i] == l[i];
  }

  lemma {:induction false} RunWithinBudget(tokens: Tokens, ops: seq<Op>, key: bytes, t: int)
    requires AllBasic(ops) && Ceilings(Run(tokens, ops).log, key, t)
    ensures WithinBudget(Run(tokens, ops), key, t)
    decreases |ops|
  {
    if ops != [] {
      var init, op := ops[..|ops| - 1], ops[|ops| - 1];
      var w := Run(tokens, init);
      CeilingsShrink(w, tokens, op, key, t);
      RunWithinBudget(tokens, init, key, t);
      RunBalanced(tokens, init);
      match op
      case AddOp(_, _) => ControlWithinBudget(w, tokens, op, key, t);
      case UpdateOp(_, _) => ControlWithinBudget(w, tokens, op, key, t);
      case ResetOp(_, _, _) => ControlWithinBudget(w, tokens, op, key, t);
      case RemoveOp(_, _) => RemoveWithinBudget(w, tokens, op, key, t);
      case SendOp(_, _) => SendWithinBudget(w, tokens, op, key, t);
      case RecvOp(_) => RecvWithinBudget(w, tokens, op, key, t);
      case FailOp(_, _) => FailWithinBudget(w, tokens, op, key, t);
      case AckOp(_, _) => AckWithinBudget(w, tokens, op, key, t);
      case WhitelistOp(_) =>
    }
  }

  /**
   Over a whole run in which every window of a path had a send threshold, of at most t: what was sent on the
   path, less what was reverted and what was received, is at most t for each window that was opened; a path
   that was added once and reset k times has k + 1 of them.
   */
  lemma NetSentWithinWindows(tokens: Tokens, ops: seq<Op>, key: bytes, t: int)
    requires AllBasic(ops) && Ceilings(Run(tokens, ops).log, key, t)
    ensures var log := Run(tokens, ops).log; NetSent(log, key) <= Windows(log, key) * t
  {
    var w := Run(tokens, ops);
    RunWithinBudget(tokens, ops, key, t);
    if key in w.s.limits {
      RunBalanced(tokens, ops);
      PresentWindow(w, key, t);
      OneMoreWindow(Windows(w.log, key), t);
    }
  }
}
