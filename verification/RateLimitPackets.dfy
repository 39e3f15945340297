/**
 What each packet and each message does to a chain in terms of the packet's own data and the stored record alone:
 when it is let through, what is counted and by how much, and what is undone.
 */
module RateLimitPackets {
  import opened Wrappers
  import opened Bytes
  import opened Denoms
  import opened RateLimitTypes
  import opened RateLimitSpec
  import opened RateLimitHistory
  import opened RateLimitRuns
  import opened RateLimitMiddleware
  import opened RateLimitAwaited

  // ---------------------------------------------------------------- what a packet is measured by

  predicate Readable(packet: Packet) {
    packet.data.Some? && packet.data.value.amount.Some?
  }

  function Amount(packet: Packet): int
    requires Readable(packet)
  {
    packet.data.value.amount.value
  }

  /** The path a sent packet and a received one belong to. */
  function SendKey(rules: TraceRules, packet: Packet): bytes
    requires Readable(packet)
  {
    ParseDenomFromSendPacket(rules, packet.data.value) + packet.sourceChannel
  }

  function RecvKey(rules: TraceRules, packet: Packet): bytes
    requires Readable(packet)
  {
    ParseDenomFromRecvPacket(rules, packet, packet.data.value) + packet.destChannel
  }

  /** The path has no limit, or the packet's own sender and receiver are whitelisted as a pair. */
  predicate Exempt(s: State, key: bytes, packet: Packet)
    requires Readable(packet)
  {
    key !in s.limits || packet.data.value.sender + packet.data.value.receiver in s.whitelist
  }

  /** A net amount within the quota: at most the minimum, or at most the percentage of a nonzero channel value. */
  predicate Fits(rl: RateLimit, net: int, percent: int) {
    rl.flow.channelValue == 0 || net <= rl.minRateLimitAmount || 100 * net <= rl.flow.channelValue * percent
  }

  predicate SendFits(s: State, key: bytes, amount: int)
    requires key in s.limits
  {
    var rl := s.limits[key];
    Fits(rl, rl.flow.outflow - rl.flow.inflow + amount, rl.quota.maxPercentSend)
  }

  predicate RecvFits(s: State, key: bytes, amount: int)
    requires key in s.limits
  {
    var rl := s.limits[key];
    Fits(rl, rl.flow.inflow - rl.flow.outflow + amount, rl.quota.maxPercentRecv)
  }

  /** One path's flow moves by these amounts, and nothing else changes. */
  function Moved(s: State, key: bytes, inflow: int, outflow: int): State
    requires key in s.limits
  {
    var rl := s.limits[key];
    var flow := FlowValue(rl.flow.inflow + inflow, rl.flow.outflow + outflow, rl.flow.channelValue);
    s.(limits := s.limits[key := RateLimit(rl.path, rl.quota, flow, rl.minRateLimitAmount)])
  }

  // ---------------------------------------------------------------- every stored record makes sense

  /** Percentages are percentages and not both zero, minimum and duration are positive, and no value is negative. */
  predicate SoundLimits(s: State) {
    forall k :: k in s.limits ==>
      var (rl, q) := (s.limits[k], s.limits[k].quota);
      && rl.flow.channelValue >= 0 && rl.minRateLimitAmount > 0 && q.durationHours > 0
      && 0 <= q.maxPercentSend <= 100 && 0 <= q.maxPercentRecv <= 100 && q.maxPercentSend + q.maxPercentRecv > 0
  }

  lemma PacketKeepsSound(w: World, tokens: Tokens, op: Op)
    requires WellKeyed(w.s) && SoundLimits(w.s) && (op.SendOp? || op.RecvOp? || op.AckOp? || op.FailOp?)
    ensures SoundLimits(Step(w, tokens, op).s)
  {
  }

  lemma StoreKeepsSound(w: World, tokens: Tokens, op: Op)
    requires SoundLimits(w.s) && Basic(op) && (op.AddOp? || op.UpdateOp?)
    ensures SoundLimits(Step(w, tokens, op).s)
  {
  }

  lemma StepKeepsSound(w: World, tokens: Tokens, op: Op)
    requires WellKeyed(w.s) && SoundLimits(w.s) && Basic(op)
    ensures SoundLimits(Step(w, tokens, op).s)
  {
    if op.SendOp? || op.RecvOp? || op.AckOp? || op.FailOp? {
      PacketKeepsSound(w, tokens, op);
    } else if op.AddOp? || op.UpdateOp? {
      StoreKeepsSound(w, tokens, op);
    }
  }

  lemma {:induction false} RunSound(tokens: Tokens, ops: seq<Op>)
    requires Legal(tokens, ops)
    ensures SoundLimits(Run(tokens, ops).s)
    decreases |ops|
  {
    if ops != [] {
      RunSound(tokens, ops[..|ops| - 1]);
      RunKeepsInv(tokens, ops[..|ops| - 1]);
      StepKeepsSound(Run(tokens, ops[..|ops| - 1]), tokens, ops[|ops| - 1]);
    }
  }

  /** On every chain, every stored record is sound and kept under its own path. */
  lemma ChainSound(tokens: Tokens, rules: TraceRules, calls: seq<Call>)
    requires FairRun(calls)
    ensures var s := ChainRun(tokens, rules, calls).s;
            && WellKeyed(s) && SoundLimits(s)
            && forall k :: k in s.limits ==> k == s.limits[k].path.denom + s.limits[k].path.channelId
  {
    ChainWorld(tokens, rules, calls);
    ChainIsALegalRun(tokens, rules, calls);
    RunSound(tokens, ChainOps(tokens, rules, calls));
  }

  // ---------------------------------------------------------------- packets

  lemma CheckMoves(s: State, direction: Direction, info: PacketInfo)
    requires WellKeyed(s) && Check(s, direction, info).1 == Ok(true)
    ensures PathKey(info) in s.limits
    ensures Check(s, direction, info).0
            == Moved(s, PathKey(info), if direction.PacketRecv? then info.amount else 0,
                     if direction.PacketSend? then info.amount else 0)
  {
  }

  lemma OnSendExact(s: State, rules: TraceRules, packet: Packet)
    requires WellKeyed(s) && SoundLimits(s)
    ensures OnSend(s, rules, packet).Some?
            <==> Readable(packet)
                 && var key := SendKey(rules, packet); Exempt(s, key, packet) || SendFits(s, key, Amount(packet))
    ensures OnSend(s, rules, packet).Some? ==>
              var key := SendKey(rules, packet);
              OnSend(s, rules, packet).value
              == if Exempt(s, key, packet) then s
                 else Moved(s, key, 0, Amount(packet)).(
                        pending := s.pending + {PendingKey(packet.sourceChannel, packet.sequence)})
  {
    if Readable(packet) {
      var info := ParsePacketInfo(rules, packet, PacketSend).value;
      CheckExact(s, PacketSend, info);
      if Check(s, PacketSend, info).1 == Ok(true) {
        CheckMoves(s, PacketSend, info);
      }
    }
  }

  lemma OnRecvExact(s: State, rules: TraceRules, packet: Packet, appOk: bool)
    requires WellKeyed(s) && SoundLimits(s)
    ensures OnRecv(s, rules, packet, appOk).Some?
            <==> Readable(packet) && appOk
                 && var key := RecvKey(rules, packet); Exempt(s, key, packet) || RecvFits(s, key, Amount(packet))
    ensures OnRecv(s, rules, packet, appOk).Some? ==>
              var key := RecvKey(rules, packet);
              OnRecv(s, rules, packet, appOk).value
              == if Exempt(s, key, packet) then s else Moved(s, key, Amount(packet), 0)
  {
    if Readable(packet) {
      var info := ParsePacketInfo(rules, packet, PacketRecv).value;
      CheckExact(s, PacketRecv, info);
      if Check(s, PacketRecv, info).1 == Ok(true) {
        CheckMoves(s, PacketRecv, info);
      }
    }
  }

  /**
   A packet is sent exactly if its channel is open with a sequence left, its data can be read, and its path has no
   limit, its address pair is whitelisted, or its amount fits the quota for sends. It is then committed under the
   next sequence. Unless it is exempt, the outflow of its path grows by its amount and it is marked; otherwise the
   stores stay as they are, as the whole chain does where it is not sent.
   */
  lemma SendExact(tokens: Tokens, rules: TraceRules, calls: seq<Call>, packet: Packet)
    requires FairRun(calls)
    ensures var c := ChainRun(tokens, rules, calls);
            var c' := Deliver(c, tokens, rules, SendCall(packet));
            var channel := packet.sourceChannel;
            if && channel in c.next && c.next[channel] + 1 < UINT64_MODULUS && Readable(packet)
               && var key := SendKey(rules, packet); (Exempt(c.s, key, packet) || SendFits(c.s, key, Amount(packet)))
            then
              var (key, n) := (SendKey(rules, packet), c.next[channel]);
              && c'.next == c.next[channel := n + 1]
              && c'.commitments == c.commitments[(channel, n) := packet.(sequence := n)]
              && c'.s == if Exempt(c.s, key, packet) then c.s
                         else Moved(c.s, key, 0, Amount(packet)).(pending := c.s.pending + {PendingKey(channel, n)})
            else c' == c
  {
    var c := ChainRun(tokens, rules, calls);
    ChainSound(tokens, rules, calls);
    if CanSend(c, packet) {
      OnSendExact(c.s, rules, Numbered(c, packet));
    }
  }

  /**
   A received packet gets a success acknowledgement exactly if its data can be read, the application accepts it, and
   it is exempt or its amount fits the quota for receives. Unless it is exempt, the inflow of its path then grows by
   its amount; in every other case nothing changes.
   */
  lemma RecvExact(tokens: Tokens, rules: TraceRules, calls: seq<Call>, packet: Packet, appOk: bool)
    requires FairRun(calls)
    ensures var c := ChainRun(tokens, rules, calls);
            var call := RecvCall(packet, appOk);
            && (Effect(c, tokens, rules, call).Some?
                <==> Readable(packet) && appOk
                     && var key := RecvKey(rules, packet);
                        (Exempt(c.s, key, packet) || RecvFits(c.s, key, Amount(packet))))
            && Deliver(c, tokens, rules, call)
               == if Effect(c, tokens, rules, call).Some? && !Exempt(c.s, RecvKey(rules, packet), packet)
                  then c.(s := Moved(c.s, RecvKey(rules, packet), Amount(packet), 0)) else c
  {
    ChainSound(tokens, rules, calls);
    OnRecvExact(ChainRun(tokens, rules, calls).s, rules, packet, appOk);
  }

  ghost predicate Consecutive(c: Chain, w: World) {
    && (forall id :: id in c.next ==> c.next[id] >= 1)
    && (forall id: bytes, n: uint64 :: id in c.next ==> ((id, n) in w.sent <==> 1 <= n < c.next[id]))
  }

  lemma SendKeepsConsecutive(c: Chain, w: World, tokens: Tokens, rules: TraceRules, packet: Packet)
    requires Refines(c, w, rules) && Consecutive(c, w) && Effect(c, tokens, rules, SendCall(packet)).Some?
    ensures var call := SendCall(packet);
            Consecutive(Deliver(c, tokens, rules, call), WorldAfter(c, w, tokens, rules, call))
  {
    var n := c.next[packet.sourceChannel];
    var info := ParsePacketInfo(rules, packet, PacketSend).value;
    assert WorldAfter(c, w, tokens, rules, SendCall(packet)).sent == w.sent[(packet.sourceChannel, n) := info];
  }

  lemma SentStays(c: Chain, w: World, tokens: Tokens, rules: TraceRules, call: Call)
    requires Refines(c, w, rules) && Fair(call) && !call.SendCall?
    ensures WorldAfter(c, w, tokens, rules, call).sent == w.sent
  {
    if call.AdminCall? {
      AdminStores(w, tokens, call.op);
    }
  }

  lemma CallKeepsConsecutive(c: Chain, w: World, tokens: Tokens, rules: TraceRules, call: Call)
    requires Refines(c, w, rules) && Consecutive(c, w) && Fair(call)
    ensures Consecutive(Deliver(c, tokens, rules, call), WorldAfter(c, w, tokens, rules, call))
  {
    if !call.SendCall? {
      SentStays(c, w, tokens, rules, call);
    } else if Effect(c, tokens, rules, call).Some? {
      SendKeepsConsecutive(c, w, tokens, rules, call.packet);
    }
  }

  /** On every chain, the sequences sent over a channel so far are one, two, three and so on, without a gap. */
  lemma {:induction false} SequencesAreConsecutive(tokens: Tokens, rules: TraceRules, calls: seq<Call>)
    requires FairRun(calls)
    ensures Consecutive(ChainRun(tokens, rules, calls), WorldOf(tokens, rules, calls))
    decreases |calls|
  {
    if calls != [] {
      var init := calls[..|calls| - 1];
      SequencesAreConsecutive(tokens, rules, init);
      ChainWorld(tokens, rules, init);
      NextWorld(tokens, rules, calls);
      CallKeepsConsecutive(
        ChainRun(tokens, rules, init), WorldOf(tokens, rules, init), tokens, rules, calls[|calls| - 1]);
    }
  }

  /** The answer says that the packet failed: an error acknowledgement, or a timeout. */
  predicate Fails(call: Call) {
    call.TimeoutCall? || (call.AckCall? && call.ack.AckError?)
  }

  /** The callback of an answer can succeed: the application accepts it, and an acknowledgement says something. */
  predicate Answers(call: Call) {
    && (call.AckCall? || call.TimeoutCall?) && call.appOk
    && (call.AckCall? ==> call.ack.AckError? || (call.ack.AckResult? && call.ack.result != []))
  }

  lemma CommittedIsReadable(tokens: Tokens, rules: TraceRules, calls: seq<Call>, packet: Packet)
    requires FairRun(calls) && Committed(ChainRun(tokens, rules, calls), packet)
    ensures Readable(packet)
  {
    ChainWorld(tokens, rules, calls);
    assert ParsePacketInfo(rules, packet, PacketSend).Ok?;
  }

  lemma UndoExact(s: State, rules: TraceRules, packet: Packet)
    requires WellKeyed(s) && Readable(packet)
    ensures var (key, mark) := (SendKey(rules, packet), PendingKey(packet.sourceChannel, packet.sequence));
            Undo(s, ParsePacketInfo(rules, packet, PacketSend).value, packet.sequence)
            == if key in s.limits && mark in s.pending
               then Moved(s, key, 0, -Amount(packet)).(pending := s.pending - {mark}) else s
  {
  }

  /**
   An answer takes effect exactly if its packet is the one committed, the application accepts it and the
   acknowledgement is neither undecodable nor an empty result; the packet is then no longer awaited. If it failed
   while its limit exists and it is marked, its amount is taken off the outflow and its mark goes; if it failed
   otherwise, the stores stay as they are; if it succeeded, its mark goes and the limits stay as they are.
   */
  lemma AnswerExact(tokens: Tokens, rules: TraceRules, calls: seq<Call>, call: Call)
    requires FairRun(calls) && (call.AckCall? || call.TimeoutCall?)
    ensures Committed(ChainRun(tokens, rules, calls), call.packet) ==> Readable(call.packet)
    ensures var c := ChainRun(tokens, rules, calls);
            var (packet, k) := (call.packet, (call.packet.sourceChannel, call.packet.sequence));
            var mark := PendingKey(k.0, k.1);
            Deliver(c, tokens, rules, call)
            == if !(k in c.commitments && c.commitments[k] == packet && Answers(call)) then c
               else
                 var key := SendKey(rules, packet);
                 Chain(if !Fails(call) then c.s.(pending := c.s.pending - {mark})
                       else if key in c.s.limits && mark in c.s.pending
                       then Moved(c.s, key, 0, -Amount(packet)).(pending := c.s.pending - {mark})
                       else c.s,
                       c.next, c.commitments - {k})
  {
    var c := ChainRun(tokens, rules, calls);
    ChainSound(tokens, rules, calls);
    if Committed(c, call.packet) {
      CommittedIsReadable(tokens, rules, calls, call.packet);
      UndoExact(c.s, rules, call.packet);
    }
  }

  // ---------------------------------------------------------------- messages

  /** The denomination a message means: a parachain token of that very channel stands for its native one. */
  predicate StandsFor(tokens: Tokens, denom: bytes, channelId: bytes, d: bytes) {
    if denom in tokens && tokens[denom].channelId == channelId then d == tokens[denom].ibcDenom else d == denom
  }

  function SupplyOf(bank: Bank, d: bytes): nat {
    if d in bank then bank[d] else 0
  }

  /** The record a message asks for, with nothing counted yet. */
  function Asked(msg: LimitMsg, d: bytes, supply: nat): RateLimit {
    RateLimit(Path(d, msg.channelId), Quota(msg.maxPercentSend, msg.maxPercentRecv, msg.durationHours),
              FlowValue(0, 0, supply), msg.minRateLimitAmount)
  }

  /** What each message of the module leaves in the stores, and when it is refused without effect. */
  function Administered(s: State, op: Op, d: bytes): State
    requires op.AddOp? || op.UpdateOp? || op.RemoveOp? || op.ResetOp? || op.WhitelistOp?
  {
    match op
    case AddOp(bank, msg) =>
      if SupplyOf(bank, d) == 0 || d + msg.channelId in s.limits then s
      else s.(limits := s.limits[d + msg.channelId := Asked(msg, d, SupplyOf(bank, d))])
    case UpdateOp(bank, msg) =>
      if d + msg.channelId !in s.limits then s
      else s.(limits := s.limits[d + msg.channelId := Asked(msg, d, SupplyOf(bank, d))])
    case RemoveOp(_, channel) =>
      s.(limits := map k | k in s.limits && k != d + channel :: s.limits[k])
    case ResetOp(bank, _, channel) =>
      if d + channel !in s.limits then s
      else
        var rl := s.limits[d + channel];
        State(s.limits[d + channel := rl.(flow := FlowValue(0, 0, SupplyOf(bank, d)))],
              (set m | m in s.pending && !(channel <= m)), s.whitelist)
    case WhitelistOp(whitelist) => s.(whitelist := whitelist)
  }

  function DenomOf(op: Op): bytes
    requires op.AddOp? || op.UpdateOp? || op.RemoveOp? || op.ResetOp?
  {
    match op
    case AddOp(_, msg) => msg.denom
    case UpdateOp(_, msg) => msg.denom
    case RemoveOp(denom, _) => denom
    case ResetOp(_, denom, _) => denom
  }

  function ChannelOf(op: Op): bytes
    requires op.AddOp? || op.UpdateOp? || op.RemoveOp? || op.ResetOp?
  {
    match op
    case AddOp(_, msg) => msg.channelId
    case UpdateOp(_, msg) => msg.channelId
    case RemoveOp(_, channel) => channel
    case ResetOp(_, _, channel) => channel
  }

  lemma AddExact(s: State, tokens: Tokens, op: Op, d: bytes)
    requires op.AddOp? && StandsFor(tokens, DenomOf(op), ChannelOf(op), d)
    ensures Add(s, tokens, op.bank, op.msg).0 == Administered(s, op, d)
    ensures Add(s, tokens, op.bank, op.msg).1.Err? ==> Administered(s, op, d) == s
  {
  }

  lemma UpdateExact(s: State, tokens: Tokens, op: Op, d: bytes)
    requires op.UpdateOp? && StandsFor(tokens, DenomOf(op), ChannelOf(op), d)
    ensures Update(s, tokens, op.bank, op.msg).0 == Administered(s, op, d)
    ensures Update(s, tokens, op.bank, op.msg).1.Err? ==> Administered(s, op, d) == s
  {
  }

  lemma RemoveExact(s: State, tokens: Tokens, op: Op, d: bytes)
    requires op.RemoveOp? && StandsFor(tokens, DenomOf(op), ChannelOf(op), d)
    ensures Remove(s, tokens, op.denom, op.channelId).0 == Administered(s, op, d)
  {
    assert Remove(s, tokens, op.denom, op.channelId).0.limits == Administered(s, op, d).limits;
  }

  lemma ResetExact(s: State, tokens: Tokens, op: Op, d: bytes)
    requires WellKeyed(s) && op.ResetOp? && StandsFor(tokens, DenomOf(op), ChannelOf(op), d)
    ensures Reset(s, tokens, op.bank, op.denom, op.channelId).0 == Administered(s, op, d)
    ensures Reset(s, tokens, op.bank, op.denom, op.channelId).1.Err? ==> Administered(s, op, d) == s
    ensures Reset(s, tokens, op.bank, op.denom, op.channelId).1.Ok? ==> d + op.channelId in s.limits
  {
  }

  /**
   What a message does to the chain, field by field: an add or an update stores the percentages, the minimum and the
   duration it carries, each in its place, a removal drops exactly its limit, and a reset zeroes its flow.
   */
  lemma AdminExact(tokens: Tokens, rules: TraceRules, calls: seq<Call>, op: Op, d: bytes)
    requires FairRun(calls) && AdminOk(op)
    requires !op.WhitelistOp? ==> StandsFor(tokens, DenomOf(op), ChannelOf(op), d)
    ensures var c := ChainRun(tokens, rules, calls);
            Deliver(c, tokens, rules, AdminCall(op)) == c.(s := Administered(c.s, op, d))
  {
    var s := ChainRun(tokens, rules, calls).s;
    ChainSound(tokens, rules, calls);
    match op
    case AddOp(_, _) => AddExact(s, tokens, op, d);
    case UpdateOp(_, _) => UpdateExact(s, tokens, op, d);
    case RemoveOp(_, _) => RemoveExact(s, tokens, op, d);
    case ResetOp(_, _, _) => ResetExact(s, tokens, op, d);
    case WhitelistOp(_) =>
  }

  /** An add that finds no limit, or an update that finds one, and in both cases some supply. */
  predicate StoresLimit(s: State, op: Op, d: bytes) {
    && (op.AddOp? || op.UpdateOp?) && SupplyOf(op.bank, d) != 0
    && (op.AddOp? <==> d + op.msg.channelId !in s.limits)
  }

  lemma AskedLimitChecks(
    s: State, rules: TraceRules, packet: Packet, msg: LimitMsg, d: bytes, supply: nat, number: nat)
    requires WellKeyed(s) && SoundLimits(s) && Readable(packet) && supply != 0
    requires d + msg.channelId in s.limits && s.limits[d + msg.channelId] == Asked(msg, d, supply)
    requires packet.data.value.sender + packet.data.value.receiver !in s.whitelist
    ensures var (key, a) := (d + msg.channelId, Amount(packet));
            && (SendKey(rules, packet) == key ==>
                  (OnSend(s, rules, packet).None?
                   <==> a > msg.minRateLimitAmount && 100 * a > supply * msg.maxPercentSend))
            && (RecvKey(rules, packet) == key ==>
                  (OnRecv(s, rules, packet, true).None?
                   <==> a > msg.minRateLimitAmount && 100 * a > supply * msg.maxPercentRecv))
            && msg.durationHours != 0 && (key in DueKeys(s, number) <==> number % msg.durationHours == 0)
  {
    OnSendExact(s, rules, packet);
    OnRecvExact(s, rules, packet, true);
  }

  /** Percentages from zero to a hundred and not both zero, a positive minimum and a positive duration. */
  predicate InBounds(msg: LimitMsg) {
    && 0 <= msg.maxPercentSend <= 100 && 0 <= msg.maxPercentRecv <= 100
    && msg.maxPercentSend + msg.maxPercentRecv > 0 && msg.minRateLimitAmount > 0 && msg.durationHours > 0
  }

  /**
   Every message within its bounds is taken. Right after an add or an update, a send of the path that is not exempt is
   refused exactly if its amount is past the minimum of the message and past the message's percentage for sends of the
   supply, a receive exactly if it is past the minimum and the percentage for receives; and the epochs that reset the
   limit are those whose number the message's duration divides.
   */
  lemma StoredLimitIsAsked(
    tokens: Tokens, rules: TraceRules, calls: seq<Call>, op: Op, d: bytes, packet: Packet, number: nat)
    requires FairRun(calls) && (op.AddOp? || op.UpdateOp?) && InBounds(op.msg) && ChannelId(op.msg.channelId)
    requires StandsFor(tokens, op.msg.denom, op.msg.channelId, d)
    requires StoresLimit(ChainRun(tokens, rules, calls).s, op, d) && Readable(packet)
    requires packet.data.value.sender + packet.data.value.receiver !in ChainRun(tokens, rules, calls).s.whitelist
    ensures var c := Deliver(ChainRun(tokens, rules, calls), tokens, rules, AdminCall(op));
            var (key, msg, a, supply) := (d + op.msg.channelId, op.msg, Amount(packet), SupplyOf(op.bank, d));
            && (SendKey(rules, packet) == key && CanSend(c, packet) ==>
                  (Effect(c, tokens, rules, SendCall(packet)).None?
                   <==> a > msg.minRateLimitAmount && 100 * a > supply * msg.maxPercentSend))
            && (RecvKey(rules, packet) == key ==>
                  (Effect(c, tokens, rules, RecvCall(packet, true)).None?
                   <==> a > msg.minRateLimitAmount && 100 * a > supply * msg.maxPercentRecv))
            && msg.durationHours != 0 && WellKeyed(c.s)
            && (key in DueKeys(c.s, number) <==> number % msg.durationHours == 0)
  {
    var c := Deliver(ChainRun(tokens, rules, calls), tokens, rules, AdminCall(op));
    AdminExact(tokens, rules, calls, op, d);
    assert (calls + [AdminCall(op)])[..|calls|] == calls;
    ChainSound(tokens, rules, calls + [AdminCall(op)]);
    var supply := SupplyOf(op.bank, d);
    AskedLimitChecks(c.s, rules, packet, op.msg, d, supply, number);
    if CanSend(c, packet) {
      AskedLimitChecks(c.s, rules, Numbered(c, packet), op.msg, d, supply, number);
    }
  }
}
