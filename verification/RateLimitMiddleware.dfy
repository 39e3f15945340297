/**
 The rate-limited transfer stack between the channel keeper and the transfer application
 (x/ratelimit/ibc_middleware.go and SendPacket in x/ratelimit/keeper/packet.go).

 Of the channel keeper only its part of the protocol is stated: it numbers the packets of a channel, keeps a
 commitment for each until it is acknowledged or timed out, and drops everything a failed callback wrote. Of the
 transfer application only the outcome of each callback is given.
 */
module RateLimitMiddleware {
  import opened Wrappers
  import opened Bytes
  import opened Denoms
  import opened RateLimitTypes
  import opened RateLimitSpec
  import opened RateLimitHistory
  import opened RateLimitRuns
  import opened RateLimitKeeper

  // ---------------------------------------------------------------- the callbacks

  /** The stores after a send; None if it is denied. */
  function OnSend(s: State, rules: TraceRules, packet: Packet): Option<State> {
    match ParsePacketInfo(rules, packet, PacketSend)
    case Err(_) => None
    case Ok(info) =>
      var (s', r) := Send(s, info, packet.sequence);
      if r.Err? then None else Some(s')
  }

  /** The stores after a receive; None if the acknowledgement is an error. */
  function OnRecv(s: State, rules: TraceRules, packet: Packet, appOk: bool): Option<State> {
    match ParsePacketInfo(rules, packet, PacketRecv)
    case Err(_) => None
    case Ok(info) =>
      var (s', r) := Check(s, PacketRecv, info);
      if r.Err? || !appOk then None else Some(s')
  }

  /** The stores after an acknowledgement; None if the callback fails. */
  function OnAck(s: State, rules: TraceRules, packet: Packet, ack: Acknowledgement, appOk: bool): Option<State> {
    match ParsePacketInfo(rules, packet, PacketSend)
    case Err(_) => None
    case Ok(info) =>
      if ack.Malformed? || ack == AckResult([]) || !appOk then None
      else Some(if ack.AckError? then Undo(s, info, packet.sequence) else Settle(s, info, packet.sequence))
  }

  /** The stores after a timeout; None if the callback fails. */
  function OnTimeout(s: State, rules: TraceRules, packet: Packet, appOk: bool): Option<State> {
    match ParsePacketInfo(rules, packet, PacketSend)
    case Err(_) => None
    case Ok(info) => if !appOk then None else Some(Undo(s, info, packet.sequence))
  }

  class IBCMiddleware {
    const keeper: Keeper

    constructor (keeper: Keeper)
      ensures this.keeper == keeper
    {
      this.keeper := keeper;
    }

    /** The sequence comes from the channel keeper, or nothing if it refuses the packet. */
    method SendPacket(packet: Packet, sequence: Option<uint64>) returns (r: Option<uint64>)
      modifies keeper
      ensures var sent := if sequence.None? then None
                          else OnSend(old(keeper.Abs()), keeper.rules, packet.(sequence := sequence.value));
              && r == (if sent.None? then None else sequence)
              && (sent.Some? ==> keeper.Abs() == sent.value)
    {
      if sequence.None? {
        return None;
      }
      var limited := keeper.SendRateLimitedPacket(packet.(sequence := sequence.value));
      if limited.Err? {
        return None;
      }
      return sequence;
    }

    method OnRecvPacket(packet: Packet, appOk: bool) returns (ok: bool)
      modifies keeper
      ensures ok <==> OnRecv(old(keeper.Abs()), keeper.rules, packet, appOk).Some?
      ensures ok ==> keeper.Abs() == OnRecv(old(keeper.Abs()), keeper.rules, packet, appOk).value
    {
      var limited := keeper.ReceiveRateLimitedPacket(packet);
      if limited.Err? {
        return false;
      }
      return appOk;
    }

    method OnAcknowledgementPacket(packet: Packet, ack: Acknowledgement, appOk: bool) returns (ok: bool)
      modifies keeper
      ensures ok <==> OnAck(old(keeper.Abs()), keeper.rules, packet, ack, appOk).Some?
      ensures ok ==> keeper.Abs() == OnAck(old(keeper.Abs()), keeper.rules, packet, ack, appOk).value
    {
      var r := keeper.AcknowledgeRateLimitedPacket(packet, ack);
      if r.Err? {
        return false;
      }
      return appOk;
    }

    method OnTimeoutPacket(packet: Packet, appOk: bool) returns (ok: bool)
      modifies keeper
      ensures ok <==> OnTimeout(old(keeper.Abs()), keeper.rules, packet, appOk).Some?
      ensures ok ==> keeper.Abs() == OnTimeout(old(keeper.Abs()), keeper.rules, packet, appOk).value
    {
      var r := keeper.TimeoutRateLimitedPacket(packet);
      if r.Err? {
        return false;
      }
      return appOk;
    }
  }

  // ---------------------------------------------------------------- the chain

  /** The stores, the next sequence of every open channel, and the commitments of packets not yet answered. */
  datatype Chain = Chain(s: State, next: map<bytes, uint64>, commitments: map<(bytes, uint64), Packet>)

  datatype Call =
    | OpenCall(channelId: bytes)
    | SendCall(packet: Packet)
    | RecvCall(packet: Packet, appOk: bool)
    | AckCall(packet: Packet, ack: Acknowledgement, appOk: bool)
    | TimeoutCall(packet: Packet, appOk: bool)
    | AdminCall(op: Op)  // a message of the module, or a reset at the end of an epoch

  const NEW_CHAIN: Chain := Chain(EMPTY.s, map[], map[])

  function Numbered(c: Chain, packet: Packet): Packet
    requires packet.sourceChannel in c.next
  {
    packet.(sequence := c.next[packet.sourceChannel])
  }

  function CommitmentKey(packet: Packet): (bytes, uint64) {
    (packet.sourceChannel, packet.sequence)
  }

  predicate Committed(c: Chain, packet: Packet) {
    CommitmentKey(packet) in c.commitments && c.commitments[CommitmentKey(packet)] == packet
  }

  predicate CanSend(c: Chain, packet: Packet) {
    packet.sourceChannel in c.next && c.next[packet.sourceChannel] < UINT64_MODULUS - 1
  }

  /** The stores after a call that takes effect; None if it does not, and everything it wrote is dropped. */
  function Effect(c: Chain, tokens: Tokens, rules: TraceRules, call: Call): Option<State> {
    match call
    case OpenCall(id) => if id in c.next then None else Some(c.s)
    case SendCall(packet) => if !CanSend(c, packet) then None else OnSend(c.s, rules, Numbered(c, packet))
    case RecvCall(packet, appOk) => OnRecv(c.s, rules, packet, appOk)
    case AckCall(packet, ack, appOk) => if !Committed(c, packet) then None else OnAck(c.s, rules, packet, ack, appOk)
    case TimeoutCall(packet, appOk) => if !Committed(c, packet) then None else OnTimeout(c.s, rules, packet, appOk)
    case AdminCall(op) => Some(Step(World(c.s, map[], []), tokens, op).s)
  }

  function Deliver(c: Chain, tokens: Tokens, rules: TraceRules, call: Call): Chain {
    match Effect(c, tokens, rules, call)
    case None => c
    case Some(s) =>
      match call
      case OpenCall(id) => c.(next := c.next[id := 1])
      case SendCall(packet) =>
        if !CanSend(c, packet) then c
        else
          var channel := packet.sourceChannel;
          Chain(s, c.next[channel := c.next[channel] + 1],
                c.commitments[(channel, c.next[channel]) := Numbered(c, packet)])
      case AckCall(packet, _, _) => Chain(s, c.next, c.commitments - {CommitmentKey(packet)})
      case TimeoutCall(packet, _) => Chain(s, c.next, c.commitments - {CommitmentKey(packet)})
      case _ => c.(s := s)
  }

  function ChainRun(tokens: Tokens, rules: TraceRules, calls: seq<Call>): Chain
    decreases |calls|
  {
    if calls == [] then NEW_CHAIN
    else Deliver(ChainRun(tokens, rules, calls[..|calls| - 1]), tokens, rules, calls[|calls| - 1])
  }

  // ---------------------------------------------------------------- what is asked of the environment

  predicate NonnegativeAmount(packet: Packet) {
    packet.data.Some? && packet.data.value.amount.Some? ==> packet.data.value.amount.value >= 0
  }

  predicate AdminOk(op: Op) {
    match op
    case AddOp(_, msg) => msg.ValidateBasic() && ChannelId(msg.channelId)
    case UpdateOp(_, msg) => msg.ValidateBasic() && ChannelId(msg.channelId)
    case ResetOp(_, _, channel) => ChannelId(channel)
    case RemoveOp(_, _) => true
    case WhitelistOp(_) => true
    case _ => false
  }

  /** Channels have well-formed names, and the transfer application neither sends nor accepts a negative amount. */
  predicate Fair(call: Call) {
    match call
    case OpenCall(id) => ChannelId(id)
    case SendCall(packet) => NonnegativeAmount(packet)
    case RecvCall(packet, appOk) => appOk ==> NonnegativeAmount(packet)
    case AdminCall(op) => AdminOk(op)
    case _ => true
  }

  predicate FairRun(calls: seq<Call>) {
    forall i :: 0 <= i < |calls| ==> Fair(calls[i])
  }

  // ---------------------------------------------------------------- a chain run is a legal run

  /** What a call that takes effect is, as a step of the rate limiter; opening a channel is none. */
  function OpOf(c: Chain, rules: TraceRules, call: Call): Option<Op> {
    match call
    case OpenCall(_) => None
    case SendCall(packet) =>
      if !CanSend(c, packet) then None
      else
        (match ParsePacketInfo(rules, packet, PacketSend)
         case Err(_) => None
         case Ok(info) => Some(SendOp(info, c.next[packet.sourceChannel])))
    case RecvCall(packet, _) =>
      (match ParsePacketInfo(rules, packet, PacketRecv)
       case Err(_) => None
       case Ok(info) => Some(RecvOp(info)))
    case AckCall(packet, ack, _) =>
      (match ParsePacketInfo(rules, packet, PacketSend)
       case Err(_) => None
       case Ok(info) => Some(if ack.AckError? then FailOp(info, packet.sequence) else AckOp(info, packet.sequence)))
    case TimeoutCall(packet, _) =>
      (match ParsePacketInfo(rules, packet, PacketSend)
       case Err(_) => None
       case Ok(info) => Some(FailOp(info, packet.sequence)))
    case AdminCall(op) => Some(op)
  }

  ghost predicate NumbersOk(c: Chain, w: World) {
    && (forall id :: id in c.next ==> ChannelId(id))
    && (forall k :: k in w.sent ==> k.0 in c.next && k.1 < c.next[k.0])
  }

  ghost predicate CommitmentsOk(c: Chain, w: World, rules: TraceRules) {
    forall k :: k in c.commitments ==>
      && k in w.sent && CommitmentKey(c.commitments[k]) == k
      && ParsePacketInfo(rules, c.commitments[k], PacketSend) == Ok(w.sent[k])
  }

  ghost predicate Refines(c: Chain, w: World, rules: TraceRules) {
    c.s == w.s && NumbersOk(c, w) && CommitmentsOk(c, w, rules)
  }

  /** The call is a step of the rate limiter that the environment allows, and the chain follows it. */
  ghost predicate Follows(c: Chain, w: World, tokens: Tokens, rules: TraceRules, call: Call) {
    var op := OpOf(c, rules, call);
    && op.Some? && Basic(op.value) && Linked(w, op.value)
    && Refines(Deliver(c, tokens, rules, call), Step(w, tokens, op.value), rules)
  }

  lemma SentRefines(c: Chain, w: World, rules: TraceRules, packet: Packet, info: PacketInfo, c': Chain, w': World)
    requires Refines(c, w, rules) && packet.sourceChannel in c.next && packet.sequence == c.next[packet.sourceChannel]
    requires packet.sequence < UINT64_MODULUS - 1
    requires ParsePacketInfo(rules, packet, PacketSend) == Ok(info)
    requires c' == Chain(w'.s, c.next[packet.sourceChannel := packet.sequence + 1],
                         c.commitments[CommitmentKey(packet) := packet])
    requires w'.sent == w.sent[CommitmentKey(packet) := info]
    ensures Refines(c', w', rules)
  {
  }

  lemma SendRefines(c: Chain, w: World, tokens: Tokens, rules: TraceRules, packet: Packet)
    requires Refines(c, w, rules)
    requires NonnegativeAmount(packet) && Effect(c, tokens, rules, SendCall(packet)).Some?
    ensures Follows(c, w, tokens, rules, SendCall(packet))
  {
    var p, info := Numbered(c, packet), ParsePacketInfo(rules, packet, PacketSend).value;
    assert ParsePacketInfo(rules, p, PacketSend) == Ok(info);
    SentRefines(c, w, rules, p, info, Deliver(c, tokens, rules, SendCall(packet)),
                Step(w, tokens, SendOp(info, p.sequence)));
  }

  lemma RecvRefines(c: Chain, w: World, tokens: Tokens, rules: TraceRules, call: Call)
    requires Refines(c, w, rules) && call.RecvCall?
    requires Fair(call) && Effect(c, tokens, rules, call).Some?
    ensures Follows(c, w, tokens, rules, call)
  {
  }

  /** After an answer the mark of its packet is gone, unless a failed one found no limit to take its amount off. */
  lemma AnswerUnmarks(w: World, tokens: Tokens, op: Op)
    requires op.AckOp? || op.FailOp?
    ensures var mark := PendingKey(op.info.channelId, op.sequence);
            mark !in Step(w, tokens, op).s.pending
            <==> mark !in w.s.pending || op.AckOp? || PathKey(op.info) in w.s.limits
  {
  }

  lemma AnsweredRefines(c: Chain, w: World, rules: TraceRules, k: (bytes, uint64), c': Chain, w': World)
    requires Refines(c, w, rules) && k in c.commitments
    requires c' == Chain(w'.s, c.next, c.commitments - {k}) && w'.sent == w.sent
    ensures Refines(c', w', rules)
  {
  }

  lemma AnswerRefines(c: Chain, w: World, tokens: Tokens, rules: TraceRules, call: Call)
    requires Refines(c, w, rules) && Inv(w) && (call.AckCall? || call.TimeoutCall?)
    requires Effect(c, tokens, rules, call).Some?
    ensures Follows(c, w, tokens, rules, call)
  {
    var op := OpOf(c, rules, call).value;
    assert Committed(c, call.packet) && Linked(w, op);
    AnsweredRefines(c, w, rules, CommitmentKey(call.packet), Deliver(c, tokens, rules, call), Step(w, tokens, op));
  }

  lemma {:induction false} AdminStores(w: World, tokens: Tokens, op: Op)
    requires op.AddOp? || op.UpdateOp? || op.RemoveOp? || op.ResetOp? || op.WhitelistOp?
    ensures Step(w, tokens, op).s == Step(World(w.s, map[], []), tokens, op).s
    ensures Step(w, tokens, op).sent == w.sent && Step(w, tokens, op).s.pending <= w.s.pending
  {
  }

  lemma AdminRefines(c: Chain, w: World, tokens: Tokens, rules: TraceRules, op: Op)
    requires Refines(c, w, rules) && AdminOk(op)
    ensures Follows(c, w, tokens, rules, AdminCall(op))
  {
    AdminStores(w, tokens, op);
  }

  /** Every call that takes effect is a step the environment allows, or opens a channel; any other changes nothing. */
  lemma DeliverRefines(c: Chain, w: World, tokens: Tokens, rules: TraceRules, call: Call)
    requires Refines(c, w, rules) && Inv(w) && Fair(call)
    ensures Effect(c, tokens, rules, call).None? ==> Deliver(c, tokens, rules, call) == c
    ensures Effect(c, tokens, rules, call).Some? && !call.OpenCall? ==> Follows(c, w, tokens, rules, call)
    ensures call.OpenCall? ==> Refines(Deliver(c, tokens, rules, call), w, rules)
  {
    if Effect(c, tokens, rules, call).Some? {
      match call
      case OpenCall(_) =>
      case SendCall(packet) => SendRefines(c, w, tokens, rules, packet);
      case RecvCall(_, _) => RecvRefines(c, w, tokens, rules, call);
      case AckCall(_, _, _) => AnswerRefines(c, w, tokens, rules, call);
      case TimeoutCall(_, _) => AnswerRefines(c, w, tokens, rules, call);
      case AdminCall(op) => AdminRefines(c, w, tokens, rules, op);
    }
  }

  lemma RunExtends(tokens: Tokens, ops: seq<Op>, op: Op)
    requires Legal(tokens, ops)
    requires Basic(op) && Linked(Run(tokens, ops), op)
    ensures Legal(tokens, ops + [op]) && Run(tokens, ops + [op]) == Step(Run(tokens, ops), tokens, op)
  {
    assert (ops + [op])[..|ops|] == ops;
  }

  /** The steps of the rate limiter a call amounts to: one if it takes effect on the stores, none otherwise. */
  function OpsOf(c: Chain, tokens: Tokens, rules: TraceRules, call: Call): seq<Op> {
    if Effect(c, tokens, rules, call).None? then []
    else
      match OpOf(c, rules, call)
      case None => []
      case Some(op) => [op]
  }

  function ChainOps(tokens: Tokens, rules: TraceRules, calls: seq<Call>): (ops: seq<Op>)
    ensures |ops| <= |calls|
    decreases |calls|
  {
    if calls == [] then []
    else
      var init := calls[..|calls| - 1];
      ChainOps(tokens, rules, init) + OpsOf(ChainRun(tokens, rules, init), tokens, rules, calls[|calls| - 1])
  }

  lemma OneMoreCall(c: Chain, tokens: Tokens, rules: TraceRules, ops: seq<Op>, call: Call)
    requires Legal(tokens, ops) && Refines(c, Run(tokens, ops), rules) && Fair(call)
    ensures var ops' := ops + OpsOf(c, tokens, rules, call);
            Legal(tokens, ops') && Refines(Deliver(c, tokens, rules, call), Run(tokens, ops'), rules)
  {
    RunKeepsInv(tokens, ops);
    DeliverRefines(c, Run(tokens, ops), tokens, rules, call);
    if Effect(c, tokens, rules, call).Some? && !call.OpenCall? {
      RunExtends(tokens, ops, OpOf(c, rules, call).value);
    } else {
      assert ops + OpsOf(c, tokens, rules, call) == ops;
    }
  }

  /**
   Whatever calls reach the chain, with whatever packets, acknowledgements and outcomes: its stores are those of
   a legal run of the rate limiter, in which every commitment is a packet that was sent.
   */
  lemma {:induction false} ChainIsALegalRun(tokens: Tokens, rules: TraceRules, calls: seq<Call>)
    requires FairRun(calls)
    ensures Legal(tokens, ChainOps(tokens, rules, calls))
    ensures Refines(ChainRun(tokens, rules, calls), Run(tokens, ChainOps(tokens, rules, calls)), rules)
    decreases |calls|
  {
    if calls != [] {
      var init := calls[..|calls| - 1];
      ChainIsALegalRun(tokens, rules, init);
      OneMoreCall(ChainRun(tokens, rules, init), tokens, rules, ChainOps(tokens, rules, init), calls[|calls| - 1]);
    }
  }
}
