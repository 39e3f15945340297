/** Fees over whole runs: transfers, timeouts, acknowledgements and configuration changes in any order. */
module FeeRuns {
  import opened Wrappers
  import opened Bytes
  import opened FeeTypes
  import opened FeeSplit
  import opened FeeFlow

  datatype Op =
    | TransferOp(msg: Msg, ctx: Context)
    | TimeoutOp(packet: Packet, decodes: bytes -> bool, native: Option<bytes>)
    | AckOp(packet: Packet, success: bool, decodes: bytes -> bool, native: Option<bytes>)
    | ConfigOp(config: seq<ChannelFee>)

  /** A fee taken with a packet and where it went, a fee given back with one and who paid it, a new configuration. */
  datatype Event =
    | Charged(packet: Packet, coin: Coin, collector: bytes)
    | GaveBack(packet: Packet, coin: Coin, payer: bytes)
    | Configured(config: seq<ChannelFee>)

  type Log = seq<Event>

  type PacketId = (bytes, uint64)

  /** The state, the packets under way, all packets ever sent, and the history of fees. */
  datatype World = World(s: State, live: map<PacketId, Packet>, sent: set<PacketId>, log: Log)

  function Id(p: Packet): PacketId {
    (p.channel, p.sequence)
  }

  function ChargedCoin(s: State, op: Op): Coin
    requires op.TransferOp? && Charge(s, op.msg, op.ctx).Some?
  {
    Coin(op.msg.token.denom, Charge(s, op.msg, op.ctx).value.charge)
  }

  function Step(w: World, op: Op): World {
    match op
    case TransferOp(msg, ctx) =>
      var (s, outcome) := TransferStep(w.s, msg, ctx);
      (match outcome
       case Refused => w
       case AllCharged => w.(s := s)
       case Sent(p) =>
         var coin := ChargedCoin(w.s, op);
         World(s, w.live[Id(p) := p], w.sent + {Id(p)},
               if coin.amount == 0 then w.log else w.log + [Charged(p, coin, FeeAddressOf(w.s, p.channel))]))
    case TimeoutOp(p, decodes, native) =>
      var (s, r) := Timeout(w.s, p, decodes, native);
      (match r
       case Failed => w
       case NoRefund => w.(s := s, live := w.live - {Id(p)})
       case Refunded(coin) =>
         World(s, w.live - {Id(p)}, w.sent, w.log + [GaveBack(p, coin, FeeAddressOf(w.s, p.channel))]))
    case AckOp(p, success, decodes, native) =>
      var (s, ok) := Acknowledge(w.s, p, success, decodes, native);
      if ok then w.(s := s, live := w.live - {Id(p)}) else w
    case ConfigOp(config) =>
      w.(s := w.s.(config := config), log := w.log + [Configured(config)])
  }

  function Run(start: State, ops: seq<Op>): World
    decreases |ops|
  {
    if ops == [] then World(start, map[], {}, [])
    else Step(Run(start, ops[..|ops| - 1]), ops[|ops| - 1])
  }

  predicate Sends(w: World, op: Op) {
    op.TransferOp? && TransferStep(w.s, op.msg, op.ctx).1.Sent?
  }

  /** A channel never uses a sequence twice, and only packets under way come back. */
  predicate Enabled(w: World, op: Op) {
    match op
    case TransferOp(msg, ctx) => Sends(w, op) ==> (msg.sourceChannel, ctx.sequence) !in w.sent
    case TimeoutOp(p, _, _) => Id(p) in w.live && w.live[Id(p)] == p
    case AckOp(p, _, _, _) => Id(p) in w.live && w.live[Id(p)] == p
    case ConfigOp(_) => true
  }

  predicate Legal(start: State, ops: seq<Op>)
    decreases |ops|
  {
    ops == [] || (Legal(start, ops[..|ops| - 1]) && Enabled(Run(start, ops[..|ops| - 1]), ops[|ops| - 1]))
  }

  // ---------------------------------------------------------------- whose fee a record is

  /** Event i took this fee with this packet, and nothing was given back with the packet since. */
  predicate Outstanding(log: Log, i: int, p: Packet, coin: Coin, until: int) {
    && 0 <= i < until <= |log| && log[i].Charged? && log[i].packet == p && log[i].coin == coin
    && forall m :: i < m < until ==> !(log[m].GaveBack? && log[m].packet == p)
  }

  ghost predicate HasCharge(log: Log, p: Packet, coin: Coin) {
    exists i :: Outstanding(log, i, p, coin, |log|)
  }

  /** The record a packet under way would be refunded from, if there is one, is the fee taken with that packet. */
  ghost predicate Own(w: World) {
    forall id :: id in w.live && id.1 in w.s.records ==> HasCharge(w.log, w.live[id], w.s.records[id.1])
  }

  /** Packets under way are kept under their own ids, and everything in the history was sent. */
  ghost predicate LiveOk(w: World) {
    && (forall id :: id in w.live ==> Id(w.live[id]) == id && id in w.sent)
    && (forall i :: 0 <= i < |w.log| && !w.log[i].Configured? ==> Id(w.log[i].packet) in w.sent)
    && (forall i :: 0 <= i < |w.log| && w.log[i].GaveBack? ==> Id(w.log[i].packet) !in w.live)
    && (forall i, j :: 0 <= i < j < |w.log| && w.log[i].GaveBack? && w.log[j].GaveBack? ==>
          Id(w.log[i].packet) != Id(w.log[j].packet))
  }

  /**
   What a transfer must respect: one without a charge finds no record under its sequence, and one with a charge
   shares its sequence only with packets that still have a charge of the same coin to their name.
   */
  ghost predicate Respects(w: World, op: Op) {
    Sends(w, op) ==>
      var n, coin := op.ctx.sequence, ChargedCoin(w.s, op);
      if coin.amount == 0 then n !in w.s.records
      else forall id :: id in w.live && id.1 == n ==> HasCharge(w.log, w.live[id], coin)
  }

  lemma ChargeExtends(log: Log, e: Event, p: Packet, coin: Coin)
    requires e.GaveBack? ==> e.packet != p
    requires e.Charged? ==> e.packet != p
    ensures HasCharge(log + [e], p, coin) <==> HasCharge(log, p, coin)
  {
    var l := log + [e];
    if i :| Outstanding(log, i, p, coin, |log|) {
      assert Outstanding(l, i, p, coin, |l|);
    }
    if i :| Outstanding(l, i, p, coin, |l|) {
      assert l[i] == log[i] && forall m :: i < m < |log| ==> l[m] == log[m];
      assert Outstanding(log, i, p, coin, |log|);
    }
  }

  /** The shape of a step that sends a packet. */
  lemma SentShape(w: World, op: Op)
    requires Sends(w, op)
    ensures var w', p := Step(w, op), TransferStep(w.s, op.msg, op.ctx).1.packet;
            var coin := ChargedCoin(w.s, op);
            && Id(p) == (op.msg.sourceChannel, op.ctx.sequence)
            && w'.live == w.live[Id(p) := p] && w'.sent == w.sent + {Id(p)}
            && w'.s.records == (if coin.amount == 0 then w.s.records else w.s.records[p.sequence := coin])
            && w'.log == (if coin.amount == 0 then w.log
                          else w.log + [Charged(p, coin, FeeAddressOf(w.s, p.channel))])
  {
  }

  lemma UnchargedKeepsOwn(w: World, w': World, p: Packet)
    requires LiveOk(w) && Own(w) && Id(p) !in w.sent
    requires w'.live == w.live[Id(p) := p] && w'.s.records == w.s.records && w'.log == w.log
    ensures Own(w') <==> p.sequence !in w.s.records
  {
    if p.sequence in w.s.records {
      assert Id(p) in w'.live && !HasCharge(w.log, p, w.s.records[p.sequence]);
    }
  }

  lemma ChargedKeepsOwn(w: World, w': World, p: Packet, coin: Coin, e: Event)
    requires LiveOk(w) && Own(w) && Id(p) !in w.sent && e.Charged? && e.packet == p && e.coin == coin
    requires w'.live == w.live[Id(p) := p] && w'.s.records == w.s.records[p.sequence := coin]
    requires w'.log == w.log + [e]
    ensures Own(w') <==> forall id :: id in w.live && id.1 == p.sequence ==> HasCharge(w.log, w.live[id], coin)
  {
    assert Outstanding(w'.log, |w.log|, p, coin, |w'.log|);
    forall id | id in w.live
      ensures id.1 in w'.s.records ==>
                (HasCharge(w'.log, w'.live[id], w'.s.records[id.1]) <==>
                 HasCharge(w.log, w.live[id], w'.s.records[id.1]))
    {
      if id.1 in w'.s.records {
        ChargeExtends(w.log, e, w.live[id], w'.s.records[id.1]);
      }
    }
    if Own(w') {
      forall id | id in w.live && id.1 == p.sequence ensures HasCharge(w.log, w.live[id], coin) {
        assert id in w'.live;
      }
    }
  }

  /** After a transfer that sends a packet, records are still everyone's own exactly if the transfer respects them. */
  lemma TransferKeepsOwn(w: World, op: Op)
    requires LiveOk(w) && Own(w) && Enabled(w, op) && Sends(w, op)
    ensures Own(Step(w, op)) <==> Respects(w, op)
  {
    SentShape(w, op);
    var p, coin := TransferStep(w.s, op.msg, op.ctx).1.packet, ChargedCoin(w.s, op);
    if coin.amount == 0 {
      UnchargedKeepsOwn(w, Step(w, op), p);
    } else {
      ChargedKeepsOwn(w, Step(w, op), p, coin, Charged(p, coin, FeeAddressOf(w.s, p.channel)));
    }
  }

  /** A packet leaves, with or without its record, and with or without a refund. */
  lemma EndKeepsOwn(w: World, w': World, p: Packet)
    requires LiveOk(w) && Own(w) && w'.live == w.live - {Id(p)}
    requires w'.s.records == w.s.records || w'.s.records == w.s.records - {p.sequence}
    requires w'.log == w.log || (exists e: Event :: e.GaveBack? && e.packet == p && w'.log == w.log + [e])
    ensures Own(w')
  {
    forall id | id in w'.live && id.1 in w'.s.records
      ensures HasCharge(w'.log, w'.live[id], w'.s.records[id.1])
    {
      if w'.log != w.log {
        var e: Event :| e.GaveBack? && e.packet == p && w'.log == w.log + [e];
        ChargeExtends(w.log, e, w.live[id], w.s.records[id.1]);
      }
    }
  }

  lemma TimeoutShape(w: World, op: Op)
    requires op.TimeoutOp?
    ensures var w', r := Step(w, op), Timeout(w.s, op.packet, op.decodes, op.native).1;
            && (r.Failed? ==> w' == w)
            && (r.NoRefund? ==> w'.live == w.live - {Id(op.packet)} && w'.s.records == w.s.records && w'.log == w.log)
            && (r.Refunded? ==>
                  && op.packet.sequence in w.s.records && r.coin == w.s.records[op.packet.sequence]
                  && w'.live == w.live - {Id(op.packet)} && w'.s.records == w.s.records - {op.packet.sequence}
                  && w'.log == w.log + [GaveBack(op.packet, r.coin, FeeAddressOf(w.s, op.packet.channel))])
            && w'.sent == w.sent
  {
  }

  /** No other step makes a record someone else's. */
  lemma OthersKeepOwn(w: World, op: Op)
    requires LiveOk(w) && Own(w) && Enabled(w, op) && !Sends(w, op)
    ensures Own(Step(w, op))
  {
    match op
    case TransferOp(_, _) =>
    case TimeoutOp(p, _, _) =>
      TimeoutShape(w, op);
      if Step(w, op) != w {
        EndKeepsOwn(w, Step(w, op), p);
      }
    case AckOp(p, _, _, _) =>
      if Step(w, op) != w {
        EndKeepsOwn(w, Step(w, op), p);
      }
    case ConfigOp(config) =>
      forall id | id in w.live && id.1 in w.s.records
        ensures HasCharge(w.log + [Configured(config)], w.live[id], w.s.records[id.1])
      {
        ChargeExtends(w.log, Configured(config), w.live[id], w.s.records[id.1]);
      }
  }

  lemma StepKeepsLive(w: World, op: Op)
    requires LiveOk(w) && Enabled(w, op)
    ensures LiveOk(Step(w, op))
  {
    match op
    case TransferOp(_, _) => if Sends(w, op) { SentShape(w, op); }
    case TimeoutOp(_, _, _) => TimeoutShape(w, op);
    case AckOp(_, _, _, _) =>
    case ConfigOp(_) =>
  }

  lemma {:induction false} RunKeepsLive(start: State, ops: seq<Op>)
    requires Legal(start, ops)
    ensures LiveOk(Run(start, ops))
    decreases |ops|
  {
    if ops != [] {
      RunKeepsLive(start, ops[..|ops| - 1]);
      StepKeepsLive(Run(start, ops[..|ops| - 1]), ops[|ops| - 1]);
    }
  }

  /** In every state of the run, the records are everyone's own. */
  ghost predicate AlwaysOwn(start: State, ops: seq<Op>)
    decreases |ops|
  {
    Own(Run(start, ops)) && (ops == [] || AlwaysOwn(start, ops[..|ops| - 1]))
  }

  /** Every transfer of the run respects the records it finds. */
  ghost predicate AlwaysRespected(start: State, ops: seq<Op>)
    decreases |ops|
  {
    ops == []
    || (AlwaysRespected(start, ops[..|ops| - 1]) && Respects(Run(start, ops[..|ops| - 1]), ops[|ops| - 1]))
  }

  /**
   The records are everyone's own throughout a run exactly if every transfer of the run respects the records it
   finds; no timeout, acknowledgement or change of configuration ever breaks it.
   */
  lemma {:induction false} OwnExact(start: State, ops: seq<Op>)
    requires Legal(start, ops)
    ensures AlwaysOwn(start, ops) <==> AlwaysRespected(start, ops)
    decreases |ops|
  {
    if ops != [] {
      var init, op := ops[..|ops| - 1], ops[|ops| - 1];
      var w := Run(start, init);
      OwnExact(start, init);
      RunKeepsLive(start, init);
      if AlwaysOwn(start, init) {
        if Sends(w, op) {
          TransferKeepsOwn(w, op);
        } else {
          OthersKeepOwn(w, op);
        }
      }
    }
  }

  // ---------------------------------------------------------------- refunds

  /** Every fee given back at j was taken with the same packet before and not given back in between. */
  ghost predicate RefundsJustified(log: Log) {
    forall j :: 0 <= j < |log| && log[j].GaveBack? ==>
      exists i :: Outstanding(log, i, log[j].packet, log[j].coin, j)
  }

  lemma PrefixOutstanding(log: Log, e: Event, i: int, p: Packet, coin: Coin, until: int)
    requires until <= |log|
    ensures Outstanding(log + [e], i, p, coin, until) <==> Outstanding(log, i, p, coin, until)
  {
    assert forall m :: 0 <= m < |log| ==> (log + [e])[m] == log[m];
  }

  lemma RefundsExtend(log: Log, e: Event)
    requires RefundsJustified(log)
    ensures RefundsJustified(log + [e]) <==> (e.GaveBack? ==> HasCharge(log, e.packet, e.coin))
  {
    var l := log + [e];
    forall j | 0 <= j < |log| && l[j].GaveBack? ensures exists i :: Outstanding(l, i, l[j].packet, l[j].coin, j) {
      var i :| Outstanding(log, i, log[j].packet, log[j].coin, j);
      PrefixOutstanding(log, e, i, log[j].packet, log[j].coin, j);
    }
    if e.GaveBack? {
      if i :| Outstanding(log, i, e.packet, e.coin, |log|) {
        PrefixOutstanding(log, e, i, e.packet, e.coin, |log|);
      }
      if i :| Outstanding(l, i, e.packet, e.coin, |log|) {
        PrefixOutstanding(log, e, i, e.packet, e.coin, |log|);
      }
      assert l[|log|] == e;
    }
  }

  /** A refund is the packet's own fee exactly if the record under its sequence is. */
  lemma RefundExact(w: World, op: Op)
    requires RefundsJustified(w.log) && op.TimeoutOp?
    requires Timeout(w.s, op.packet, op.decodes, op.native).1.Refunded?
    ensures RefundsJustified(Step(w, op).log)
            <==> HasCharge(w.log, op.packet, w.s.records[op.packet.sequence])
  {
    TimeoutShape(w, op);
    RefundsExtend(w.log, Step(w, op).log[|w.log|]);
  }

  lemma StepJustified(w: World, op: Op)
    requires LiveOk(w) && Own(w) && RefundsJustified(w.log) && Enabled(w, op)
    ensures RefundsJustified(Step(w, op).log)
  {
    match op
    case TransferOp(_, _) =>
      if Sends(w, op) {
        SentShape(w, op);
        if Step(w, op).log != w.log {
          RefundsExtend(w.log, Step(w, op).log[|w.log|]);
        }
      }
    case TimeoutOp(p, decodes, native) =>
      TimeoutShape(w, op);
      if Timeout(w.s, p, decodes, native).1.Refunded? {
        RefundExact(w, op);
      }
    case AckOp(_, _, _, _) =>
    case ConfigOp(config) =>
      RefundsExtend(w.log, Configured(config));
  }

  /**
   On every run whose transfers respect the records they find, a fee is given back only when its own packet times
   out and at the amount that was taken with it; and on every run at all, at most once with each packet.
   */
  lemma {:induction false} RefundsMatchCharges(start: State, ops: seq<Op>)
    requires Legal(start, ops)
    ensures AlwaysRespected(start, ops) ==> Own(Run(start, ops)) && RefundsJustified(Run(start, ops).log)
    ensures var log := Run(start, ops).log;
            forall i, j :: 0 <= i < j < |log| && log[i].GaveBack? && log[j].GaveBack? ==>
              Id(log[i].packet) != Id(log[j].packet)
    decreases |ops|
  {
    RunKeepsLive(start, ops);
    if ops != [] && AlwaysRespected(start, ops) {
      var init := ops[..|ops| - 1];
      RefundsMatchCharges(start, init);
      RunKeepsLive(start, init);
      StepJustified(Run(start, init), ops[|ops| - 1]);
      OwnExact(start, ops);
    }
  }

  /** A transfer's sequence is shared by no packet under way, and a charge overwrites any record left under it. */
  predicate FreshRecord(w: World, op: Op) {
    Sends(w, op) ==>
      && (forall id :: id in w.live ==> id.1 != op.ctx.sequence)
      && (op.ctx.sequence in w.s.records ==> ChargedCoin(w.s, op).amount != 0)
  }

  predicate AlwaysFresh(start: State, ops: seq<Op>)
    decreases |ops|
  {
    ops == [] || (AlwaysFresh(start, ops[..|ops| - 1]) && FreshRecord(Run(start, ops[..|ops| - 1]), ops[|ops| - 1]))
  }

  /** Channels whose packets under way never share a sequence are enough for every fee to go back to its payer. */
  lemma {:induction false} DistinctSequencesRefundTheirOwn(start: State, ops: seq<Op>)
    requires Legal(start, ops) && AlwaysFresh(start, ops)
    ensures AlwaysRespected(start, ops) && Own(Run(start, ops)) && RefundsJustified(Run(start, ops).log)
    decreases |ops|
  {
    if ops != [] {
      DistinctSequencesRefundTheirOwn(start, ops[..|ops| - 1]);
    }
    RefundsMatchCharges(start, ops);
  }

  // ---------------------------------------------------------------- who pays a refund

  /** The configuration after the history: the last one that was set. */
  function ConfigAfter(config: seq<ChannelFee>, log: Log): seq<ChannelFee> {
    if log == [] then config
    else
      match log[|log| - 1]
      case Configured(c) => c
      case _ => ConfigAfter(config, log[..|log| - 1])
  }

  ghost predicate AddressesOk(config: seq<ChannelFee>, log: Log) {
    forall i :: 0 <= i < |log| ==>
      match log[i]
      case Charged(p, _, collector) => collector == FeeAddressIn(ConfigAfter(config, log[..i]), p.channel)
      case GaveBack(p, _, payer) => payer == FeeAddressIn(ConfigAfter(config, log[..i]), p.channel)
      case Configured(_) => true
  }

  lemma AddressesExtend(config: seq<ChannelFee>, log: Log, e: Event)
    requires AddressesOk(config, log)
    requires match e
             case Charged(p, _, collector) => collector == FeeAddressIn(ConfigAfter(config, log), p.channel)
             case GaveBack(p, _, payer) => payer == FeeAddressIn(ConfigAfter(config, log), p.channel)
             case Configured(_) => true
    ensures AddressesOk(config, log + [e])
  {
    var l := log + [e];
    forall i | 0 <= i < |l| ensures l[..i] == if i < |log| then log[..i] else log {
    }
    assert l[|log|] == e && forall i :: 0 <= i < |log| ==> l[i] == log[i];
  }

  lemma StepAddresses(config: seq<ChannelFee>, w: World, op: Op)
    requires w.s.config == ConfigAfter(config, w.log) && AddressesOk(config, w.log)
    ensures Step(w, op).s.config == ConfigAfter(config, Step(w, op).log) && AddressesOk(config, Step(w, op).log)
  {
    StepEvent(w, op);
    var w' := Step(w, op);
    if w'.log != w.log {
      var e := w'.log[|w.log|];
      assert w'.log[..|w.log|] == w.log;
      AddressesExtend(config, w.log, e);
    }
  }

  /** The event a step leaves behind, if any, names the fee address of the present configuration. */
  lemma StepEvent(w: World, op: Op)
    ensures var w' := Step(w, op);
            if w'.log == w.log then w'.s.config == w.s.config
            else
              |w'.log| == |w.log| + 1 && w'.log == w.log + [w'.log[|w.log|]]
              && match w'.log[|w.log|]
                 case Charged(p, _, collector) => collector == FeeAddressOf(w.s, p.channel) && w'.s.config == w.s.config
                 case GaveBack(p, _, payer) => payer == FeeAddressOf(w.s, p.channel) && w'.s.config == w.s.config
                 case Configured(c) => w'.s.config == c
  {
    if op.TimeoutOp? {
      TimeoutShape(w, op);
    } else if Sends(w, op) {
      SentShape(w, op);
    }
  }

  lemma {:induction false} AddressesFollowConfig(start: State, ops: seq<Op>)
    ensures Run(start, ops).s.config == ConfigAfter(start.config, Run(start, ops).log)
    ensures AddressesOk(start.config, Run(start, ops).log)
    decreases |ops|
  {
    if ops != [] {
      AddressesFollowConfig(start, ops[..|ops| - 1]);
      StepAddresses(start.config, Run(start, ops[..|ops| - 1]), ops[|ops| - 1]);
    }
  }

  lemma {:induction false} ConfigStays(config: seq<ChannelFee>, log: Log, i: nat, j: nat)
    requires i <= j <= |log| && forall m :: i <= m < j ==> !log[m].Configured?
    ensures ConfigAfter(config, log[..j]) == ConfigAfter(config, log[..i])
  {
    if i < j {
      assert log[..j][..j - 1] == log[..j - 1];
      ConfigStays(config, log, i, j - 1);
    }
  }

  /**
   A refund is paid by the address that collected the fee exactly if the channel's fee address was the same in
   the configuration at the refund as in that at the charge; so it is if no configuration was set in between.
   */
  lemma RefundPayer(start: State, ops: seq<Op>, i: int, j: int)
    requires var log := Run(start, ops).log;
             0 <= i < |log| && 0 <= j < |log| && log[i].Charged? && log[j].GaveBack? && log[i].packet == log[j].packet
    ensures var log := Run(start, ops).log;
            var channel := log[i].packet.channel;
            log[j].payer == log[i].collector
            <==> FeeAddressIn(ConfigAfter(start.config, log[..j]), channel)
                 == FeeAddressIn(ConfigAfter(start.config, log[..i]), channel)
    ensures var log := Run(start, ops).log;
            i < j && (forall m :: i < m < j ==> !log[m].Configured?) ==> log[j].payer == log[i].collector
  {
    AddressesFollowConfig(start, ops);
    var log := Run(start, ops).log;
    if i < j && forall m :: i < m < j ==> !log[m].Configured? {
      ConfigStays(start.config, log, i, j);
    }
  }

  // ---------------------------------------------------------------- the record key holds no channel

  function Fee(channel: bytes, amount: int): ChannelFee {
    ChannelFee(channel, [CoinItem(Coin([1], amount), 0, [])], [9], 0)
  }

  /** Two channels that happen to use the same sequence: the first packet gets the second one's fee back. */
  lemma SharedSequenceRefundsTheWrongFee(decodes: bytes -> bool)
    requires forall a :: decodes(a)
    ensures var bank: Balances := map[(User([5]), [1]) := 1000];
            var start := State(bank, map[], [Fee([2], 3), Fee([4], 50)]);
            var ctx := Context(0, decodes, true, 7);
            var (s1, first) := TransferStep(start, Msg([2], Coin([1], 100), [5], None, 0), ctx);
            var (s2, second) := TransferStep(s1, Msg([4], Coin([1], 100), [5], None, 0), ctx);
            first.Sent? && second.Sent? && s1.records == map[7 := Coin([1], 3)]
            && Timeout(s2, first.packet, decodes, None).1 == Refunded(Coin([1], 50))
  {
    var bank: Balances := map[(User([5]), [1]) := 1000];
    var start := State(bank, map[], [Fee([2], 3), Fee([4], 50)]);
    var ctx := Context(0, decodes, true, 7);
    assert FindChannel(start.config, [2]) == Some(Fee([2], 3));
    assert start.config[1..] == [Fee([4], 50)];
    assert FindChannel(start.config, [4]) == Some(Fee([4], 50));
    var m1, m2 := Msg([2], Coin([1], 100), [5], None, 0), Msg([4], Coin([1], 100), [5], None, 0);
    assert Charge(start, m1, ctx) == Some(Split(3, 97));
    var (s1, first) := TransferStep(start, m1, ctx);
    assert first == Sent(Packet([2], 7, [5], Coin([1], 97)));
    assert s1.config == start.config && s1.records == map[7 := Coin([1], 3)];
    assert Charge(s1, m2, ctx) == Some(Split(50, 50));
    var (s2, second) := TransferStep(s1, m2, ctx);
    assert second == Sent(Packet([4], 7, [5], Coin([1], 50)));
    assert s2.config == start.config && s2.records[7] == Coin([1], 50);
  }

  /** A fee address that changes in between: the old one keeps the fee and the new one pays it back. */
  lemma AnotherAddressPays(decodes: bytes -> bool)
    requires forall a :: decodes(a)
    ensures var bank: Balances := map[(User([5]), [1]) := 1000, (User([8]), [1]) := 10];
            var start := State(bank, map[], [Fee([2], 3)]);
            var (s1, sent) :=
              TransferStep(start, Msg([2], Coin([1], 100), [5], None, 0), Context(0, decodes, true, 7));
            var moved := s1.(config := [Fee([2], 3).(feeAddress := [8])]);
            && sent.Sent?
            && var (s2, r) := Timeout(moved, sent.packet, decodes, None);
               r == Refunded(Coin([1], 3))
               && Balance(s2.bank, User([9]), [1]) == 3 && Balance(s2.bank, User([8]), [1]) == 7
  {
    var bank: Balances := map[(User([5]), [1]) := 1000, (User([8]), [1]) := 10];
    var start := State(bank, map[], [Fee([2], 3)]);
    var msg, ctx := Msg([2], Coin([1], 100), [5], None, 0), Context(0, decodes, true, 7);
    assert FindChannel(start.config, [2]) == Some(Fee([2], 3));
    assert Charge(start, msg, ctx) == Some(Split(3, 97));
    var (s1, sent) := TransferStep(start, msg, ctx);
    assert sent == Sent(Packet([2], 7, [5], Coin([1], 97)));
    var moved := s1.(config := [Fee([2], 3).(feeAddress := [8])]);
    SenderPays(start, msg, ctx, User([9]), [1]);
    SenderPays(start, msg, ctx, User([8]), [1]);
    SenderPays(start, msg, ctx, Escrow([2]), [1]);
    assert FeeAddressOf(moved, [2]) == [8];
    if Timeout(moved, sent.packet, decodes, None).1.Refunded? {
      SenderIsPaidBack(moved, sent.packet, decodes, None, User([9]), [1]);
      SenderIsPaidBack(moved, sent.packet, decodes, None, User([8]), [1]);
    }
  }

  // ---------------------------------------------------------------- balances

  /** What the listed accounts hold together. */
  function Total(bank: Balances, accounts: seq<Account>, denom: bytes): int {
    if accounts == [] then 0 else Balance(bank, accounts[0], denom) + Total(bank, accounts[1..], denom)
  }

  predicate Distinct(accounts: seq<Account>) {
    forall i, j :: 0 <= i < j < |accounts| ==> accounts[i] != accounts[j]
  }

  /** The list names every account the bank knows. */
  predicate Covers(accounts: seq<Account>, bank: Balances) {
    forall k :: k in bank ==> k.0 in accounts
  }

  lemma {:induction false} TotalCredit(bank: Balances, accounts: seq<Account>, a: Account, d: bytes,
    amount: int, denom: bytes)
    requires Distinct(accounts)
    ensures Total(Credit(bank, a, d, amount), accounts, denom)
            == Total(bank, accounts, denom) + if a in accounts && d == denom then amount else 0
  {
    if accounts != [] {
      TotalCredit(bank, accounts[1..], a, d, amount, denom);
    }
  }

  /** Sending coins moves them: the listed accounts hold as much as before. */
  lemma SendConserves(bank: Balances, from: Account, to: Account, coin: Coin, accounts: seq<Account>, denom: bytes)
    requires var r := SendCoins(bank, from, to, coin); r.Some? && Covers(accounts, r.value)
    requires Distinct(accounts)
    ensures var r := SendCoins(bank, from, to, coin);
            Covers(accounts, bank) && Total(r.value, accounts, denom) == Total(bank, accounts, denom)
  {
    var mid := Credit(bank, from, coin.denom, -coin.amount);
    var last := Credit(mid, to, coin.denom, coin.amount);
    assert (from, coin.denom) in last && (to, coin.denom) in last;
    assert forall k :: k in bank ==> k in last;
    TotalCredit(bank, accounts, from, coin.denom, -coin.amount, denom);
    TotalCredit(mid, accounts, to, coin.denom, coin.amount, denom);
  }

  lemma TransferConserves(s: State, msg: Msg, ctx: Context, accounts: seq<Account>, denom: bytes)
    requires Distinct(accounts) && Covers(accounts, TransferStep(s, msg, ctx).0.bank)
    ensures Covers(accounts, s.bank)
            && Total(TransferStep(s, msg, ctx).0.bank, accounts, denom) == Total(s.bank, accounts, denom)
  {
    var (s', outcome) := TransferStep(s, msg, ctx);
    if !outcome.Refused? {
      var split := Charge(s, msg, ctx).value;
      var bank := TakeFee(s, msg, split.charge).value;
      if outcome.Sent? {
        SendConserves(bank, User(msg.sender), Escrow(msg.sourceChannel), Coin(msg.token.denom, split.forwarded),
          accounts, denom);
      }
      var fee := FindChannel(s.config, msg.sourceChannel);
      if fee.Some? {
        SendConserves(s.bank, User(msg.sender), User(fee.value.feeAddress), Coin(msg.token.denom, split.charge),
          accounts, denom);
      }
    }
  }

  /** What the middleware's reissuing of a parachain token adds to the total of a denomination. */
  function Reissued(p: Packet, native: Option<bytes>, denom: bytes): int {
    if native == Some(denom) then p.token.amount else 0
  }

  lemma UnsendConserves(
    bank: Balances, p: Packet, decodes: bytes -> bool, native: Option<bytes>, accounts: seq<Account>, denom: bytes)
    requires var r := Unsend(bank, p, decodes, native); r.Some? && Covers(accounts, r.value)
    requires Distinct(accounts)
    ensures Covers(accounts, bank)
    ensures Total(Unsend(bank, p, decodes, native).value, accounts, denom)
            == Total(bank, accounts, denom) + Reissued(p, native, denom)
  {
    var given := GiveBack(bank, p).value;
    var after := Unsend(bank, p, decodes, native).value;
    if native.Some? {
      var escrowed := SendCoins(given, User(p.sender), Escrow(p.channel), p.token).value;
      assert (User(p.sender), native.value) in after && forall k :: k in escrowed ==> k in after;
      TotalCredit(escrowed, accounts, User(p.sender), native.value, p.token.amount, denom);
      SendConserves(given, User(p.sender), Escrow(p.channel), p.token, accounts, denom);
    }
    SendConserves(bank, Escrow(p.channel), User(p.sender), p.token, accounts, denom);
  }

  lemma TimeoutConserves(s: State, op: Op, accounts: seq<Account>, denom: bytes)
    requires op.TimeoutOp? && Distinct(accounts)
    requires Covers(accounts, Timeout(s, op.packet, op.decodes, op.native).0.bank)
    ensures var (s', r) := Timeout(s, op.packet, op.decodes, op.native);
            Covers(accounts, s.bank)
            && Total(s'.bank, accounts, denom)
               == Total(s.bank, accounts, denom) + if r.Failed? then 0 else Reissued(op.packet, op.native, denom)
  {
    var p := op.packet;
    var (s', r) := Timeout(s, p, op.decodes, op.native);
    if !r.Failed? {
      var bank := Unsend(s.bank, p, op.decodes, op.native).value;
      if r.Refunded? {
        SendConserves(bank, User(FeeAddressOf(s, p.channel)), User(p.sender), s.records[p.sequence], accounts, denom);
      }
      UnsendConserves(s.bank, p, op.decodes, op.native, accounts, denom);
    }
  }

  lemma AckConserves(s: State, op: Op, accounts: seq<Account>, denom: bytes)
    requires op.AckOp? && Distinct(accounts)
    requires Covers(accounts, Acknowledge(s, op.packet, op.success, op.decodes, op.native).0.bank)
    ensures var (s', ok) := Acknowledge(s, op.packet, op.success, op.decodes, op.native);
            Covers(accounts, s.bank)
            && Total(s'.bank, accounts, denom)
               == Total(s.bank, accounts, denom)
                  + if ok && !op.success then Reissued(op.packet, op.native, denom) else 0
  {
    if !op.success && Unsend(s.bank, op.packet, op.decodes, op.native).Some? {
      UnsendConserves(s.bank, op.packet, op.decodes, op.native, accounts, denom);
    }
  }

  /** What a whole run reissued of a denomination. */
  function RunReissued(start: State, ops: seq<Op>, denom: bytes): int
    decreases |ops|
  {
    if ops == [] then 0
    else
      var s := Run(start, ops[..|ops| - 1]).s;
      RunReissued(start, ops[..|ops| - 1], denom)
      + match ops[|ops| - 1]
        case TimeoutOp(p, decodes, native) =>
          if Timeout(s, p, decodes, native).1.Failed? then 0 else Reissued(p, native, denom)
        case AckOp(p, success, decodes, native) =>
          if Acknowledge(s, p, success, decodes, native).1 && !success then Reissued(p, native, denom) else 0
        case _ => 0
  }

  /** No run of any steps, legal or not, loses a coin or makes one, except those the middleware reissues. */
  lemma {:induction false} RunConserves(start: State, ops: seq<Op>, accounts: seq<Account>, denom: bytes)
    requires Distinct(accounts) && Covers(accounts, Run(start, ops).s.bank)
    ensures Covers(accounts, start.bank)
            && Total(Run(start, ops).s.bank, accounts, denom)
               == Total(start.bank, accounts, denom) + RunReissued(start, ops, denom)
    decreases |ops|
  {
    if ops != [] {
      var init, op := ops[..|ops| - 1], ops[|ops| - 1];
      var s := Run(start, init).s;
      match op {
        case TransferOp(msg, ctx) => TransferConserves(s, msg, ctx, accounts, denom);
        case TimeoutOp(_, _, _) => TimeoutConserves(s, op, accounts, denom);
        case AckOp(_, _, _, _) => AckConserves(s, op, accounts, denom);
        case ConfigOp(_) =>
      }
      RunConserves(start, init, accounts, denom);
    }
  }

  // ---------------------------------------------------------------- there and back

  lemma SendEffect(bank: Balances, from: Account, to: Account, coin: Coin, a: Account, d: bytes)
    requires SendCoins(bank, from, to, coin).Some?
    ensures Balance(SendCoins(bank, from, to, coin).value, a, d)
            == Balance(bank, a, d) - (if a == from && d == coin.denom then coin.amount else 0)
               + (if a == to && d == coin.denom then coin.amount else 0)
  {
  }

  lemma SplitAddsUp(s: State, msg: Msg, ctx: Context)
    requires Charge(s, msg, ctx).Some?
    ensures Charge(s, msg, ctx).value.charge + Charge(s, msg, ctx).value.forwarded == msg.token.amount
  {
  }

  /** The channel has a fee configuration, and its fees go to this account. */
  predicate ChargesTo(s: State, channel: bytes, a: Account) {
    FindChannel(s.config, channel).Some? && a == User(FeeAddressOf(s, channel))
  }

  /** A transfer that sends a packet takes its whole amount from the sender, part as a fee, part into escrow. */
  lemma SenderPays(s: State, msg: Msg, ctx: Context, a: Account, d: bytes)
    requires TransferStep(s, msg, ctx).1.Sent?
    ensures var (s', outcome) := TransferStep(s, msg, ctx);
            var charge := msg.token.amount - outcome.packet.token.amount;
            && outcome.packet.sender == msg.sender && outcome.packet.token.denom == msg.token.denom
            && (charge != 0 ==> s'.records == s.records[ctx.sequence := Coin(msg.token.denom, charge)])
            && Balance(s'.bank, a, d) == Balance(s.bank, a, d)
               + if d != msg.token.denom then 0
                 else (if a == User(msg.sender) then -msg.token.amount else 0)
                      + (if a == Escrow(msg.sourceChannel) then outcome.packet.token.amount else 0)
                      + (if ChargesTo(s, msg.sourceChannel, a) then charge else 0)
  {
    SplitAddsUp(s, msg, ctx);
    var split := Charge(s, msg, ctx).value;
    var fee := FindChannel(s.config, msg.sourceChannel);
    var bank := TakeFee(s, msg, split.charge).value;
    if fee.Some? {
      SendEffect(s.bank, User(msg.sender), User(fee.value.feeAddress), Coin(msg.token.denom, split.charge), a, d);
    }
    SendEffect(bank, User(msg.sender), Escrow(msg.sourceChannel), Coin(msg.token.denom, split.forwarded), a, d);
  }

  /** What reissuing a parachain token moves: the token into escrow again, its native one to the sender. */
  function ReissueMoves(p: Packet, native: Option<bytes>, a: Account, d: bytes): int {
    if native.None? then 0
    else
      (if d == p.token.denom && a == Escrow(p.channel) then p.token.amount else 0)
      - (if d == p.token.denom && a == User(p.sender) then p.token.amount else 0)
      + (if d == native.value && a == User(p.sender) then p.token.amount else 0)
  }

  lemma UnsendEffect(bank: Balances, p: Packet, decodes: bytes -> bool, native: Option<bytes>, a: Account, d: bytes)
    requires Unsend(bank, p, decodes, native).Some?
    ensures Balance(Unsend(bank, p, decodes, native).value, a, d)
            == Balance(bank, a, d)
               + (if d == p.token.denom && a == User(p.sender) then p.token.amount else 0)
               - (if d == p.token.denom && a == Escrow(p.channel) then p.token.amount else 0)
               + ReissueMoves(p, native, a, d)
  {
    SendEffect(bank, Escrow(p.channel), User(p.sender), p.token, a, d);
    if native.Some? {
      SendEffect(GiveBack(bank, p).value, User(p.sender), Escrow(p.channel), p.token, a, d);
    }
  }

  /** A timeout with a refund pays the forwarded amount from escrow and the recorded fee from the fee address. */
  lemma SenderIsPaidBack(
    s: State, p: Packet, decodes: bytes -> bool, native: Option<bytes>, a: Account, d: bytes)
    requires Timeout(s, p, decodes, native).1.Refunded?
    ensures var (s', r) := Timeout(s, p, decodes, native);
            Balance(s'.bank, a, d) == Balance(s.bank, a, d)
              + (if d == p.token.denom && a == User(p.sender) then p.token.amount else 0)
              - (if d == p.token.denom && a == Escrow(p.channel) then p.token.amount else 0)
              + (if d == r.coin.denom && a == User(p.sender) then r.coin.amount else 0)
              - (if d == r.coin.denom && a == User(FeeAddressOf(s, p.channel)) then r.coin.amount else 0)
              + ReissueMoves(p, native, a, d)
  {
    var bank := Unsend(s.bank, p, decodes, native).value;
    UnsendEffect(s.bank, p, decodes, native, a, d);
    SendEffect(bank, User(FeeAddressOf(s, p.channel)), User(p.sender), s.records[p.sequence], a, d);
  }

  /**
   A charged transfer followed by a timeout whose refund succeeds leaves every balance as it was, except that a
   parachain token comes back as its native one.
   */
  lemma TransferThenTimeoutRestores(
    s: State, msg: Msg, ctx: Context, decodes: bytes -> bool, native: Option<bytes>, a: Account, d: bytes)
    requires TransferStep(s, msg, ctx).1.Sent?
    requires msg.token.amount != TransferStep(s, msg, ctx).1.packet.token.amount
    requires var (s1, outcome) := TransferStep(s, msg, ctx); Timeout(s1, outcome.packet, decodes, native).1.Refunded?
    ensures var (s1, outcome) := TransferStep(s, msg, ctx);
            var s2 := Timeout(s1, outcome.packet, decodes, native).0;
            && Balance(s2.bank, a, d) == Balance(s.bank, a, d) + ReissueMoves(outcome.packet, native, a, d)
            && s2.records == s.records - {ctx.sequence}
  {
    var (s1, outcome) := TransferStep(s, msg, ctx);
    SenderPays(s, msg, ctx, a, d);
    SenderIsPaidBack(s1, outcome.packet, decodes, native, a, d);
  }
}
