/**
 The fee of a transfer from its charge to its refund or its end: the message server's Transfer
 (custom/ibc-transfer/keeper/msg_server.go), the callbacks of the transfer middleware
 (x/transfermiddleware/ibc_middleware.go) and the fee record per sequence
 (x/ibctransfermiddleware/keeper/keeper.go).

 The inner transfer application is a small contract: a send moves the forwarded token to the channel's escrow,
 a timeout or an error acknowledgement moves it back. Whether an address decodes is a parameter, and so is the
 middleware's lookup of parachain tokens: the native denomination under which it reissues the packet's token, if
 it does.
 A handler that fails leaves the state alone.
 */
module FeeFlow {
  import opened Wrappers
  import opened Bytes
  import opened FeeTypes
  import opened FeeSplit

  datatype Account = User(address: bytes) | Escrow(channel: bytes)

  type Balances = map<(Account, bytes), int>

  datatype State = State(bank: Balances, records: map<uint64, Coin>, config: seq<ChannelFee>)

  function Balance(bank: Balances, a: Account, denom: bytes): int {
    if (a, denom) in bank then bank[(a, denom)] else 0
  }

  function Credit(bank: Balances, a: Account, denom: bytes, amount: int): Balances {
    bank[(a, denom) := Balance(bank, a, denom) + amount]
  }

  /** A negative coin cannot be made, and a sender needs the funds. */
  function SendCoins(bank: Balances, from: Account, to: Account, coin: Coin): Option<Balances> {
    if coin.amount < 0 || Balance(bank, from, coin.denom) < coin.amount then None
    else Some(Credit(Credit(bank, from, coin.denom, -coin.amount), to, coin.denom, coin.amount))
  }

  datatype Msg = Msg(
    sourceChannel: bytes, token: Coin, sender: bytes, priority: Option<bytes>, timeoutTimestamp: uint64)

  /** What the chain knows while it handles a transfer: the block time, which addresses decode, the next sequence. */
  datatype Context = Context(blockTime: int, decodes: bytes -> bool, innerAccepts: bool, sequence: uint64)

  datatype Packet = Packet(channel: bytes, sequence: uint64, sender: bytes, token: Coin)

  /** The outcome of a transfer: refused, everything kept as a fee, or a packet sent. */
  datatype Outcome = Refused | AllCharged | Sent(packet: Packet)

  /** The timeout must be at least the configured distance in the future, where one is configured. */
  predicate TimeoutOk(fee: ChannelFee, msg: Msg, blockTime: int) {
    fee.minTimeoutTimestamp <= 0
    || (var t := ToInt64(msg.timeoutTimestamp);
        t >= blockTime && (t - blockTime >= fee.minTimeoutTimestamp))
  }

  /** The charge and the forwarded amount, if the channel's configuration lets the transfer pass. */
  function Charge(s: State, msg: Msg, ctx: Context): Option<Split> {
    match FindChannel(s.config, msg.sourceChannel)
    case None => Some(Split(0, msg.token.amount))
    case Some(fee) =>
      match FindToken(fee.allowedTokens, msg.token.denom)
      case None => None
      case Some(item) =>
        if TimeoutOk(fee, msg, ctx.blockTime) && ctx.decodes(msg.sender) && ctx.decodes(fee.feeAddress)
        then Some(ServerSplit(item, msg.priority, msg.token.amount)) else None
  }

  /** The bank after the fee is taken. */
  function TakeFee(s: State, msg: Msg, charge: int): Option<Balances> {
    match FindChannel(s.config, msg.sourceChannel)
    case None => Some(s.bank)
    case Some(fee) => SendCoins(s.bank, User(msg.sender), User(fee.feeAddress), Coin(msg.token.denom, charge))
  }

  /** The inner application's send. */
  function Forward(bank: Balances, msg: Msg, amount: int, ctx: Context): Option<Balances> {
    if !ctx.innerAccepts then None
    else SendCoins(bank, User(msg.sender), Escrow(msg.sourceChannel), Coin(msg.token.denom, amount))
  }

  function TransferStep(s: State, msg: Msg, ctx: Context): (State, Outcome) {
    match Charge(s, msg, ctx)
    case None => (s, Refused)
    case Some(split) =>
      match TakeFee(s, msg, split.charge)
      case None => (s, Refused)
      case Some(bank) =>
        if split.forwarded <= 0 && FindChannel(s.config, msg.sourceChannel).Some? then (s.(bank := bank), AllCharged)
        else
          match Forward(bank, msg, split.forwarded, ctx)
          case None => (s, Refused)
          case Some(bank') =>
            var fee := Coin(msg.token.denom, split.charge);
            (State(bank', if split.charge == 0 then s.records else s.records[ctx.sequence := fee], s.config),
             Sent(Packet(msg.sourceChannel, ctx.sequence, msg.sender, Coin(msg.token.denom, split.forwarded))))
  }

  /** The inner application gives the forwarded token back. */
  function GiveBack(bank: Balances, p: Packet): Option<Balances> {
    SendCoins(bank, Escrow(p.channel), User(p.sender), p.token)
  }

  /** The middleware's own refund: a parachain token goes back to escrow and is reissued as its native one. */
  function Reissue(bank: Balances, p: Packet, decodes: bytes -> bool, native: Option<bytes>): Option<Balances> {
    if !decodes(p.sender) then None
    else
      match native
      case None => Some(bank)
      case Some(denom) =>
        match SendCoins(bank, User(p.sender), Escrow(p.channel), p.token)
        case None => None
        case Some(escrowed) => Some(Credit(escrowed, User(p.sender), denom, p.token.amount))
  }

  /** What the inner application and the middleware do to the bank when a packet fails. */
  function Unsend(bank: Balances, p: Packet, decodes: bytes -> bool, native: Option<bytes>): Option<Balances> {
    match GiveBack(bank, p)
    case None => None
    case Some(b) => Reissue(b, p, decodes, native)
  }

  function FeeAddressIn(config: seq<ChannelFee>, channel: bytes): bytes {
    match FindChannel(config, channel)
    case None => []
    case Some(fee) => fee.feeAddress
  }

  /** The address the fee of the channel now goes to; the empty string without a configuration. */
  function FeeAddressOf(s: State, channel: bytes): bytes {
    FeeAddressIn(s.config, channel)
  }

  /** The refund of a recorded fee, if the address is known, both addresses decode and the funds are there. */
  function Refund(s: State, bank: Balances, p: Packet, decodes: bytes -> bool): Option<Balances> {
    var address := FeeAddressOf(s, p.channel);
    if p.sequence !in s.records || address == [] || !decodes(address) || !decodes(p.sender) then None
    else SendCoins(bank, User(address), User(p.sender), s.records[p.sequence])
  }

  datatype Return = Failed | NoRefund | Refunded(coin: Coin)

  function Timeout(s: State, p: Packet, decodes: bytes -> bool, native: Option<bytes>): (State, Return) {
    match Unsend(s.bank, p, decodes, native)
    case None => (s, Failed)
    case Some(bank) =>
      match Refund(s, bank, p, decodes)
      case None => (s.(bank := bank), NoRefund)
      case Some(bank') => (State(bank', s.records - {p.sequence}, s.config), Refunded(s.records[p.sequence]))
  }

  /** An acknowledgement ends the record, whether it reports success or an error. */
  function Acknowledge(
    s: State, p: Packet, success: bool, decodes: bytes -> bool, native: Option<bytes>): (State, bool)
  {
    var bank := if success then Some(s.bank) else Unsend(s.bank, p, decodes, native);
    match bank
    case None => (s, false)
    case Some(b) => (State(b, s.records - {p.sequence}, s.config), true)
  }

  // ---------------------------------------------------------------- the key of a fee record

  const SEQUENCE_FEE_KEY: byte := 0x21

  /** The sequence in decimal, without the channel. */
  function SequenceKey(sequence: uint64): bytes {
    [SEQUENCE_FEE_KEY] + Decimal(sequence)
  }

  /** Two sequences have different keys. */
  lemma SequenceKeyInjective(n: uint64, m: uint64)
    ensures SequenceKey(n) == SequenceKey(m) <==> n == m
  {
    assert SequenceKey(n)[1..] == Decimal(n) && SequenceKey(m)[1..] == Decimal(m);
    DecimalInverse(n);
    DecimalInverse(m);
  }

  /** The records a store of printed keys stands for. */
  ghost function RecordsOf(store: map<bytes, Coin>): map<uint64, Coin> {
    map n: uint64 | 0 <= n < UINT64_MODULUS && SequenceKey(n) in store :: store[SequenceKey(n)]
  }

  lemma StoreOneRecord(store: map<bytes, Coin>, sequence: uint64, coin: Coin)
    ensures RecordsOf(store[SequenceKey(sequence) := coin]) == RecordsOf(store)[sequence := coin]
  {
    forall n: uint64 ensures SequenceKey(n) == SequenceKey(sequence) <==> n == sequence {
      SequenceKeyInjective(n, sequence);
    }
  }

  lemma DropOneRecord(store: map<bytes, Coin>, sequence: uint64)
    ensures RecordsOf(store - {SequenceKey(sequence)}) == RecordsOf(store) - {sequence}
  {
    forall n: uint64 ensures SequenceKey(n) == SequenceKey(sequence) <==> n == sequence {
      SequenceKeyInjective(n, sequence);
    }
  }

  // ---------------------------------------------------------------- the handlers

  class FeeKeeper {
    var bank: Balances
    var store: map<bytes, Coin>
    var config: seq<ChannelFee>

    ghost function Abs(): State
      reads this
    {
      State(bank, RecordsOf(store), config)
    }

    constructor (bank: Balances, config: seq<ChannelFee>)
      ensures Abs() == State(bank, map[], config)
    {
      this.bank, store, this.config := bank, map[], config;
    }

    method GetSequenceFee(sequence: uint64) returns (fee: Option<Coin>)
      ensures fee == if sequence in Abs().records then Some(Abs().records[sequence]) else None
    {
      var key := SequenceKey(sequence);
      if key !in store {
        return None;
      }
      return Some(store[key]);
    }

    method SetSequenceFee(sequence: uint64, coin: Coin)
      modifies this`store
      ensures RecordsOf(store) == RecordsOf(old(store))[sequence := coin]
    {
      StoreOneRecord(store, sequence, coin);
      store := store[SequenceKey(sequence) := coin];
    }

    method DeleteSequenceFee(sequence: uint64)
      modifies this`store
      ensures RecordsOf(store) == RecordsOf(old(store)) - {sequence}
    {
      DropOneRecord(store, sequence);
      store := store - {SequenceKey(sequence)};
    }

    method GetChannelFeeAddress(channel: bytes) returns (address: bytes)
      ensures address == FeeAddressIn(config, channel)
    {
      var fee := FindChannelParams(config, channel);
      return if fee.None? then [] else fee.value.feeAddress;
    }

    method Transfer(msg: Msg, ctx: Context) returns (outcome: Outcome)
      modifies this
      ensures (Abs(), outcome) == TransferStep(old(Abs()), msg, ctx)
    {
      var amount := msg.token.amount;
      var charge := 0;
      var bank' := bank;
      var channelFee := FindChannelParams(config, msg.sourceChannel);
      if channelFee.Some? {
        var fee := channelFee.value;
        if fee.minTimeoutTimestamp > 0 {
          var timeout := ToInt64(msg.timeoutTimestamp);
          if timeout < ctx.blockTime {
            return Refused;
          }
          if timeout - ctx.blockTime < fee.minTimeoutTimestamp {
            return Refused;
          }
        }
        var coin := FindCoinByDenom(fee.allowedTokens, msg.token.denom);
        if coin.None? {
          return Refused;
        }
        var newAmount: int;
        charge, newAmount := SplitInServer(coin.value, msg.priority, amount);
        if !ctx.decodes(msg.sender) {
          return Refused;
        }
        if !ctx.decodes(fee.feeAddress) {
          return Refused;
        }
        var sent := SendCoins(bank, User(msg.sender), User(fee.feeAddress), Coin(msg.token.denom, charge));
        if sent.None? {
          return Refused;
        }
        bank' := sent.value;
        if newAmount <= 0 {
          bank := bank';
          return AllCharged;
        }
        amount := newAmount;
      }
      var forwarded := Forward(bank', msg, amount, ctx);
      if forwarded.None? {
        return Refused;
      }
      bank := forwarded.value;
      if charge != 0 {
        SetSequenceFee(ctx.sequence, Coin(msg.token.denom, charge));
      }
      return Sent(Packet(msg.sourceChannel, ctx.sequence, msg.sender, Coin(msg.token.denom, amount)));
    }

    /** The inner application and the middleware give the packet's token back. */
    method RefundToken(p: Packet, decodes: bytes -> bool, native: Option<bytes>) returns (ok: bool)
      modifies this`bank
      ensures ok <==> Unsend(old(bank), p, decodes, native).Some?
      ensures ok ==> Some(bank) == Unsend(old(bank), p, decodes, native)
    {
      var inner := GiveBack(bank, p);
      if inner.None? {
        return false;
      }
      if !decodes(p.sender) {
        return false;
      }
      var b := inner.value;
      if native.Some? {
        var escrowed := SendCoins(b, User(p.sender), Escrow(p.channel), p.token);
        if escrowed.None? {
          return false;
        }
        b := Credit(escrowed.value, User(p.sender), native.value, p.token.amount);
      }
      bank := b;
      return true;
    }

    method OnTimeoutPacket(p: Packet, decodes: bytes -> bool, native: Option<bytes>) returns (r: Return)
      modifies this
      ensures r.Failed? <==> Timeout(old(Abs()), p, decodes, native).1.Failed?
      ensures !r.Failed? ==> (Abs(), r) == Timeout(old(Abs()), p, decodes, native)
    {
      var ok := RefundToken(p, decodes, native);
      if !ok {
        return Failed;
      }
      var fee := GetSequenceFee(p.sequence);
      if fee.Some? {
        var feeAddress := GetChannelFeeAddress(p.channel);
        if feeAddress == [] {
          return NoRefund;
        }
        if !decodes(feeAddress) {
          return NoRefund;
        }
        if !decodes(p.sender) {
          return NoRefund;
        }
        var refunded := SendCoins(bank, User(feeAddress), User(p.sender), fee.value);
        if refunded.None? {
          return NoRefund;
        }
        bank := refunded.value;
        DeleteSequenceFee(p.sequence);
        return Refunded(fee.value);
      }
      return NoRefund;
    }

    method OnAcknowledgementPacket(p: Packet, success: bool, decodes: bytes -> bool, native: Option<bytes>)
      returns (ok: bool)
      modifies this
      ensures ok <==> Acknowledge(old(Abs()), p, success, decodes, native).1
      ensures ok ==> Abs() == Acknowledge(old(Abs()), p, success, decodes, native).0
    {
      if !success {
        ok := RefundToken(p, decodes, native);
        if !ok {
          return;
        }
      }
      DeleteSequenceFee(p.sequence);
      ok := true;
    }
  }
}
