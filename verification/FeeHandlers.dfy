/**
 What the handlers of a transfer, a timeout and an acknowledgement do, in terms of positions in the configuration,
 of balances and of fee records: when each of them is refused, and what it leaves behind.
 */
module FeeHandlers {
  import opened Wrappers
  import opened Bytes
  import opened FeeTypes
  import opened FeeSplit
  import opened FeeFlow
  import opened FeeRuns

  // ---------------------------------------------------------------- the entry that counts

  predicate FirstChannel(config: seq<ChannelFee>, channel: bytes, k: int) {
    0 <= k < |config| && config[k].channel == channel && forall j :: 0 <= j < k ==> config[j].channel != channel
  }

  predicate FirstToken(items: seq<CoinItem>, denom: bytes, t: int) {
    0 <= t < |items| && items[t].minFee.denom == denom && forall j :: 0 <= j < t ==> items[j].minFee.denom != denom
  }

  predicate NoChannel(config: seq<ChannelFee>, channel: bytes) {
    forall j :: 0 <= j < |config| ==> config[j].channel != channel
  }

  lemma {:induction false} FindChannelExact(config: seq<ChannelFee>, channel: bytes, k: int)
    ensures FirstChannel(config, channel, k) ==> FindChannel(config, channel) == Some(config[k])
    ensures NoChannel(config, channel) ==> FindChannel(config, channel) == None
  {
    if config != [] && config[0].channel != channel {
      if FirstChannel(config, channel, k) {
        assert FirstChannel(config[1..], channel, k - 1);
      }
      FindChannelExact(config[1..], channel, k - 1);
    }
  }

  lemma {:induction false} FindTokenExact(items: seq<CoinItem>, denom: bytes, t: int)
    ensures FirstToken(items, denom, t) ==> FindToken(items, denom) == Some(items[t])
    ensures (forall j :: 0 <= j < |items| ==> items[j].minFee.denom != denom) ==> FindToken(items, denom) == None
  {
    if items != [] && items[0].minFee.denom != denom {
      if FirstToken(items, denom, t) {
        assert FirstToken(items[1..], denom, t - 1);
      }
      FindTokenExact(items[1..], denom, t - 1);
    }
  }

  // ---------------------------------------------------------------- transfers

  /** The timeout is nearer than a positive configured distance. */
  predicate TooSoon(fee: ChannelFee, msg: Msg, ctx: Context) {
    fee.minTimeoutTimestamp > 0 && ToInt64(msg.timeoutTimestamp) < ctx.blockTime + fee.minTimeoutTimestamp
  }

  /** What a transfer moves in an account: the fee to its address, the rest to escrow, both from the sender. */
  function TransferMoves(msg: Msg, feeAddress: bytes, charge: int, rest: int, a: Account, d: bytes): int {
    if d != msg.token.denom then 0
    else
      (if a == User(msg.sender) then -(charge + rest) else 0)
      + (if a == User(feeAddress) then charge else 0)
      + (if a == Escrow(msg.sourceChannel) then rest else 0)
  }

  /** The sender can pay the fee, and what then is left covers what is forwarded, if anything is. */
  predicate CanPay(s: State, msg: Msg, ctx: Context, feeAddress: bytes, charge: int, rest: int) {
    var funds := Balance(s.bank, User(msg.sender), msg.token.denom);
    && 0 <= charge <= funds
    && (rest > 0 ==> ctx.innerAccepts && rest <= if feeAddress == msg.sender then funds else funds - charge)
  }

  /** The state after a transfer that took this charge and forwarded this rest. */
  ghost predicate Transferred(s: State, s': State, msg: Msg, ctx: Context, feeAddress: bytes, charge: int, rest: int) {
    && s'.config == s.config
    && (forall a, d :: Balance(s'.bank, a, d)
                       == Balance(s.bank, a, d) + TransferMoves(msg, feeAddress, charge, rest, a, d))
  }

  lemma FeeMoves(s: State, msg: Msg, ctx: Context, feeAddress: bytes, charge: int, rest: int)
    requires 0 <= charge <= Balance(s.bank, User(msg.sender), msg.token.denom)
    requires FindChannel(s.config, msg.sourceChannel).Some?
    requires FindChannel(s.config, msg.sourceChannel).value.feeAddress == feeAddress
    ensures TakeFee(s, msg, charge).Some?
    ensures rest > 0 ==> (Forward(TakeFee(s, msg, charge).value, msg, rest, ctx).Some?
                          <==> CanPay(s, msg, ctx, feeAddress, charge, rest))
  {
    SendEffect(s.bank, User(msg.sender), User(feeAddress), Coin(msg.token.denom, charge),
               User(msg.sender), msg.token.denom);
  }

  lemma BothMove(s: State, msg: Msg, ctx: Context, feeAddress: bytes, charge: int, rest: int, a: Account, d: bytes)
    requires FindChannel(s.config, msg.sourceChannel).Some?
    requires FindChannel(s.config, msg.sourceChannel).value.feeAddress == feeAddress
    requires TakeFee(s, msg, charge).Some?
    ensures Balance(TakeFee(s, msg, charge).value, a, d)
            == Balance(s.bank, a, d) + TransferMoves(msg, feeAddress, charge, 0, a, d)
    ensures var bank := Forward(TakeFee(s, msg, charge).value, msg, rest, ctx);
            bank.Some? ==> Balance(bank.value, a, d)
                           == Balance(s.bank, a, d) + TransferMoves(msg, feeAddress, charge, rest, a, d)
  {
    var bank := TakeFee(s, msg, charge).value;
    SendEffect(s.bank, User(msg.sender), User(feeAddress), Coin(msg.token.denom, charge), a, d);
    if Forward(bank, msg, rest, ctx).Some? {
      SendEffect(bank, User(msg.sender), Escrow(msg.sourceChannel), Coin(msg.token.denom, rest), a, d);
    }
  }

  lemma ConfiguredCharge(s: State, msg: Msg, ctx: Context, k: int, t: int, extra: int, taken: int)
    requires FirstChannel(s.config, msg.sourceChannel, k)
    requires FirstToken(s.config[k].allowedTokens, msg.token.denom, t)
    requires var item := s.config[k].allowedTokens[t];
             && Adds(item, msg.priority, extra)
             && Takes(item.percentage, msg.token.amount - Min(msg.token.amount, item.minFee.amount + extra), taken)
    ensures var (fee, item) := (s.config[k], s.config[k].allowedTokens[t]);
            var charge := Min(msg.token.amount, item.minFee.amount + extra) + taken;
            Charge(s, msg, ctx)
            == if TooSoon(fee, msg, ctx) || !ctx.decodes(msg.sender) || !ctx.decodes(fee.feeAddress) then None
               else Some(Split(charge, msg.token.amount - charge))
  {
    var (fee, item) := (s.config[k], s.config[k].allowedTokens[t]);
    FindChannelExact(s.config, msg.sourceChannel, k);
    FindTokenExact(fee.allowedTokens, msg.token.denom, t);
    ServerSplitExact(item, msg.priority, msg.token.amount, extra, taken);
    assert TimeoutOk(fee, msg, ctx.blockTime) <==> !TooSoon(fee, msg, ctx);
  }

  lemma ChargedTransfer(s: State, msg: Msg, ctx: Context, feeAddress: bytes, charge: int, rest: int)
    requires Charge(s, msg, ctx) == Some(Split(charge, rest))
    requires FindChannel(s.config, msg.sourceChannel).Some?
    requires FindChannel(s.config, msg.sourceChannel).value.feeAddress == feeAddress
    ensures var (s', outcome) := TransferStep(s, msg, ctx);
            if !CanPay(s, msg, ctx, feeAddress, charge, rest) then outcome == Refused && s' == s
            else if rest <= 0 then
              && outcome == AllCharged && s'.records == s.records
              && Transferred(s, s', msg, ctx, feeAddress, charge, 0)
            else
              && outcome == Sent(Packet(msg.sourceChannel, ctx.sequence, msg.sender, Coin(msg.token.denom, rest)))
              && s'.records
                 == (if charge == 0 then s.records else s.records[ctx.sequence := Coin(msg.token.denom, charge)])
              && Transferred(s, s', msg, ctx, feeAddress, charge, rest)
  {
    if 0 <= charge <= Balance(s.bank, User(msg.sender), msg.token.denom) {
      FeeMoves(s, msg, ctx, feeAddress, charge, rest);
      forall a, d
        ensures Balance(TakeFee(s, msg, charge).value, a, d)
                == Balance(s.bank, a, d) + TransferMoves(msg, feeAddress, charge, 0, a, d)
        ensures var bank := Forward(TakeFee(s, msg, charge).value, msg, rest, ctx);
                bank.Some? ==> Balance(bank.value, a, d)
                               == Balance(s.bank, a, d) + TransferMoves(msg, feeAddress, charge, rest, a, d)
      {
        BothMove(s, msg, ctx, feeAddress, charge, rest, a, d);
      }
    }
  }

  /**
   A transfer over a configured channel of a token it allows. The first entries of the channel and of the token
   count. The charge is the minimum fee and what the priority adds, as far as the amount goes, and what the percentage
   takes off the rest. It is refused, without effect, exactly if its timeout is nearer than configured, an address
   does not decode, or the sender cannot pay; if nothing is left to forward, the charge is all that moves; otherwise
   the rest goes to escrow in a packet, and the charge is recorded under the packet's sequence unless it is zero.
   */
  lemma ConfiguredTransfer(s: State, msg: Msg, ctx: Context, k: int, t: int, extra: int, taken: int)
    requires FirstChannel(s.config, msg.sourceChannel, k)
    requires FirstToken(s.config[k].allowedTokens, msg.token.denom, t)
    requires var item := s.config[k].allowedTokens[t];
             && Adds(item, msg.priority, extra)
             && Takes(item.percentage, msg.token.amount - Min(msg.token.amount, item.minFee.amount + extra), taken)
    ensures var (fee, item) := (s.config[k], s.config[k].allowedTokens[t]);
            var charge := Min(msg.token.amount, item.minFee.amount + extra) + taken;
            var rest := msg.token.amount - charge;
            var (s', outcome) := TransferStep(s, msg, ctx);
            if || TooSoon(fee, msg, ctx) || !ctx.decodes(msg.sender) || !ctx.decodes(fee.feeAddress)
               || !CanPay(s, msg, ctx, fee.feeAddress, charge, rest)
            then outcome == Refused && s' == s
            else if rest <= 0 then
              && outcome == AllCharged && s'.records == s.records
              && Transferred(s, s', msg, ctx, fee.feeAddress, charge, 0)
            else
              && outcome == Sent(Packet(msg.sourceChannel, ctx.sequence, msg.sender, Coin(msg.token.denom, rest)))
              && s'.records
                 == (if charge == 0 then s.records else s.records[ctx.sequence := Coin(msg.token.denom, charge)])
              && Transferred(s, s', msg, ctx, fee.feeAddress, charge, rest)
  {
    var (fee, item) := (s.config[k], s.config[k].allowedTokens[t]);
    var charge := Min(msg.token.amount, item.minFee.amount + extra) + taken;
    ConfiguredCharge(s, msg, ctx, k, t, extra, taken);
    FindChannelExact(s.config, msg.sourceChannel, k);
    if !TooSoon(fee, msg, ctx) && ctx.decodes(msg.sender) && ctx.decodes(fee.feeAddress) {
      ChargedTransfer(s, msg, ctx, fee.feeAddress, charge, msg.token.amount - charge);
    }
  }

  /** A token the channel's configuration does not list is refused without effect. */
  lemma UnlistedTransfer(s: State, msg: Msg, ctx: Context, k: int)
    requires FirstChannel(s.config, msg.sourceChannel, k)
    requires forall j :: 0 <= j < |s.config[k].allowedTokens| ==>
               s.config[k].allowedTokens[j].minFee.denom != msg.token.denom
    ensures TransferStep(s, msg, ctx) == (s, Refused)
  {
    FindChannelExact(s.config, msg.sourceChannel, k);
    FindTokenExact(s.config[k].allowedTokens, msg.token.denom, 0);
  }

  /** Over a channel without a configuration the whole amount is forwarded, without a fee and without a record. */
  lemma UnconfiguredTransfer(s: State, msg: Msg, ctx: Context)
    requires NoChannel(s.config, msg.sourceChannel)
    ensures var (s', outcome) := TransferStep(s, msg, ctx);
            if ctx.innerAccepts && 0 <= msg.token.amount <= Balance(s.bank, User(msg.sender), msg.token.denom) then
              && outcome == Sent(Packet(msg.sourceChannel, ctx.sequence, msg.sender, msg.token))
              && s'.records == s.records && Transferred(s, s', msg, ctx, [], 0, msg.token.amount)
            else outcome == Refused && s' == s
  {
    FindChannelExact(s.config, msg.sourceChannel, 0);
    var bank := Forward(s.bank, msg, msg.token.amount, ctx);
    if bank.Some? {
      forall a, d
        ensures Balance(bank.value, a, d)
                == Balance(s.bank, a, d) + TransferMoves(msg, [], 0, msg.token.amount, a, d)
      {
        SendEffect(s.bank, User(msg.sender), Escrow(msg.sourceChannel), msg.token, a, d);
      }
    }
  }

  // ---------------------------------------------------------------- packets that come back

  /** Escrow holds the token, the sender decodes, and a parachain token's sender is not overdrawn in it. */
  predicate GivesBack(bank: Balances, p: Packet, decodes: bytes -> bool, native: Option<bytes>) {
    && 0 <= p.token.amount <= Balance(bank, Escrow(p.channel), p.token.denom) && decodes(p.sender)
    && (native.Some? ==> Balance(bank, User(p.sender), p.token.denom) >= 0)
  }

  /** What giving the token back moves: to the sender as it was, or as its native denomination and into escrow again. */
  function TokenMoves(p: Packet, native: Option<bytes>, a: Account, d: bytes): int {
    if native.Some? then if a == User(p.sender) && d == native.value then p.token.amount else 0
    else if d != p.token.denom then 0
    else (if a == User(p.sender) then p.token.amount else 0) - (if a == Escrow(p.channel) then p.token.amount else 0)
  }

  lemma UnsendExact(bank: Balances, p: Packet, decodes: bytes -> bool, native: Option<bytes>)
    ensures Unsend(bank, p, decodes, native).Some? <==> GivesBack(bank, p, decodes, native)
    ensures GivesBack(bank, p, decodes, native) ==>
              forall a, d :: Balance(Unsend(bank, p, decodes, native).value, a, d)
                             == Balance(bank, a, d) + TokenMoves(p, native, a, d)
  {
    if GiveBack(bank, p).Some? {
      SendEffect(bank, Escrow(p.channel), User(p.sender), p.token, User(p.sender), p.token.denom);
    }
    if Unsend(bank, p, decodes, native).Some? {
      forall a, d
        ensures Balance(Unsend(bank, p, decodes, native).value, a, d)
                == Balance(bank, a, d) + TokenMoves(p, native, a, d)
      {
        UnsendEffect(bank, p, decodes, native, a, d);
      }
    }
  }

  /** No sequence but this one loses its record. */
  ghost predicate RecordGone(s: State, s': State, sequence: uint64) {
    && sequence !in s'.records
    && (forall n :: n in s.records && n != sequence ==> n in s'.records && s'.records[n] == s.records[n])
    && (forall n :: n in s'.records ==> n in s.records)
  }

  /**
   An acknowledgement ends the packet's fee record and nobody else's, whether it reports success or an error. One of
   success moves nothing; one of an error gives the token back, and the callback fails without effect exactly if that
   is not possible.
   */
  lemma AcknowledgeExact(s: State, p: Packet, success: bool, decodes: bytes -> bool, native: Option<bytes>)
    ensures var (s', ok) := Acknowledge(s, p, success, decodes, native);
            && (ok <==> success || GivesBack(s.bank, p, decodes, native))
            && (if !ok then s' == s
                else
                  && RecordGone(s, s', p.sequence) && s'.config == s.config
                  && (success ==> s'.bank == s.bank)
                  && (!success ==> forall a, d :: Balance(s'.bank, a, d)
                                                  == Balance(s.bank, a, d) + TokenMoves(p, native, a, d)))
  {
    UnsendExact(s.bank, p, decodes, native);
  }

  /** The first entry of the channel names this fee address, or no entry does and it is empty. */
  predicate FeeGoesTo(config: seq<ChannelFee>, channel: bytes, k: int, address: bytes) {
    if FirstChannel(config, channel, k) then address == config[k].feeAddress
    else NoChannel(config, channel) && address == []
  }

  /** The recorded fee can be paid from the fee address once the token was given back. */
  predicate CanRefund(s: State, p: Packet, decodes: bytes -> bool, native: Option<bytes>, address: bytes) {
    && p.sequence in s.records && address != [] && decodes(address)
    && var coin := s.records[p.sequence];
       0 <= coin.amount
       <= Balance(s.bank, User(address), coin.denom) + TokenMoves(p, native, User(address), coin.denom)
  }

  /**
   A timeout fails without effect exactly if the token cannot be given back; otherwise the token is, and the recorded
   fee too exactly if there is one and the channel's present fee address is known, decodes and holds it. Only then
   the record ends.
   */
  lemma TimeoutExact(s: State, p: Packet, decodes: bytes -> bool, native: Option<bytes>, k: int, address: bytes)
    requires FeeGoesTo(s.config, p.channel, k, address)
    ensures var (s', r) := Timeout(s, p, decodes, native);
            if !GivesBack(s.bank, p, decodes, native) then r == Failed && s' == s
            else if !CanRefund(s, p, decodes, native, address) then
              && r == NoRefund && s'.records == s.records && s'.config == s.config
              && forall a, d :: Balance(s'.bank, a, d) == Balance(s.bank, a, d) + TokenMoves(p, native, a, d)
            else
              var coin := s.records[p.sequence];
              && r == Refunded(coin) && RecordGone(s, s', p.sequence) && s'.config == s.config
              && forall a, d :: Balance(s'.bank, a, d)
                                == Balance(s.bank, a, d) + TokenMoves(p, native, a, d)
                                   + (if d == coin.denom && a == User(p.sender) then coin.amount else 0)
                                   - (if d == coin.denom && a == User(address) then coin.amount else 0)
  {
    FindChannelExact(s.config, p.channel, k);
    UnsendExact(s.bank, p, decodes, native);
    if GivesBack(s.bank, p, decodes, native) && CanRefund(s, p, decodes, native, address) {
      var (bank, coin) := (Unsend(s.bank, p, decodes, native).value, s.records[p.sequence]);
      forall a, d
        ensures Balance(SendCoins(bank, User(address), User(p.sender), coin).value, a, d)
                == Balance(bank, a, d) + (if d == coin.denom && a == User(p.sender) then coin.amount else 0)
                   - (if d == coin.denom && a == User(address) then coin.amount else 0)
      {
        SendEffect(bank, User(address), User(p.sender), coin, a, d);
      }
    }
  }
}
