/** The rate limiter's keeper over its stores (x/ratelimit/keeper/rate_limit.go). */
module RateLimitKeeper {
  import opened Wrappers
  import opened Bytes
  import opened KeyOrder
  import opened Denoms
  import opened RateLimitTypes
  import opened RateLimitSpec

  class Keeper {
    var limits: map<bytes, RateLimit>
    var pending: set<bytes>
    var whitelist: map<bytes, AddressPair>
    const tokens: Tokens
    const rules: TraceRules

    function Abs(): State
      reads this
    {
      State(limits, pending, whitelist)
    }

    constructor (tokens: Tokens, rules: TraceRules)
      ensures Abs() == State(map[], {}, map[]) && this.tokens == tokens && this.rules == rules
    {
      limits, pending, whitelist := map[], {}, map[];
      this.tokens, this.rules := tokens, rules;
    }

    method GetRateLimit(denom: bytes, channelId: bytes) returns (rateLimit: Option<RateLimit>)
      ensures rateLimit.Some? <==> LimitKey(denom, channelId) in limits
      ensures rateLimit.Some? ==> rateLimit.value == limits[LimitKey(denom, channelId)]
    {
      var key := LimitKey(denom, channelId);
      if key !in limits {
        return None;
      }
      return Some(limits[key]);
    }

    method SetRateLimit(rateLimit: RateLimit)
      modifies this`limits
      ensures Abs() == SetLimit(old(Abs()), rateLimit)
    {
      limits := limits[LimitKey(rateLimit.path.denom, rateLimit.path.channelId) := rateLimit];
    }

    method IsAddressPairWhitelisted(sender: bytes, receiver: bytes) returns (found: bool)
      ensures found <==> AddressPair(sender, receiver).Key() in whitelist
    {
      found := sender + receiver in whitelist;
    }

    method SetWhitelistedAddressPair(pair: AddressPair)
      modifies this`whitelist
      ensures whitelist == old(whitelist)[pair.Key() := pair]
    {
      whitelist := whitelist[pair.sender + pair.receiver := pair];
    }

    method RemoveWhitelistedAddressPair(sender: bytes, receiver: bytes)
      modifies this`whitelist
      ensures whitelist == old(whitelist) - {AddressPair(sender, receiver).Key()}
    {
      whitelist := whitelist - {sender + receiver};
    }

    /** The flow is read into memory, updated there, and stored only when the quota allows it. */
    method CheckRateLimitAndUpdateFlow(direction: Direction, info: PacketInfo) returns (r: Result<bool, Error>)
      modifies this`limits
      ensures (Abs(), r) == Check(old(Abs()), direction, info)
    {
      var found := GetRateLimit(info.denom, info.channelId);
      if found.None? {
        return Ok(false);
      }
      var rateLimit := found.value;
      var exempt := IsAddressPairWhitelisted(info.sender, info.receiver);
      if exempt {
        return Ok(false);
      }
      var flow := new Flow(rateLimit.flow);
      var ok: bool;
      match direction {
        case PacketSend => ok := flow.AddOutflow(info.amount, rateLimit.quota, rateLimit.minRateLimitAmount);
        case PacketRecv => ok := flow.AddInflow(info.amount, rateLimit.quota, rateLimit.minRateLimitAmount);
      }
      if !ok {
        return Err(QuotaExceeded);
      }
      SetRateLimit(rateLimit.(flow := flow.Value()));
      return Ok(true);
    }

    method UndoSendPacket(channelId: bytes, sequence: uint64, denom: bytes, amount: int)
      modifies this`limits, this`pending
      ensures forall info: PacketInfo ::
        info.channelId == channelId && info.denom == denom && info.amount == amount
        ==> Abs() == Undo(old(Abs()), info, sequence)
    {
      var found := GetRateLimit(denom, channelId);
      if found.None? {
        return;
      }
      var sent := CheckPacketSentDuringCurrentQuota(channelId, sequence);
      if sent {
        var flow := found.value.flow;
        SetRateLimit(found.value.(flow := flow.(outflow := flow.outflow - amount)));
        RemovePendingSendPacket(channelId, sequence);
      }
    }

    method ResetRateLimit(bank: Bank, denom: bytes, channelId: bytes) returns (r: Result<(), Error>)
      modifies this`limits, this`pending
      ensures (Abs(), r) == Reset(old(Abs()), tokens, bank, denom, channelId)
    {
      var d := denom;
      if d in tokens && channelId == tokens[d].channelId {
        d := tokens[d].ibcDenom;
      }
      var found := GetRateLimit(d, channelId);
      if found.None? {
        return Err(RateLimitNotFound);
      }
      SetRateLimit(found.value.(flow := FlowValue(0, 0, Supply(bank, d))));
      RemoveAllChannelPendingSendPackets(channelId);
      return Ok(());
    }

    method AddRateLimit(bank: Bank, msg: LimitMsg) returns (r: Result<(), Error>)
      modifies this`limits
      ensures (Abs(), r) == Add(old(Abs()), tokens, bank, msg)
    {
      var d := Resolve(tokens, msg.denom, msg.channelId);
      if Supply(bank, d) == 0 {
        return Err(ZeroChannelValue);
      }
      var found := GetRateLimit(d, msg.channelId);
      if found.Some? {
        return Err(RateLimitAlreadyExists);
      }
      SetRateLimit(RateLimit(
        Path(d, msg.channelId), msg.ToQuota(), FlowValue(0, 0, Supply(bank, d)), msg.minRateLimitAmount));
      return Ok(());
    }

    method UpdateRateLimit(bank: Bank, msg: LimitMsg) returns (r: Result<(), Error>)
      modifies this`limits
      ensures (Abs(), r) == Update(old(Abs()), tokens, bank, msg)
    {
      var d := Resolve(tokens, msg.denom, msg.channelId);
      var found := GetRateLimit(d, msg.channelId);
      if found.None? {
        return Err(RateLimitNotFound);
      }
      SetRateLimit(RateLimit(
        Path(d, msg.channelId), msg.ToQuota(), FlowValue(0, 0, Supply(bank, d)), msg.minRateLimitAmount));
      return Ok(());
    }

    method RemoveRateLimit(denom: bytes, channelId: bytes) returns (r: Result<(), Error>)
      modifies this`limits
      ensures (Abs(), r) == Remove(old(Abs()), tokens, denom, channelId)
    {
      var d := Resolve(tokens, denom, channelId);
      var found := GetRateLimit(d, channelId);
      if found.None? {
        return Err(RateLimitNotFound);
      }
      limits := limits - {LimitKey(d, channelId)};
      return Ok(());
    }

    method GetAllRateLimits() returns (all: seq<RateLimit>)
      ensures all == InKeyOrder(limits)
    {
      all := CollectInKeyOrder(limits);
    }

    method GetAllWhitelistedAddressPairs() returns (all: seq<AddressPair>)
      ensures all == InKeyOrder(whitelist)
    {
      all := CollectInKeyOrder(whitelist);
    }

    method SetPendingSendPacket(channelId: bytes, sequence: uint64)
      modifies this`pending
      ensures pending == old(pending) + {PendingKey(channelId, sequence)}
    {
      var key := GetPendingSendPacketKey(channelId, sequence);
      pending := pending + {key};
    }

    method RemovePendingSendPacket(channelId: bytes, sequence: uint64)
      modifies this`pending
      ensures pending == old(pending) - {PendingKey(channelId, sequence)}
    {
      var key := GetPendingSendPacketKey(channelId, sequence);
      pending := pending - {key};
    }

    method CheckPacketSentDuringCurrentQuota(channelId: bytes, sequence: uint64) returns (found: bool)
      ensures found <==> PendingKey(channelId, sequence) in pending
    {
      var key := GetPendingSendPacketKey(channelId, sequence);
      found := key in pending;
    }

    /** Deletes the keys a prefix iterator yields, one at a time. */
    method RemoveAllChannelPendingSendPackets(channelId: bytes)
      modifies this`pending
      ensures Abs() == Unmark(old(Abs()), channelId)
    {
      var keys := SortedKeys(set k | k in pending && channelId <= k);
      for i := 0 to |keys|
        invariant forall k :: k in pending <==> k in old(pending) && k !in keys[..i]
      {
        pending := pending - {keys[i]};
        assert keys[..i + 1] == keys[..i] + [keys[i]];
      }
      assert keys[..|keys|] == keys;
      assert pending == Unmark(old(Abs()), channelId).pending;
    }

    // -------------------------------------------------------------- packet steps (packet.go)

    method SendRateLimitedPacket(packet: Packet) returns (r: Result<(), Error>)
      modifies this`limits, this`pending
      ensures match ParsePacketInfo(rules, packet, PacketSend)
              case Err(_) => r == Err(InvalidPacket) && Abs() == old(Abs())
              case Ok(info) =>
                var (s, sent) := Send(old(Abs()), info, packet.sequence);
                Abs() == s && r == (if sent.Ok? then Ok(()) else Err(sent.error))
    {
      var parsed := ParsePacketInfo(rules, packet, PacketSend);
      if parsed.Err? {
        return Err(InvalidPacket);
      }
      var updated := CheckRateLimitAndUpdateFlow(PacketSend, parsed.value);
      if updated.Err? {
        return Err(updated.error);
      }
      if updated.value {
        SetPendingSendPacket(parsed.value.channelId, packet.sequence);
      }
      return Ok(());
    }

    method ReceiveRateLimitedPacket(packet: Packet) returns (r: Result<(), Error>)
      modifies this`limits
      ensures match ParsePacketInfo(rules, packet, PacketRecv)
              case Err(_) => r == Err(InvalidPacket) && Abs() == old(Abs())
              case Ok(info) =>
                var (s, received) := Check(old(Abs()), PacketRecv, info);
                Abs() == s && r == (if received.Ok? then Ok(()) else Err(received.error))
    {
      var parsed := ParsePacketInfo(rules, packet, PacketRecv);
      if parsed.Err? {
        return Err(InvalidPacket);
      }
      var updated := CheckRateLimitAndUpdateFlow(PacketRecv, parsed.value);
      if updated.Err? {
        return Err(updated.error);
      }
      return Ok(());
    }

    method AcknowledgeRateLimitedPacket(packet: Packet, ack: Acknowledgement) returns (r: Result<(), Error>)
      modifies this`limits, this`pending
      ensures match ParsePacketInfo(rules, packet, PacketSend)
              case Err(_) => r == Err(InvalidPacket) && Abs() == old(Abs())
              case Ok(info) =>
                match ack
                case Malformed => r == Err(InvalidAcknowledgement) && Abs() == old(Abs())
                case AckResult(result) =>
                  if result == [] then r == Err(InvalidAcknowledgement) && Abs() == old(Abs())
                  else r == Ok(()) && Abs() == Settle(old(Abs()), info, packet.sequence)
                case AckError => r == Ok(()) && Abs() == Undo(old(Abs()), info, packet.sequence)
    {
      var parsed := ParsePacketInfo(rules, packet, PacketSend);
      if parsed.Err? {
        return Err(InvalidPacket);
      }
      var info := parsed.value;
      match ack {
        case Malformed =>
          return Err(InvalidAcknowledgement);
        case AckResult(result) =>
          if |result| == 0 {
            return Err(InvalidAcknowledgement);
          }
          RemovePendingSendPacket(info.channelId, packet.sequence);
          return Ok(());
        case AckError =>
          UndoSendPacket(info.channelId, packet.sequence, info.denom, info.amount);
          return Ok(());
      }
    }

    method TimeoutRateLimitedPacket(packet: Packet) returns (r: Result<(), Error>)
      modifies this`limits, this`pending
      ensures match ParsePacketInfo(rules, packet, PacketSend)
              case Err(_) => r == Err(InvalidPacket) && Abs() == old(Abs())
              case Ok(info) => r == Ok(()) && Abs() == Undo(old(Abs()), info, packet.sequence)
    {
      var parsed := ParsePacketInfo(rules, packet, PacketSend);
      if parsed.Err? {
        return Err(InvalidPacket);
      }
      UndoSendPacket(parsed.value.channelId, packet.sequence, parsed.value.denom, parsed.value.amount);
      return Ok(());
    }
  }

  /** A decoded acknowledgement: undecodable, a result, or anything else. */
  datatype Acknowledgement = Malformed | AckResult(result: bytes) | AckError
}
