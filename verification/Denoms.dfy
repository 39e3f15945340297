/**
 The denomination and channel a transfer packet is counted under (x/ratelimit/keeper/packet.go), and the
 hook module's own reading of a received packet (x/ibc-hooks/utils.go).

 JSON decoding and the SHA-256 trace hash are not part of this model: a packet carries its decoded data, or
 None where decoding fails, and the trace parser and the hash are parameters.
 */
module Denoms {
  import opened Wrappers
  import opened Bytes

  /** An ICS-20 trace: an empty path means the token is native. */
  datatype DenomTrace = DenomTrace(path: bytes, base: bytes) {
    function FullPath(): bytes {
      if path == [] then base else path + [SLASH] + base
    }
  }

  datatype TraceRules = TraceRules(parse: bytes -> DenomTrace, hash: bytes -> bytes) {
    function IBCDenom(trace: DenomTrace): bytes {
      if trace.path == [] then trace.base else hash(trace.FullPath())
    }

    /** A denomination without a path is all base. */
    ghost predicate NativeIsWhole() {
      forall d: bytes :: parse(d).path == [] ==> parse(d).base == d
    }

    predicate Native(d: bytes) {
      parse(d).path == []
    }

    /**
     The hash keeps these two denominations apart: it differs on them, and a native one is not the hash of the
     other. Nothing is asked of any other denomination.
     */
    predicate Apart(d: bytes, d': bytes) {
      && hash(parse(d).FullPath()) != hash(parse(d').FullPath())
      && (Native(d') ==> hash(parse(d).FullPath()) != d')
      && (Native(d) ==> hash(parse(d').FullPath()) != d)
    }
  }

  datatype TransferData = TransferData(denom: bytes, amount: Option<int>, sender: bytes, receiver: bytes)

  datatype Packet = Packet(
    sourcePort: bytes, sourceChannel: bytes,
    destPort: bytes, destChannel: bytes,
    sequence: uint64, data: Option<TransferData>)

  datatype Direction = PacketSend | PacketRecv

  datatype PacketInfo = PacketInfo(channelId: bytes, denom: bytes, amount: int, sender: bytes, receiver: bytes)

  datatype ParseError = BadData | BadAmount

  function DenomPrefix(port: bytes, channel: bytes): bytes {
    port + [SLASH] + channel + [SLASH]
  }

  predicate ReceiverChainIsSource(port: bytes, channel: bytes, denom: bytes) {
    DenomPrefix(port, channel) <= denom
  }

  function ParseDenomFromSendPacket(rules: TraceRules, data: TransferData): bytes {
    var trace := rules.parse(data.denom);
    if trace.path == [] then data.denom else rules.IBCDenom(trace)
  }

  function ParseDenomFromRecvPacket(rules: TraceRules, packet: Packet, data: TransferData): bytes {
    if ReceiverChainIsSource(packet.sourcePort, packet.sourceChannel, data.denom) then
      var unprefixed := data.denom[|DenomPrefix(packet.sourcePort, packet.sourceChannel)|..];
      var trace := rules.parse(unprefixed);
      if trace.path == [] then unprefixed else rules.IBCDenom(trace)
    else
      rules.IBCDenom(rules.parse(DenomPrefix(packet.destPort, packet.destChannel) + data.denom))
  }

  function ParsePacketInfo(rules: TraceRules, packet: Packet, direction: Direction): Result<PacketInfo, ParseError> {
    match packet.data
    case None => Err(BadData)
    case Some(data) =>
      var channel := if direction.PacketSend? then packet.sourceChannel else packet.destChannel;
      var denom := if direction.PacketSend? then ParseDenomFromSendPacket(rules, data)
                   else ParseDenomFromRecvPacket(rules, packet, data);
      match data.amount
      case None => Err(BadAmount)
      case Some(amount) => Ok(PacketInfo(channel, denom, amount, data.sender, data.receiver))
  }

  /** The hook module's copy of the receive-side rule. */
  function MustExtractDenomFromPacketOnRecv(rules: TraceRules, packet: Packet): Option<bytes> {
    match packet.data
    case None => None
    case Some(data) =>
      Some(
        if ReceiverChainIsSource(packet.sourcePort, packet.sourceChannel, data.denom) then
          var unprefixed := data.denom[|DenomPrefix(packet.sourcePort, packet.sourceChannel)|..];
          var trace := rules.parse(unprefixed);
          if trace.path != [] then rules.IBCDenom(trace) else unprefixed
        else
          rules.IBCDenom(rules.parse(DenomPrefix(packet.destPort, packet.destChannel) + data.denom)))
  }

  // ---------------------------------------------------------------- properties

  /** The denomination under which this chain's bank holds the token with the given full trace. */
  function LocalDenom(rules: TraceRules, fullPath: bytes): bytes {
    rules.IBCDenom(rules.parse(fullPath))
  }

  /**
   How ICS-20 names a token on its way back: the sender strips its own hop from a token that came from the
   receiver's side of the channel, and otherwise the counterparty's hop has been prepended.
   */
  function ReturnDenom(sent: Packet, denom: bytes): bytes {
    var ownPrefix := DenomPrefix(sent.sourcePort, sent.sourceChannel);
    if ownPrefix <= denom then denom[|ownPrefix|..]
    else DenomPrefix(sent.destPort, sent.destChannel) + denom
  }

  /** The packet that carries the token of `sent` back over the same channel. */
  function ReturnPacket(sent: Packet, data: TransferData, sequence: uint64, amount: int): Packet {
    Packet(sent.destPort, sent.destChannel, sent.sourcePort, sent.sourceChannel, sequence,
           Some(TransferData(ReturnDenom(sent, data.denom), Some(amount), data.receiver, data.sender)))
  }

  /** The side of the channel a token belongs to is recognisable: it is not a loop over the same channel twice. */
  predicate NoImmediateLoop(sent: Packet, denom: bytes) {
    !(DenomPrefix(sent.sourcePort, sent.sourceChannel) + DenomPrefix(sent.destPort, sent.destChannel) <= denom)
  }

  lemma SendDenomIsLocal(rules: TraceRules, data: TransferData)
    requires rules.NativeIsWhole()
    ensures ParseDenomFromSendPacket(rules, data) == LocalDenom(rules, data.denom)
  {
  }

  lemma StrippedPrefix(p: bytes, q: bytes, d: bytes)
    requires p <= d
    ensures q <= d[|p|..] <==> p + q <= d
    ensures d == p + d[|p|..]
  {
    if q <= d[|p|..] {
      assert d == p + (q + d[|p|..][|q|..]);
    }
    if p + q <= d {
      assert d[|p|..][..|q|] == q;
    }
  }

  lemma PrefixOfPrefix(p: bytes, q: bytes, d: bytes)
    ensures p + q <= d ==> p <= d
  {
    if p + q <= d {
      assert d[..|p|] == (p + q)[..|p|] == p;
    }
  }

  /**
   A token sent over a channel and returned over it is counted under the same rate-limit path both ways,
   except for a trace that crosses the channel twice in a row; such a token agrees only where its bank
   denomination happens to equal that of the trace with both hops removed.
   */
  lemma RoundTripPath(rules: TraceRules, sent: Packet, data: TransferData, sequence: uint64, amount: int, returned: int)
    requires rules.NativeIsWhole()
    requires sent.data == Some(data) && data.amount == Some(amount)
    ensures var out := ParsePacketInfo(rules, sent, PacketSend);
            var back := ParsePacketInfo(rules, ReturnPacket(sent, data, sequence, returned), PacketRecv);
            var own := DenomPrefix(sent.sourcePort, sent.sourceChannel);
            var hops := |own| + |DenomPrefix(sent.destPort, sent.destChannel)|;
            out.Ok? && back.Ok? && out.value.channelId == back.value.channelId
            && (out.value.denom == back.value.denom <==>
                NoImmediateLoop(sent, data.denom)
                || LocalDenom(rules, data.denom) == LocalDenom(rules, data.denom[hops..]))
  {
    var own, theirs := DenomPrefix(sent.sourcePort, sent.sourceChannel), DenomPrefix(sent.destPort, sent.destChannel);
    var d := data.denom;
    var d' := ReturnDenom(sent, d);
    var data' := TransferData(d', Some(returned), data.receiver, data.sender);
    SendDenomIsLocal(rules, data);
    if own <= d {
      StrippedPrefix(own, theirs, d);
      if theirs <= d' {
        SendDenomIsLocal(rules, data'.(denom := d'[|theirs|..]));
        assert d'[|theirs|..] == d[|own + theirs|..];
      } else {
        assert own + d' == d;
      }
    } else {
      PrefixOfPrefix(own, theirs, d);
      assert d'[|theirs|..] == d;
      SendDenomIsLocal(rules, data');
    }
  }

  function Hops(sent: Packet): nat {
    |DenomPrefix(sent.sourcePort, sent.sourceChannel)| + |DenomPrefix(sent.destPort, sent.destChannel)|
  }

  /**
   Both ways are counted under the same path exactly if the trace does not cross the channel twice in a row, as
   long as the hash keeps such a trace apart from the one with both hops removed.
   */
  lemma RoundTripPathExact(
    rules: TraceRules, sent: Packet, data: TransferData, sequence: uint64, amount: int, returned: int)
    requires rules.NativeIsWhole()
    requires sent.data == Some(data) && data.amount == Some(amount)
    requires !NoImmediateLoop(sent, data.denom) ==> rules.Apart(data.denom, data.denom[Hops(sent)..])
    ensures var out := ParsePacketInfo(rules, sent, PacketSend);
            var back := ParsePacketInfo(rules, ReturnPacket(sent, data, sequence, returned), PacketRecv);
            out.Ok? && back.Ok? && out.value.channelId == back.value.channelId
            && (out.value.denom == back.value.denom <==> NoImmediateLoop(sent, data.denom))
  {
    RoundTripPath(rules, sent, data, sequence, amount, returned);
    if !NoImmediateLoop(sent, data.denom) {
      assert |data.denom[Hops(sent)..]| < |data.denom|;
    }
  }

  // ---------------------------------------------------------------- a token that crosses a channel twice

  function TwiceOver(sent: Packet, base: bytes): bytes {
    DenomPrefix(sent.sourcePort, sent.sourceChannel) + (DenomPrefix(sent.destPort, sent.destChannel) + base)
  }

  /** The parser takes the base as native and the base behind two hops as not, whose hash is another name. */
  predicate HashedBehindTwoHops(rules: TraceRules, sent: Packet, base: bytes) {
    var d := TwiceOver(sent, base);
    rules.Native(base) && !rules.Native(d) && rules.hash(rules.parse(d).FullPath()) != base
  }

  /**
   Whatever the parser, the hash, the ports and the channels: a native token of the counterparty that crossed the
   channel twice in a row leaves under the hash of its trace and comes back under its plain name.
   */
  lemma CrossedTwiceIsCountedTwice(
    rules: TraceRules, sent: Packet, base: bytes, data: TransferData, sequence: uint64, amount: int, returned: int)
    requires HashedBehindTwoHops(rules, sent, base)
    requires sent.data == Some(data) && data.denom == TwiceOver(sent, base) && data.amount == Some(amount)
    ensures var out := ParsePacketInfo(rules, sent, PacketSend);
            var back := ParsePacketInfo(rules, ReturnPacket(sent, data, sequence, returned), PacketRecv);
            && out.Ok? && out.value.denom == rules.hash(rules.parse(data.denom).FullPath())
            && back.Ok? && back.value.denom == base
            && out.value.channelId == back.value.channelId && out.value.denom != back.value.denom
  {
    var own, theirs := DenomPrefix(sent.sourcePort, sent.sourceChannel), DenomPrefix(sent.destPort, sent.destChannel);
    assert own <= data.denom && data.denom[|own|..] == theirs + base;
    assert theirs <= theirs + base && (theirs + base)[|theirs|..] == base;
  }

  /** The bytes after the last slash. */
  function BaseLength(d: bytes): (n: nat)
    ensures n <= |d|
  {
    if d == [] || d[|d| - 1] == SLASH then 0 else 1 + BaseLength(d[..|d| - 1])
  }

  /** The path up to the last slash, the base after it; a name without a path is native. */
  function SplitAtLastSlash(d: bytes): DenomTrace {
    var n := BaseLength(d);
    if |d| - n <= 1 then DenomTrace([], d) else DenomTrace(d[..|d| - n - 1], d[|d| - n..])
  }

  function PlainHash(x: bytes): bytes {
    [105, 98, 99, SLASH] + x
  }

  const PLAIN_RULES: TraceRules := TraceRules(SplitAtLastSlash, PlainHash)

  lemma {:induction false} BaseAfterSlash(path: bytes, base: bytes)
    requires SLASH !in base
    ensures BaseLength(path + [SLASH] + base) == |base|
  {
    var d := path + [SLASH] + base;
    if base == [] {
      assert d[|d| - 1] == SLASH;
    } else {
      assert d[|d| - 1] == base[|base| - 1] && d[..|d| - 1] == path + [SLASH] + base[..|base| - 1];
      BaseAfterSlash(path, base[..|base| - 1]);
    }
  }

  lemma {:induction false} BaseAlone(base: bytes)
    requires SLASH !in base
    ensures BaseLength(base) == |base|
  {
    if base != [] {
      BaseAlone(base[..|base| - 1]);
    }
  }

  /** The parser loses nothing: the path, a slash and the base are the whole name again. */
  lemma SplitIsWhole(d: bytes)
    ensures SplitAtLastSlash(d).FullPath() == d
  {
    var n := BaseLength(d);
    BaseEnds(d);
    if |d| - n > 1 {
      assert d == d[..|d| - n - 1] + [SLASH] + d[|d| - n..];
    }
  }

  lemma {:induction false} BaseEnds(d: bytes)
    ensures BaseLength(d) < |d| ==> d[|d| - BaseLength(d) - 1] == SLASH
  {
    if d != [] && d[|d| - 1] != SLASH {
      BaseEnds(d[..|d| - 1]);
    }
  }

  lemma TwiceOverSplits(sent: Packet, base: bytes)
    requires SLASH !in base
    ensures SplitAtLastSlash(TwiceOver(sent, base)).path != [] && SplitAtLastSlash(base) == DenomTrace([], base)
  {
    var before := DenomPrefix(sent.sourcePort, sent.sourceChannel) + sent.destPort + [SLASH] + sent.destChannel;
    assert TwiceOver(sent, base) == before + [SLASH] + base;
    BaseAfterSlash(before, base);
    BaseAlone(base);
  }

  lemma PlainHashApart(d: bytes, base: bytes)
    requires SLASH !in base && d != base
    ensures PlainHash(d) != PlainHash(base) && PlainHash(d) != base
  {
    assert PlainHash(d)[4..] == d && PlainHash(base)[4..] == base && PlainHash(d)[3] == SLASH;
  }

  /**
   The conditions can be met: these rules meet them for every base without a slash. They hash the whole name of a
   token that is not native.
   */
  lemma PlainRulesHash(sent: Packet, base: bytes)
    requires SLASH !in base
    ensures PLAIN_RULES.NativeIsWhole() && HashedBehindTwoHops(PLAIN_RULES, sent, base)
    ensures PLAIN_RULES.Apart(TwiceOver(sent, base), base)
    ensures LocalDenom(PLAIN_RULES, TwiceOver(sent, base))
            == PlainHash(sent.sourcePort + [SLASH] + sent.sourceChannel + [SLASH]
                         + sent.destPort + [SLASH] + sent.destChannel + [SLASH] + base)
  {
    var d := TwiceOver(sent, base);
    assert d == sent.sourcePort + [SLASH] + sent.sourceChannel + [SLASH]
                + sent.destPort + [SLASH] + sent.destChannel + [SLASH] + base;
    TwiceOverSplits(sent, base);
    SplitIsWhole(d);
    SplitIsWhole(base);
    assert |d| > |base|;
    PlainHashApart(d, base);
  }

  /** The hooks and the rate limiter read the same denomination from every packet that decodes. */
  lemma HookAgreesWithRateLimiter(rules: TraceRules, packet: Packet)
    ensures MustExtractDenomFromPacketOnRecv(rules, packet).Some? <==> packet.data.Some?
    ensures ParsePacketInfo(rules, packet, PacketRecv).Ok? ==>
              MustExtractDenomFromPacketOnRecv(rules, packet)
              == Some(ParsePacketInfo(rules, packet, PacketRecv).value.denom)
  {
  }
}
