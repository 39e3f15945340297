/** Quotas, flows and store keys of the IBC rate limiter (x/ratelimit/types). */
module RateLimitTypes {
  import opened Bytes
  import opened Integers
  import opened Denoms

  datatype Error =
    | InvalidPacket | QuotaExceeded | RateLimitNotFound | RateLimitAlreadyExists | ZeroChannelValue
    | InvalidAcknowledgement | InvalidEpoch | EpochAlreadyExists

  datatype Quota = Quota(maxPercentSend: int, maxPercentRecv: int, durationHours: uint64) {

    function Threshold(direction: Direction, totalValue: int, minRateLimitAmount: int): (t: int)
      ensures t >= minRateLimitAmount
    {
      var percent := if direction.PacketRecv? then maxPercentRecv else maxPercentSend;
      var share := TruncQuo(totalValue * percent, 100);
      if minRateLimitAmount > share then minRateLimitAmount else share
    }

    predicate CheckExceedsQuota(direction: Direction, amount: int, totalValue: int, minRateLimitAmount: int) {
      totalValue != 0 && amount > Threshold(direction, totalValue, minRateLimitAmount)
    }
  }

  /** The quota is exact: no amount slips through the division that rounds its threshold down. */
  lemma QuotaExact(q: Quota, direction: Direction, amount: int, totalValue: nat, minRateLimitAmount: int)
    requires q.maxPercentSend >= 0 && q.maxPercentRecv >= 0
    ensures var percent := if direction.PacketRecv? then q.maxPercentRecv else q.maxPercentSend;
            q.CheckExceedsQuota(direction, amount, totalValue, minRateLimitAmount)
            <==> totalValue != 0 && amount > minRateLimitAmount && 100 * amount > totalValue * percent
  {
    var percent := if direction.PacketRecv? then q.maxPercentRecv else q.maxPercentSend;
    MulMonotone(0, percent, totalValue);
    QuotientOfNatural(totalValue * percent, 100);
  }

  /** A flow as it is stored. */
  datatype FlowValue = FlowValue(inflow: int, outflow: int, channelValue: int) {
    function NetOutflow(): int {
      outflow - inflow
    }
  }

  function NewFlow(channelValue: int): FlowValue {
    FlowValue(0, 0, channelValue)
  }

  /** A flow in memory, updated through a pointer. */
  class Flow {
    var inflow: int
    var outflow: int
    var channelValue: int

    function Value(): FlowValue
      reads this
    {
      FlowValue(inflow, outflow, channelValue)
    }

    constructor (v: FlowValue)
      ensures Value() == v
    {
      inflow, outflow, channelValue := v.inflow, v.outflow, v.channelValue;
    }

    /** Counts the amount unless the net inflow would pass the threshold of a nonzero channel value. */
    method AddInflow(amount: int, quota: Quota, minRateLimitAmount: int) returns (ok: bool)
      modifies this
      ensures ok <==> channelValue == 0
                      || amount - old(Value()).NetOutflow()
                        <= quota.Threshold(PacketRecv, channelValue, minRateLimitAmount)
      ensures Value() == old(Value()).(inflow := if ok then old(inflow) + amount else old(inflow))
    {
      var netInflow := inflow - outflow + amount;
      if quota.CheckExceedsQuota(PacketRecv, netInflow, channelValue, minRateLimitAmount) {
        return false;
      }
      inflow := inflow + amount;
      return true;
    }

    /** Counts the amount unless the net outflow would pass the threshold of a nonzero channel value. */
    method AddOutflow(amount: int, quota: Quota, minRateLimitAmount: int) returns (ok: bool)
      modifies this
      ensures ok <==> channelValue == 0
                      || old(Value()).NetOutflow() + amount
                        <= quota.Threshold(PacketSend, channelValue, minRateLimitAmount)
      ensures Value() == old(Value()).(outflow := if ok then old(outflow) + amount else old(outflow))
    {
      var netOutflow := outflow - inflow + amount;
      if quota.CheckExceedsQuota(PacketSend, netOutflow, channelValue, minRateLimitAmount) {
        return false;
      }
      outflow := outflow + amount;
      return true;
    }
  }

  datatype Path = Path(denom: bytes, channelId: bytes)

  datatype RateLimit = RateLimit(path: Path, quota: Quota, flow: FlowValue, minRateLimitAmount: int) {
    function Key(): bytes {
      LimitKey(path.denom, path.channelId)
    }

    function Threshold(direction: Direction): int {
      quota.Threshold(direction, flow.channelValue, minRateLimitAmount)
    }
  }

  datatype AddressPair = AddressPair(sender: bytes, receiver: bytes) {
    function Key(): bytes {
      sender + receiver
    }
  }

  /** MsgAddRateLimit and MsgUpdateRateLimit carry the same fields. */
  datatype LimitMsg = LimitMsg(
    denom: bytes, channelId: bytes,
    maxPercentSend: int, maxPercentRecv: int, minRateLimitAmount: int, durationHours: uint64)
  {
    /** The numeric part of ValidateBasic. */
    predicate ValidateBasic() {
      && 0 <= maxPercentSend <= 100
      && 0 <= maxPercentRecv <= 100
      && !(maxPercentRecv == 0 && maxPercentSend == 0)
      && minRateLimitAmount > 0
      && durationHours != 0
    }

    function ToQuota(): Quota {
      Quota(maxPercentSend, maxPercentRecv, durationHours)
    }
  }

  // ---------------------------------------------------------------- keys

  const CHANNEL_LENGTH: nat := 16

  const CHANNEL_PREFIX: bytes := [99, 104, 97, 110, 110, 101, 108, 45]  // "channel-"

  /** The channel ids the IBC channel keeper generates. */
  predicate NumberedChannel(s: bytes) {
    CHANNEL_PREFIX < s && AllDigits(s[|CHANNEL_PREFIX|..])
  }

  /** Those that fit the pending-packet key. */
  predicate ChannelId(s: bytes) {
    NumberedChannel(s) && |s| <= CHANNEL_LENGTH
  }

  function LimitKey(denom: bytes, channelId: bytes): bytes {
    denom + channelId
  }

  function PadChannel(channelId: bytes): (s: bytes)
    ensures |s| == CHANNEL_LENGTH
  {
    if |channelId| >= CHANNEL_LENGTH then channelId[..CHANNEL_LENGTH]
    else channelId + Zeros(CHANNEL_LENGTH - |channelId|)
  }

  function PendingKey(channelId: bytes, sequence: uint64): (key: bytes)
    ensures |key| == CHANNEL_LENGTH + 8
  {
    PadChannel(channelId) + BigEndian(sequence, 8)
  }

  /** A copy of the channel id into a zeroed buffer, which cuts a longer id off. */
  method CopyChannel(channelId: bytes) returns (channelBz: array<byte>)
    ensures fresh(channelBz) && channelBz[..] == PadChannel(channelId)
  {
    channelBz := new byte[CHANNEL_LENGTH](i => 0);
    var n := if |channelId| < CHANNEL_LENGTH then |channelId| else CHANNEL_LENGTH;
    for i := 0 to n
      invariant forall j :: 0 <= j < i ==> channelBz[j] == channelId[j]
      invariant forall j :: i <= j < CHANNEL_LENGTH ==> channelBz[j] == 0
    {
      channelBz[i] := channelId[i];
    }
  }

  method PutUint64(sequence: uint64) returns (sequenceBz: array<byte>)
    ensures fresh(sequenceBz) && sequenceBz[..] == BigEndian(sequence, 8)
  {
    sequenceBz := new byte[8](i => 0);
    var rest: nat := sequence;
    for i := 8 downto 0
      invariant BigEndian(sequence, 8) == BigEndian(rest, i) + sequenceBz[i..]
    {
      ghost var tail := sequenceBz[i + 1..];
      assert BigEndian(rest, i + 1) == BigEndian(rest / 256, i) + [rest % 256];
      sequenceBz[i] := rest % 256;
      rest := rest / 256;
      assert sequenceBz[i..] == [sequenceBz[i]] + tail;
    }
  }

  /** The key as the source builds it, from two filled buffers. */
  method GetPendingSendPacketKey(channelId: bytes, sequence: uint64) returns (key: bytes)
    ensures key == PendingKey(channelId, sequence)
  {
    var channelBz := CopyChannel(channelId);
    var sequenceBz := PutUint64(sequence);
    key := channelBz[..] + sequenceBz[..];
  }

  /** A rate-limit key determines its path: the last "channel-" starts the channel id. */
  lemma LimitKeyInjective(denom: bytes, channel: bytes, denom': bytes, channel': bytes)
    requires NumberedChannel(channel) && NumberedChannel(channel')
    requires LimitKey(denom, channel) == LimitKey(denom', channel')
    ensures denom == denom' && channel == channel'
  {
    if |denom| < |denom'| {
      LaterChannelImpossible(denom, channel, denom', channel');
    } else if |denom'| < |denom| {
      LaterChannelImpossible(denom', channel', denom, channel);
    } else {
      assert denom == LimitKey(denom, channel)[..|denom|];
      assert channel == LimitKey(denom, channel)[|denom|..];
    }
  }

  lemma LaterChannelImpossible(denom: bytes, channel: bytes, denom': bytes, channel': bytes)
    requires NumberedChannel(channel) && NumberedChannel(channel')
    requires |denom| < |denom'|
    ensures LimitKey(denom, channel) != LimitKey(denom', channel')
  {
    var key, key' := LimitKey(denom, channel), LimitKey(denom', channel');
    var shift := |denom'| - |denom|;
    if |key| == |key'| {
      var i := if shift < 8 then 8 else shift;
      assert channel[i] == channel[8..][i - 8];
      assert channel'[i - shift] in CHANNEL_PREFIX;
      assert key[|denom| + i] == channel[i];
      assert key'[|denom| + i] == channel'[i - shift];
    }
  }

  lemma {:induction false} TrimPadding(c: bytes, k: nat)
    requires 0 !in c
    ensures TrimZeros(c + Zeros(k)) == c
  {
    var s := c + Zeros(k);
    if k == 0 {
      assert s == c;
    } else {
      assert s[..|s| - 1] == c + Zeros(k - 1);
      TrimPadding(c, k - 1);
    }
  }

  lemma TrimPadChannel(c: bytes)
    requires |c| <= CHANNEL_LENGTH && 0 !in c
    ensures TrimZeros(PadChannel(c)) == c
  {
    TrimPadding(c, CHANNEL_LENGTH - |c|);
    assert PadChannel(c) == c + Zeros(CHANNEL_LENGTH - |c|);
  }

  lemma ChannelIdHasNoZero(c: bytes)
    requires ChannelId(c)
    ensures 0 !in c && SLASH !in c
  {
    assert c == CHANNEL_PREFIX + c[8..];
  }

  /** The part of a channel id that the pending key has room for. */
  function Cut(channelId: bytes): bytes {
    if |channelId| > CHANNEL_LENGTH then channelId[..CHANNEL_LENGTH] else channelId
  }

  /** Two pending keys are equal exactly if the sequences and the first sixteen bytes of the channel ids are. */
  lemma PendingKeyExact(c: bytes, n: uint64, c': bytes, n': uint64)
    requires 0 !in c && 0 !in c'
    ensures PendingKey(c, n) == PendingKey(c', n') <==> n == n' && Cut(c) == Cut(c')
  {
    var k, k' := PendingKey(c, n), PendingKey(c', n');
    assert k[..CHANNEL_LENGTH] == PadChannel(c) == PadChannel(Cut(c)) && k[CHANNEL_LENGTH..] == BigEndian(n, 8);
    assert k'[..CHANNEL_LENGTH] == PadChannel(c') == PadChannel(Cut(c')) && k'[CHANNEL_LENGTH..] == BigEndian(n', 8);
    TrimPadChannel(Cut(c));
    TrimPadChannel(Cut(c'));
    Pow256Of8();
    BigEndianInverse(n, 8);
    BigEndianInverse(n', 8);
  }

  lemma PendingKeyInjective(c: bytes, n: uint64, c': bytes, n': uint64)
    requires ChannelId(c) && ChannelId(c')
    requires PendingKey(c, n) == PendingKey(c', n')
    ensures c == c' && n == n'
  {
    ChannelIdHasNoZero(c);
    ChannelIdHasNoZero(c');
    PendingKeyExact(c, n, c', n');
  }

  /** A reset of a channel matches the pending keys of exactly the channels whose id its own id starts. */
  lemma PendingPrefix(reset: bytes, c: bytes, n: uint64)
    requires ChannelId(reset) && ChannelId(c)
    ensures reset <= PendingKey(c, n) <==> reset <= c
  {
    ChannelIdHasNoZero(reset);
    var k := PendingKey(c, n);
    assert c == k[..|c|];
    if |reset| <= |c| {
      assert k[..|reset|] == c[..|reset|];
    } else {
      assert k[|c|] == PadChannel(c)[|c|] == 0;
      assert reset[|c|] != 0;
    }
  }
}
