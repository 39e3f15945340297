/**
 What each step of the rate limiter does to its three stores: the rate limits, the marks of pending sends and
 the address whitelist, all keyed by byte strings. A step that returns an error leaves the stores alone.
 */
module RateLimitSpec {
  import opened Wrappers
  import opened Bytes
  import opened Denoms
  import opened RateLimitTypes

  datatype State = State(
    limits: map<bytes, RateLimit>,
    pending: set<bytes>,
    whitelist: map<bytes, AddressPair>)

  /** The record of a parachain token, by native denomination. */
  datatype TokenInfo = TokenInfo(ibcDenom: bytes, channelId: bytes)

  type Tokens = map<bytes, TokenInfo>

  /** Total supply by denomination. */
  type Bank = map<bytes, nat>

  function Supply(bank: Bank, denom: bytes): nat {
    if denom in bank then bank[denom] else 0
  }

  function Resolve(tokens: Tokens, denom: bytes, channelId: bytes): bytes {
    if denom in tokens && channelId == tokens[denom].channelId then tokens[denom].ibcDenom else denom
  }

  /** Looking a parachain denomination up twice finds the same rate limit. */
  ghost predicate ResolveIdempotent(tokens: Tokens) {
    forall d: bytes, c: bytes :: Resolve(tokens, Resolve(tokens, d, c), c) == Resolve(tokens, d, c)
  }

  function SetLimit(s: State, rl: RateLimit): State {
    s.(limits := s.limits[rl.Key() := rl])
  }

  predicate Whitelisted(s: State, info: PacketInfo) {
    AddressPair(info.sender, info.receiver).Key() in s.whitelist
  }

  /** The packet belongs to a rate limit and its address pair is not exempt. */
  predicate Tracked(s: State, info: PacketInfo) {
    LimitKey(info.denom, info.channelId) in s.limits && !Whitelisted(s, info)
  }

  predicate Exceeds(s: State, direction: Direction, info: PacketInfo)
    requires Tracked(s, info)
  {
    var rl := s.limits[LimitKey(info.denom, info.channelId)];
    var net := rl.flow.outflow - rl.flow.inflow;
    rl.quota.CheckExceedsQuota(
      direction, if direction.PacketSend? then net + info.amount else info.amount - net,
      rl.flow.channelValue, rl.minRateLimitAmount)
  }

  function AddFlow(s: State, direction: Direction, info: PacketInfo): State
    requires Tracked(s, info)
  {
    var rl := s.limits[LimitKey(info.denom, info.channelId)];
    SetLimit(s, rl.(flow :=
      if direction.PacketSend? then rl.flow.(outflow := rl.flow.outflow + info.amount)
      else rl.flow.(inflow := rl.flow.inflow + info.amount)))
  }

  /** CheckRateLimitAndUpdateFlow: the result says whether the flow was updated. */
  function Check(s: State, direction: Direction, info: PacketInfo): (State, Result<bool, Error>) {
    if !Tracked(s, info) then (s, Ok(false))
    else if Exceeds(s, direction, info) then (s, Err(QuotaExceeded))
    else (AddFlow(s, direction, info), Ok(true))
  }

  /** When a packet is exempt, refused or counted, in terms of the stores alone; the quota is exact. */
  lemma CheckExact(s: State, direction: Direction, info: PacketInfo)
    requires var k := LimitKey(info.denom, info.channelId);
             k in s.limits ==>
               var rl := s.limits[k];
               rl.flow.channelValue >= 0 && rl.quota.maxPercentSend >= 0 && rl.quota.maxPercentRecv >= 0
    ensures var (k, r) := (LimitKey(info.denom, info.channelId), Check(s, direction, info).1);
            && (r == Ok(false) <==> k !in s.limits || info.sender + info.receiver in s.whitelist)
            && (r != Ok(false) ==>
                  var rl := s.limits[k];
                  var (net, percent) :=
                    if direction.PacketSend? then (rl.flow.outflow - rl.flow.inflow, rl.quota.maxPercentSend)
                    else (rl.flow.inflow - rl.flow.outflow, rl.quota.maxPercentRecv);
                  r == Err(QuotaExceeded) <==>
                    && rl.flow.channelValue != 0 && net + info.amount > rl.minRateLimitAmount
                    && 100 * (net + info.amount) > rl.flow.channelValue * percent)
            && (r != Ok(true) ==> Check(s, direction, info).0 == s)
  {
    var k := LimitKey(info.denom, info.channelId);
    if Tracked(s, info) {
      var rl := s.limits[k];
      var net := rl.flow.outflow - rl.flow.inflow;
      QuotaExact(rl.quota, direction, if direction.PacketSend? then net + info.amount else info.amount - net,
                 rl.flow.channelValue, rl.minRateLimitAmount);
    }
  }

  function Send(s: State, info: PacketInfo, sequence: uint64): (State, Result<bool, Error>) {
    var (s', r) := Check(s, PacketSend, info);
    if r == Ok(true) then (s'.(pending := s'.pending + {PendingKey(info.channelId, sequence)}), r) else (s', r)
  }

  function Settle(s: State, info: PacketInfo, sequence: uint64): State {
    s.(pending := s.pending - {PendingKey(info.channelId, sequence)})
  }

  predicate Undoes(s: State, info: PacketInfo, sequence: uint64) {
    LimitKey(info.denom, info.channelId) in s.limits && PendingKey(info.channelId, sequence) in s.pending
  }

  function Undo(s: State, info: PacketInfo, sequence: uint64): State {
    if !Undoes(s, info, sequence) then s
    else
      var rl := s.limits[LimitKey(info.denom, info.channelId)];
      Settle(SetLimit(s, rl.(flow := rl.flow.(outflow := rl.flow.outflow - info.amount))), info, sequence)
  }

  function Unmark(s: State, channelId: bytes): State {
    s.(pending := set k | k in s.pending && !(channelId <= k))
  }

  function Reset(s: State, tokens: Tokens, bank: Bank, denom: bytes, channelId: bytes): (State, Result<(), Error>) {
    var d := Resolve(tokens, denom, channelId);
    var key := LimitKey(d, channelId);
    if key !in s.limits then (s, Err(RateLimitNotFound))
    else (Unmark(SetLimit(s, s.limits[key].(flow := NewFlow(Supply(bank, d)))), channelId), Ok(()))
  }

  const CHANNEL_1: bytes := CHANNEL_PREFIX + [49]
  const CHANNEL_10: bytes := CHANNEL_PREFIX + [49, 48]

  /** A reset of channel 1 unmarks every send of channel 10, so that none of them is undone when it fails. */
  lemma ResetUnmarksChannelTen(s: State, tokens: Tokens, bank: Bank, denom: bytes, info: PacketInfo, sequence: uint64)
    requires LimitKey(Resolve(tokens, denom, CHANNEL_1), CHANNEL_1) in s.limits && info.channelId == CHANNEL_10
    ensures var after := Reset(s, tokens, bank, denom, CHANNEL_1).0;
            && ChannelId(CHANNEL_1) && ChannelId(CHANNEL_10) && CHANNEL_1 != CHANNEL_10
            && PendingKey(CHANNEL_10, sequence) !in after.pending && Undo(after, info, sequence) == after
  {
    assert CHANNEL_1 == CHANNEL_10[..|CHANNEL_1|];
    assert CHANNEL_1[|CHANNEL_PREFIX|..] == [49] && CHANNEL_10[|CHANNEL_PREFIX|..] == [49, 48];
    PendingPrefix(CHANNEL_1, CHANNEL_10, sequence);
  }

  function MakeLimit(denom: bytes, msg: LimitMsg, channelValue: nat): RateLimit {
    RateLimit(Path(denom, msg.channelId), msg.ToQuota(), NewFlow(channelValue), msg.minRateLimitAmount)
  }

  function Add(s: State, tokens: Tokens, bank: Bank, msg: LimitMsg): (State, Result<(), Error>) {
    var d := Resolve(tokens, msg.denom, msg.channelId);
    if Supply(bank, d) == 0 then (s, Err(ZeroChannelValue))
    else if LimitKey(d, msg.channelId) in s.limits then (s, Err(RateLimitAlreadyExists))
    else (SetLimit(s, MakeLimit(d, msg, Supply(bank, d))), Ok(()))
  }

  function Update(s: State, tokens: Tokens, bank: Bank, msg: LimitMsg): (State, Result<(), Error>) {
    var d := Resolve(tokens, msg.denom, msg.channelId);
    if LimitKey(d, msg.channelId) !in s.limits then (s, Err(RateLimitNotFound))
    else (SetLimit(s, MakeLimit(d, msg, Supply(bank, d))), Ok(()))
  }

  function Remove(s: State, tokens: Tokens, denom: bytes, channelId: bytes): (State, Result<(), Error>) {
    var key := LimitKey(Resolve(tokens, denom, channelId), channelId);
    if key !in s.limits then (s, Err(RateLimitNotFound))
    else (s.(limits := s.limits - {key}), Ok(()))
  }

  // ---------------------------------------------------------------- epoch end

  /** Resetting a list of paths in turn; a path that is not found is skipped. */
  function ResetAll(s: State, tokens: Tokens, bank: Bank, paths: seq<Path>): State
    decreases |paths|
  {
    if paths == [] then s
    else
      var last := paths[|paths| - 1];
      Reset(ResetAll(s, tokens, bank, paths[..|paths| - 1]), tokens, bank, last.denom, last.channelId).0
  }

  predicate Due(rl: RateLimit, epochHour: int)
    requires rl.quota.durationHours != 0
  {
    epochHour % rl.quota.durationHours == 0
  }

  /** Every limit sits under its own key, under the denomination its path resolves to, and has a duration. */
  predicate WellKeyed(s: State) {
    forall k :: k in s.limits ==> s.limits[k].Key() == k && s.limits[k].quota.durationHours != 0
  }

  predicate Resolved(s: State, tokens: Tokens) {
    forall k :: k in s.limits ==>
      var p := s.limits[k].path; Resolve(tokens, p.denom, p.channelId) == p.denom
  }

  predicate ClearedBy(s: State, keys: set<bytes>, pendingKey: bytes) {
    exists k :: k in keys && k in s.limits && s.limits[k].path.channelId <= pendingKey
  }

  /** The stores after exactly the given limits were reset. */
  function ResetKeys(s: State, bank: Bank, keys: set<bytes>): State {
    State(
      map k | k in s.limits ::
        if k in keys then s.limits[k].(flow := NewFlow(Supply(bank, s.limits[k].path.denom))) else s.limits[k],
      (set p | p in s.pending && !ClearedBy(s, keys, p)),
      s.whitelist)
  }

  function DueKeys(s: State, epochHour: int): set<bytes>
    requires WellKeyed(s)
  {
    set k | k in s.limits && Due(s.limits[k], epochHour)
  }

  lemma ResetOneMore(s: State, tokens: Tokens, bank: Bank, keys: set<bytes>, k: bytes)
    requires WellKeyed(s) && Resolved(s, tokens) && k in s.limits
    ensures var p := s.limits[k].path;
            Reset(ResetKeys(s, bank, keys), tokens, bank, p.denom, p.channelId).0 == ResetKeys(s, bank, keys + {k})
  {
    var p := s.limits[k].path;
    var before := ResetKeys(s, bank, keys);
    var after := ResetKeys(s, bank, keys + {k});
    var got := Reset(before, tokens, bank, p.denom, p.channelId).0;
    assert LimitKey(p.denom, p.channelId) == k;
    assert got.limits == after.limits;
    forall q | q in s.pending
      ensures ClearedBy(s, keys + {k}, q) <==> ClearedBy(s, keys, q) || p.channelId <= q
    {
    }
    assert got.pending == after.pending;
  }

  lemma ResetNone(s: State, bank: Bank)
    ensures ResetKeys(s, bank, {}) == s
  {
    assert ResetKeys(s, bank, {}).limits == s.limits;
    assert ResetKeys(s, bank, {}).pending == s.pending;
  }

  function PathsOf(s: State, keys: seq<bytes>): (paths: seq<Path>)
    requires forall k :: k in keys ==> k in s.limits
    ensures |paths| == |keys| && forall i :: 0 <= i < |keys| ==> paths[i] == s.limits[keys[i]].path
  {
    seq(|keys|, i requires 0 <= i < |keys| => s.limits[keys[i]].path)
  }

  function KeySet(keys: seq<bytes>): set<bytes> {
    set k | k in keys
  }

  lemma ResetAllSnoc(s: State, tokens: Tokens, bank: Bank, paths: seq<Path>, p: Path)
    ensures ResetAll(s, tokens, bank, paths + [p])
            == Reset(ResetAll(s, tokens, bank, paths), tokens, bank, p.denom, p.channelId).0
  {
    assert (paths + [p])[..|paths|] == paths;
  }

  lemma PathsOfSnoc(s: State, keys: seq<bytes>, k: bytes)
    requires (forall k :: k in keys ==> k in s.limits) && k in s.limits
    ensures PathsOf(s, keys + [k]) == PathsOf(s, keys) + [s.limits[k].path]
  {
  }

  lemma KeySetSnoc(keys: seq<bytes>, k: bytes)
    ensures KeySet(keys + [k]) == KeySet(keys) + {k}
  {
  }

  /** Whatever the order of the iteration, a reset loop resets exactly its limits and unmarks exactly their channels. */
  lemma {:induction false} ResetAllIsResetKeys(s: State, tokens: Tokens, bank: Bank, keys: seq<bytes>)
    requires WellKeyed(s) && Resolved(s, tokens)
    requires forall k :: k in keys ==> k in s.limits
    ensures ResetAll(s, tokens, bank, PathsOf(s, keys)) == ResetKeys(s, bank, KeySet(keys))
  {
    if keys == [] {
      ResetNone(s, bank);
    } else {
      var init, last := keys[..|keys| - 1], keys[|keys| - 1];
      assert keys == init + [last];
      ResetAllIsResetKeys(s, tokens, bank, init);
      PathsOfSnoc(s, init, last);
      ResetAllSnoc(s, tokens, bank, PathsOf(s, init), s.limits[last].path);
      ResetOneMore(s, tokens, bank, KeySet(init), last);
      KeySetSnoc(init, last);
    }
  }
}
