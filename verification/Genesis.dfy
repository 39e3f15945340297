/** Export and import of the rate limiter's stores (x/ratelimit/keeper/genesis.go). */
module Genesis {
  import opened Wrappers
  import opened Bytes
  import opened KeyOrder
  import opened RateLimitTypes
  import opened RateLimitSpec
  import opened RateLimitKeeper
  import opened RateLimitHistory
  import opened RateLimitRuns
  import opened Epochs

  datatype GenesisState = GenesisState(
    rateLimits: seq<RateLimit>,
    whitelistedAddressPairs: seq<AddressPair>,
    pendingSendPackets: seq<bytes>,
    epochs: seq<EpochInfo>)

  const DEFAULT_EPOCHS: seq<EpochInfo> := [NewGenesisEpochInfo(DAY_EPOCH, EPOCH_HOUR_PERIOD)]

  const EMPTY_STORES: State := State(map[], {}, map[])

  /** Pending keys are a padded channel id and eight bytes. */
  predicate PendingKeysOk(s: State) {
    forall k :: k in s.pending ==> |k| == CHANNEL_LENGTH + 8
  }

  /** How a pending key is printed. */
  function PacketId(key: bytes): bytes
    requires |key| == CHANNEL_LENGTH + 8
  {
    TrimZeros(key[..CHANNEL_LENGTH]) + [SLASH] + Decimal(FromBigEndian(key[CHANNEL_LENGTH..]))
  }

  function PacketIds(keys: seq<bytes>): (ids: seq<bytes>)
    requires forall k :: k in keys ==> |k| == CHANNEL_LENGTH + 8
    ensures |ids| == |keys| && forall i :: 0 <= i < |keys| ==> ids[i] == PacketId(keys[i])
  {
    seq(|keys|, i requires 0 <= i < |keys| => PacketId(keys[i]))
  }

  function Export(s: State): GenesisState
    requires PendingKeysOk(s)
  {
    GenesisState(InKeyOrder(s.limits), InKeyOrder(s.whitelist), PacketIds(SortedKeys(s.pending)), DEFAULT_EPOCHS)
  }

  method PrintKey(key: bytes) returns (id: bytes)
    requires |key| == CHANNEL_LENGTH + 8
    ensures id == PacketId(key)
  {
    var channelId := TrimZeros(key[..CHANNEL_LENGTH]);
    var sequence := FromBigEndian(key[CHANNEL_LENGTH..]);
    id := channelId + [SLASH] + Decimal(sequence);
  }

  lemma PacketIdsSnoc(keys: seq<bytes>, i: nat)
    requires i < |keys| && forall k :: k in keys ==> |k| == CHANNEL_LENGTH + 8
    ensures PacketIds(keys[..i + 1]) == PacketIds(keys[..i]) + [PacketId(keys[i])]
  {
  }

  /** The loop over an iterator's snapshot of the pending keys. */
  method PrintKeys(keys: seq<bytes>) returns (ids: seq<bytes>)
    requires forall k :: k in keys ==> |k| == CHANNEL_LENGTH + 8
    ensures ids == PacketIds(keys)
  {
    ids := [];
    for i := 0 to |keys|
      invariant ids == PacketIds(keys[..i])
    {
      var id := PrintKey(keys[i]);
      PacketIdsSnoc(keys, i);
      ids := ids + [id];
    }
    assert keys[..|keys|] == keys;
  }

  method GetAllPendingSendPackets(k: Keeper) returns (ids: seq<bytes>)
    requires PendingKeysOk(k.Abs())
    ensures ids == PacketIds(SortedKeys(k.pending))
  {
    ids := PrintKeys(SortedKeys(k.pending));
  }

  method ExportGenesis(k: Keeper) returns (g: GenesisState)
    requires PendingKeysOk(k.Abs())
    ensures g == Export(k.Abs())
  {
    g := GenesisState([], [], [], DEFAULT_EPOCHS);
    var limits := k.GetAllRateLimits();
    g := g.(rateLimits := limits);
    var pairs := k.GetAllWhitelistedAddressPairs();
    g := g.(whitelistedAddressPairs := pairs);
    var pending := GetAllPendingSendPackets(k);
    g := g.(pendingSendPackets := pending);
  }

  // ---------------------------------------------------------------- import

  /** A printed pending packet is read back as a channel id and a sequence, or refused. */
  function ParsePacketId(id: bytes): Option<(bytes, uint64)> {
    var splits := Split(id, SLASH);
    if |splits| != 2 then None
    else
      match ParseUint(splits[1])
      case None => None
      case Some(sequence) => Some((splits[0], sequence))
  }

  function ImportLimits(s: State, limits: seq<RateLimit>): State {
    if limits == [] then s
    else SetLimit(ImportLimits(s, limits[..|limits| - 1]), limits[|limits| - 1])
  }

  function ImportPairs(s: State, pairs: seq<AddressPair>): State {
    if pairs == [] then s
    else
      var last := pairs[|pairs| - 1];
      var before := ImportPairs(s, pairs[..|pairs| - 1]);
      before.(whitelist := before.whitelist[last.Key() := last])
  }

  /** The pending key a printed id stands for. */
  function ReadKey(id: bytes): Option<bytes> {
    match ParsePacketId(id)
    case None => None
    case Some(p) => Some(PendingKey(p.0, p.1))
  }

  predicate AllParse(ids: seq<bytes>) {
    forall i :: 0 <= i < |ids| ==> ReadKey(ids[i]).Some?
  }

  function ReadKeys(ids: seq<bytes>): set<bytes>
    requires AllParse(ids)
  {
    set i | 0 <= i < |ids| :: ReadKey(ids[i]).value
  }

  /** None stands for the panic that aborts the chain's start. */
  function Import(s: State, g: GenesisState): Option<State> {
    if !AllParse(g.pendingSendPackets) then None
    else
      var stores := ImportPairs(ImportLimits(s, g.rateLimits), g.whitelistedAddressPairs);
      Some(stores.(pending := stores.pending + ReadKeys(g.pendingSendPackets)))
  }

  method ImportStores(k: Keeper, g: GenesisState) returns (ok: bool)
    modifies k
    ensures ok <==> Import(old(k.Abs()), g).Some?
    ensures ok ==> k.Abs() == Import(old(k.Abs()), g).value
  {
    ghost var s0 := k.Abs();
    for i := 0 to |g.rateLimits|
      invariant k.Abs() == ImportLimits(s0, g.rateLimits[..i])
    {
      k.SetRateLimit(g.rateLimits[i]);
      assert g.rateLimits[..i + 1][..i] == g.rateLimits[..i];
    }
    assert g.rateLimits[..|g.rateLimits|] == g.rateLimits;
    ghost var s1 := k.Abs();
    var pairs := g.whitelistedAddressPairs;
    for i := 0 to |pairs|
      invariant k.Abs() == ImportPairs(s1, pairs[..i])
    {
      k.SetWhitelistedAddressPair(pairs[i]);
      assert pairs[..i + 1][..i] == pairs[..i];
    }
    assert pairs[..|pairs|] == pairs;
    ok := ImportPendingIds(k, g.pendingSendPackets);
  }

  /** The text of a pending packet: a channel id, a slash, and the digits of a sequence. */
  ghost predicate Reads(id: bytes, channelId: bytes, sequence: uint64) {
    && SLASH !in channelId
    && channelId + [SLASH] <= id
    && var digits := id[|channelId| + 1..];
       digits != [] && AllDigits(digits) && DecimalValue(digits) == sequence
  }

  lemma {:induction false} SplitOfOne(s: bytes, sep: byte)
    requires |Split(s, sep)| == 1
    ensures sep !in s && Split(s, sep) == [s]
  {
    if s != [] {
      SplitOfOne(s[1..], sep);
      assert s == [s[0]] + s[1..];
    }
  }

  lemma {:induction false} SplitOfTwo(s: bytes, sep: byte)
    requires |Split(s, sep)| == 2
    ensures var parts := Split(s, sep); sep !in parts[0] && s == parts[0] + [sep] + parts[1]
  {
    if s != [] {
      var rest := Split(s[1..], sep);
      if s[0] == sep {
        SplitOfOne(s[1..], sep);
        assert s == [] + [sep] + s[1..];
      } else {
        SplitOfTwo(s[1..], sep);
        assert s == [s[0]] + s[1..] == ([s[0]] + rest[0]) + [sep] + rest[1];
      }
    }
  }

  lemma SplitInTwo(c: bytes, digits: bytes)
    requires SLASH !in c && AllDigits(digits)
    ensures Split(c + [SLASH] + digits, SLASH) == [c, digits]
  {
    SplitAt(c, digits, SLASH);
    SplitWhole(digits, SLASH);
  }

  /** An id is read as this channel and sequence exactly if it is their text; any other text is refused. */
  lemma ParsePacketIdExact(id: bytes, channelId: bytes, sequence: uint64)
    ensures ParsePacketId(id) == Some((channelId, sequence)) <==> Reads(id, channelId, sequence)
  {
    if Reads(id, channelId, sequence) {
      var digits := id[|channelId| + 1..];
      assert id == channelId + [SLASH] + digits;
      SplitInTwo(channelId, digits);
    }
    var parts := Split(id, SLASH);
    if |parts| == 2 {
      SplitOfTwo(id, SLASH);
      assert id[|parts[0]| + 1..] == parts[1];
      assert parts[0] + [SLASH] <= id;
    }
  }

  method ReadPacketId(id: bytes) returns (r: Option<(bytes, uint64)>)
    ensures r == ParsePacketId(id)
    ensures r.Some? ==> Reads(id, r.value.0, r.value.1)
    ensures r.None? ==> forall c: bytes, n: uint64 :: !Reads(id, c, n)
  {
    forall c: bytes, n: uint64 ensures ParsePacketId(id) == Some((c, n)) <==> Reads(id, c, n) {
      ParsePacketIdExact(id, c, n);
    }
    var splits := Split(id, SLASH);
    if |splits| != 2 {
      return None;
    }
    var sequence := ParseUint(splits[1]);
    if sequence.None? {
      return None;
    }
    return Some((splits[0], sequence.value));
  }

  method ImportPendingIds(k: Keeper, ids: seq<bytes>) returns (ok: bool)
    modifies k`pending
    ensures ok <==> AllParse(ids)
    ensures ok ==> k.pending == old(k.pending) + ReadKeys(ids)
  {
    for i := 0 to |ids|
      invariant AllParse(ids[..i]) && k.pending == old(k.pending) + ReadKeys(ids[..i])
    {
      var p := ReadPacketId(ids[i]);
      if p.None? {
        return false;
      }
      ReadKeysNext(ids, i);
      k.SetPendingSendPacket(p.value.0, p.value.1);
    }
    assert ids[..|ids|] == ids;
    ok := true;
  }

  lemma ReadKeysNext(ids: seq<bytes>, i: nat)
    requires i < |ids| && AllParse(ids[..i]) && ReadKey(ids[i]).Some?
    ensures AllParse(ids[..i + 1]) && ReadKeys(ids[..i + 1]) == ReadKeys(ids[..i]) + {ReadKey(ids[i]).value}
  {
    assert ids[..i + 1] == ids[..i] + [ids[i]];
    ReadKeysSnoc(ids[..i], ids[i]);
  }

  lemma ReadKeysSnoc(ids: seq<bytes>, id: bytes)
    requires AllParse(ids) && ReadKey(id).Some?
    ensures AllParse(ids + [id]) && ReadKeys(ids + [id]) == ReadKeys(ids) + {ReadKey(id).value}
  {
    var all := ids + [id];
    assert all[|ids|] == id;
    forall i | 0 <= i < |ids| ensures all[i] == ids[i] && ReadKey(ids[i]).value in ReadKeys(all) {
      assert ReadKey(all[i]).value in ReadKeys(all);
    }
  }

  /** An epoch that could be added may be: it is valid and its identifier is new. */
  predicate Addable(epochs: map<bytes, EpochInfo>, e: EpochInfo) {
    e.Validate() && e.identifier !in epochs
  }

  /** An epoch as it is stored: started now if it had no start. */
  function Started(e: EpochInfo, time: int, height: int): EpochInfo {
    e.(startTime := if e.startTime == ZERO_TIME then time else e.startTime, currentEpochStartHeight := height)
  }

  function AddEpoch(epochs: map<bytes, EpochInfo>, e: EpochInfo, time: int, height: int): map<bytes, EpochInfo> {
    epochs[e.identifier := Started(e, time, height)]
  }

  /** The epochs added in turn; None if one of them cannot be added. */
  function AddEpochs(epochs: map<bytes, EpochInfo>, es: seq<EpochInfo>, time: int, height: int)
    : Option<map<bytes, EpochInfo>>
  {
    if es == [] then Some(epochs)
    else
      match AddEpochs(epochs, es[..|es| - 1], time, height)
      case None => None
      case Some(before) =>
        if Addable(before, es[|es| - 1]) then Some(AddEpoch(before, es[|es| - 1], time, height)) else None
  }

  predicate DistinctEpochs(es: seq<EpochInfo>) {
    forall i, j :: 0 <= i < j < |es| ==> es[i].identifier != es[j].identifier
  }

  /** The store holds exactly what it held before and each of the given epochs. */
  ghost predicate HoldsEpochs(
    before: map<bytes, EpochInfo>, es: seq<EpochInfo>, time: int, height: int, after: map<bytes, EpochInfo>)
  {
    && (forall id :: id in after ==> id in before || exists i :: 0 <= i < |es| && es[i].identifier == id)
    && (forall id :: id in before ==> id in after && after[id] == before[id])
    && (forall i :: 0 <= i < |es| ==>
          var e := es[i];
          && e.identifier in after
          && after[e.identifier]
             == EpochInfo(e.identifier, if e.startTime == 0 then time else e.startTime, e.duration, e.currentEpoch,
                          e.currentEpochStartTime, e.epochCountingStarted, height))
  }

  lemma HoldsOneMore(
    before: map<bytes, EpochInfo>, es: seq<EpochInfo>, e: EpochInfo, time: int, height: int, mid: map<bytes, EpochInfo>)
    requires HoldsEpochs(before, es, time, height, mid) && Addable(mid, e)
    ensures HoldsEpochs(before, es + [e], time, height, AddEpoch(mid, e, time, height))
  {
    var all, after := es + [e], AddEpoch(mid, e, time, height);
    assert all[|es|] == e;
    forall id | id in after ensures id in before || exists i :: 0 <= i < |all| && all[i].identifier == id {
      if id in mid && id !in before {
        var i :| 0 <= i < |es| && es[i].identifier == id;
        assert all[i].identifier == id;
      }
    }
    forall i | 0 <= i < |all|
      ensures var e := all[i];
              && e.identifier in after
              && after[e.identifier]
                 == EpochInfo(e.identifier, if e.startTime == 0 then time else e.startTime, e.duration, e.currentEpoch,
                              e.currentEpochStartTime, e.epochCountingStarted, height)
    {
      if i < |es| {
        assert all[i] == es[i];
      }
    }
  }

  lemma AddableAfter(
    before: map<bytes, EpochInfo>, es: seq<EpochInfo>, e: EpochInfo, time: int, height: int, mid: map<bytes, EpochInfo>)
    requires HoldsEpochs(before, es, time, height, mid)
    ensures Addable(mid, e)
            <==> Addable(before, e) && forall i :: 0 <= i < |es| ==> es[i].identifier != e.identifier
  {
  }

  /** It has a name that is not stored yet, a duration, and neither a negative number nor a negative height. */
  predicate IsNew(epochs: map<bytes, EpochInfo>, e: EpochInfo) {
    && e.identifier != [] && e.duration != 0 && e.currentEpoch >= 0 && e.currentEpochStartHeight >= 0
    && e.identifier !in epochs
  }

  predicate AllAddable(epochs: map<bytes, EpochInfo>, es: seq<EpochInfo>) {
    DistinctEpochs(es) && forall i :: 0 <= i < |es| ==> IsNew(epochs, es[i])
  }

  lemma AllAddableSnoc(epochs: map<bytes, EpochInfo>, es: seq<EpochInfo>, e: EpochInfo)
    ensures AllAddable(epochs, es + [e])
            <==> && AllAddable(epochs, es) && Addable(epochs, e)
                 && forall i :: 0 <= i < |es| ==> es[i].identifier != e.identifier
  {
    var all := es + [e];
    assert all[|es|] == e && forall i :: 0 <= i < |es| ==> all[i] == es[i];
  }

  /**
   The epochs are added exactly if all of them are valid, no two share an identifier and none has one that is
   stored already; then the store holds each of them, started now if it had no start, and what it held before.
   */
  lemma {:induction false} AddEpochsExact(epochs: map<bytes, EpochInfo>, es: seq<EpochInfo>, time: int, height: int)
    ensures AddEpochs(epochs, es, time, height).Some? <==> AllAddable(epochs, es)
    ensures AddEpochs(epochs, es, time, height).Some? ==>
              HoldsEpochs(epochs, es, time, height, AddEpochs(epochs, es, time, height).value)
  {
    if es != [] {
      var init, last := es[..|es| - 1], es[|es| - 1];
      assert es == init + [last];
      AddEpochsExact(epochs, init, time, height);
      AllAddableSnoc(epochs, init, last);
      var mid := AddEpochs(epochs, init, time, height);
      if mid.Some? {
        AddableAfter(epochs, init, last, time, height, mid.value);
        if Addable(mid.value, last) {
          HoldsOneMore(epochs, init, last, time, height, mid.value);
        }
      }
    }
  }

  lemma AddEpochsPrefix(epochs: map<bytes, EpochInfo>, es: seq<EpochInfo>, time: int, height: int, n: nat)
    requires n <= |es| && AddEpochs(epochs, es[..n], time, height).None?
    ensures AddEpochs(epochs, es, time, height).None?
    decreases |es| - n
  {
    if n == |es| {
      assert es[..n] == es;
    } else {
      assert es[..n + 1][..n] == es[..n];
      AddEpochsPrefix(epochs, es, time, height, n + 1);
    }
  }

  method AddAllEpochs(ek: EpochKeeper, es: seq<EpochInfo>, time: int, height: int) returns (ok: bool)
    requires EpochsKeyed(ek.epochs)
    modifies ek
    ensures ok <==> AddEpochs(old(ek.epochs), es, time, height).Some?
    ensures ok ==> Some(ek.epochs) == AddEpochs(old(ek.epochs), es, time, height)
  {
    for i := 0 to |es|
      invariant EpochsKeyed(ek.epochs)
      invariant Some(ek.epochs) == AddEpochs(old(ek.epochs), es[..i], time, height)
    {
      assert es[..i + 1][..i] == es[..i];
      var r := ek.AddEpochInfo(es[i], time, height);
      if r.Err? {
        AddEpochsPrefix(old(ek.epochs), es, time, height, i + 1);
        return false;
      }
    }
    assert es[..|es|] == es;
    ok := true;
  }

  const HOUR: bytes := [104, 111, 117, 114]

  const A_DAY: int := 86_400_000_000_000

  /** The only clock an import starts from an export: the hour epoch, not started yet. */
  function NewClock(time: int, height: int): EpochInfo {
    EpochInfo(HOUR, time, A_DAY, 0, 0, false, height)
  }

  lemma OneEpochAdded(e: EpochInfo, time: int, height: int)
    requires e.Validate()
    ensures AddEpochs(map[], [e], time, height) == Some(map[e.identifier := Started(e, time, height)])
  {
    assert [e][..0] == [];
  }

  lemma OnlyEntry<K, V>(m: map<K, V>, k: K, v: V)
    ensures Some(map[k := v]) == Some(m) <==> m.Keys == {k} && m[k] == v
  {
    if m.Keys == {k} && m[k] == v {
      assert forall k' :: k' in m <==> k' == k;
      assert m == map[k := v];
    }
  }

  /**
   The exported epochs are the default ones whatever is stored, so an import of the export brings the stored
   epochs back exactly if the hour epoch is the only one and has neither started nor another start time or height.
   */
  lemma ExportForgetsEpochs(s: State, epochs: map<bytes, EpochInfo>, time: int, height: int)
    requires PendingKeysOk(s)
    ensures var back := AddEpochs(map[], Export(s).epochs, time, height);
            && back == Some(map[HOUR := NewClock(time, height)])
            && (back == Some(epochs) <==> epochs.Keys == {HOUR} && epochs[HOUR] == NewClock(time, height))
            && (HOUR in epochs && epochs[HOUR].epochCountingStarted ==> back != Some(epochs))
  {
    OneEpochAdded(NewGenesisEpochInfo(DAY_EPOCH, EPOCH_HOUR_PERIOD), time, height);
    OnlyEntry(epochs, HOUR, NewClock(time, height));
  }

  /** The whole import: an unreadable packet id or an epoch that cannot be added stops it. */
  method InitGenesis(k: Keeper, ek: EpochKeeper, g: GenesisState, time: int, height: int) returns (ok: bool)
    requires EpochsKeyed(ek.epochs)
    modifies k, ek
    ensures ok <==> Import(old(k.Abs()), g).Some? && AddEpochs(old(ek.epochs), g.epochs, time, height).Some?
    ensures ok ==> Import(old(k.Abs()), g) == Some(k.Abs())
    ensures ok ==> AddEpochs(old(ek.epochs), g.epochs, time, height) == Some(ek.epochs)
  {
    ok := ImportStores(k, g);
    if ok {
      ok := AddAllEpochs(ek, g.epochs, time, height);
    }
  }

  // ---------------------------------------------------------------- the round trip

  predicate WhitelistKeyed(s: State) {
    forall k :: k in s.whitelist ==> s.whitelist[k].Key() == k
  }

  predicate LimitsKeyed(s: State) {
    forall k :: k in s.limits ==> s.limits[k].Key() == k
  }

  lemma {:induction false} LimitsRestored(s: State, keys: seq<bytes>)
    requires LimitsKeyed(s) && forall k :: k in keys ==> k in s.limits
    ensures ImportLimits(EMPTY_STORES, ValuesAt(s.limits, keys)) == State(Restricted(s.limits, keys), {}, map[])
  {
    if keys != [] {
      LimitsRestored(s, keys[..|keys| - 1]);
      ValuesAtSnoc(s.limits, keys);
      RestrictedSnoc(s.limits, keys);
    }
  }

  lemma {:induction false} PairsRestored(s: State, before: State, keys: seq<bytes>)
    requires WhitelistKeyed(s) && before.whitelist == map[] && forall k :: k in keys ==> k in s.whitelist
    ensures ImportPairs(before, ValuesAt(s.whitelist, keys)) == before.(whitelist := Restricted(s.whitelist, keys))
  {
    if keys == [] {
      assert Restricted(s.whitelist, keys) == map[];
    } else {
      PairsRestored(s, before, keys[..|keys| - 1]);
      ValuesAtSnoc(s.whitelist, keys);
      RestrictedSnoc(s.whitelist, keys);
    }
  }

  /** A pending key survives printing and reading if its channel bytes hold no slash; otherwise it is refused. */
  lemma PacketIdRoundTrip(key: bytes)
    requires |key| == CHANNEL_LENGTH + 8
    ensures ReadKey(PacketId(key)) == if SLASH in key[..CHANNEL_LENGTH] then None else Some(key)
  {
    var channel, tail := key[..CHANNEL_LENGTH], key[CHANNEL_LENGTH..];
    var c, n := TrimZeros(channel), FromBigEndian(tail);
    TrimZerosLeavesZeros(channel);
    FromBigEndianInverse(tail);
    Pow256Of8();
    DecimalInverse(n);
    SplitWhole(Decimal(n), SLASH);
    SplitAt([], Decimal(n), SLASH);
    assert c + [SLASH] + Decimal(n) == c + ([SLASH] + Decimal(n));
    assert [] + [SLASH] + Decimal(n) == [SLASH] + Decimal(n);
    if SLASH in channel {
      assert SLASH in c by {
        var i :| 0 <= i < |channel| && channel[i] == SLASH;
        assert channel[i] == (c + Zeros(|channel| - |c|))[i];
      }
      SplitCount(c, [SLASH] + Decimal(n), SLASH);
    } else {
      assert forall i :: 0 <= i < |c| ==> c[i] == channel[i];
      SplitAt(c, Decimal(n), SLASH);
      assert PadChannel(c) == channel;
      assert key == channel + tail;
    }
  }

  predicate NoSlash(key: bytes) {
    |key| == CHANNEL_LENGTH + 8 && SLASH !in key[..CHANNEL_LENGTH]
  }

  lemma StoresRestored(s: State)
    requires LimitsKeyed(s) && WhitelistKeyed(s)
    ensures ImportPairs(ImportLimits(EMPTY_STORES, InKeyOrder(s.limits)), InKeyOrder(s.whitelist))
            == State(s.limits, {}, s.whitelist)
  {
    LimitsRestored(s, SortedKeys(s.limits.Keys));
    RestrictedToAll(s.limits);
    PairsRestored(s, State(s.limits, {}, map[]), SortedKeys(s.whitelist.Keys));
    RestrictedToAll(s.whitelist);
  }

  lemma ReadBack(ids: seq<bytes>, keys: seq<bytes>)
    requires |ids| == |keys| && forall i :: 0 <= i < |keys| ==> ReadKey(ids[i]) == Some(keys[i])
    ensures AllParse(ids) && ReadKeys(ids) == KeySet(keys)
  {
    forall k | k in keys ensures k in ReadKeys(ids) {
      var i :| 0 <= i < |keys| && keys[i] == k;
      assert ReadKey(ids[i]).value in ReadKeys(ids);
    }
  }

  lemma PendingIdsRestored(marks: set<bytes>)
    requires forall k :: k in marks ==> |k| == CHANNEL_LENGTH + 8 && NoSlash(k)
    ensures var ids := PacketIds(SortedKeys(marks)); AllParse(ids) && ReadKeys(ids) == marks
  {
    var keys := SortedKeys(marks);
    forall i | 0 <= i < |keys| ensures ReadKey(PacketId(keys[i])) == Some(keys[i]) {
      assert keys[i] in marks;
      PacketIdRoundTrip(keys[i]);
    }
    ReadBack(PacketIds(keys), keys);
  }

  lemma SlashRefused(marks: set<bytes>, key: bytes)
    requires forall k :: k in marks ==> |k| == CHANNEL_LENGTH + 8
    requires key in marks && !NoSlash(key)
    ensures !AllParse(PacketIds(SortedKeys(marks)))
  {
    var keys := SortedKeys(marks);
    var i :| 0 <= i < |keys| && keys[i] == key;
    PacketIdRoundTrip(key);
    assert PacketIds(keys)[i] == PacketId(key);
  }

  /** Import of an export on empty stores: the stores come back exactly, unless a channel id holds a slash. */
  lemma ImportOfExport(s: State)
    requires LimitsKeyed(s) && WhitelistKeyed(s) && PendingKeysOk(s)
    ensures Import(EMPTY_STORES, Export(s))
            == if forall k :: k in s.pending ==> SLASH !in k[..CHANNEL_LENGTH] then Some(s) else None
  {
    if key :| key in s.pending && !NoSlash(key) {
      SlashRefused(s.pending, key);
    } else {
      StoresRestored(s);
      PendingIdsRestored(s.pending);
    }
  }

  lemma MarkHasNoSlash(w: World, k: bytes)
    requires SentOk(w) && LogOk(w) && MarksOk(w) && k in w.s.pending
    ensures |k| == CHANNEL_LENGTH + 8 && SLASH !in k[..CHANNEL_LENGTH]
  {
    var i :| Open(w.log, i) && Mark(w.log[i]) == k;
    var c := w.log[i].info.channelId;
    assert (c, w.log[i].sequence) in w.sent;
    ChannelIdHasNoZero(c);
    assert k[..CHANNEL_LENGTH] == PadChannel(c);
  }

  /** After every run whose whitelist is stored under its own keys, import restores what export wrote. */
  lemma RunSurvivesRestart(tokens: Tokens, ops: seq<Op>)
    requires Legal(tokens, ops) && WhitelistKeyed(Run(tokens, ops).s)
    ensures PendingKeysOk(Run(tokens, ops).s)
    ensures Import(EMPTY_STORES, Export(Run(tokens, ops).s)) == Some(Run(tokens, ops).s)
  {
    var w := Run(tokens, ops);
    RunKeepsInv(tokens, ops);
    forall k | k in w.s.pending
      ensures |k| == CHANNEL_LENGTH + 8 && SLASH !in k[..CHANNEL_LENGTH]
    {
      MarkHasNoSlash(w, k);
    }
    ImportOfExport(w.s);
  }
}
