/** Reading undoes writing, and the fields of concatenated data are read in turn, for every fee message. */
module FeeCodecLaws {
  import opened Wrappers
  import opened Bytes
  import opened Wire
  import opened UnknownFields
  import opened FeeTypes
  import opened FeeCodec

  // ---------------------------------------------------------------- the fields that are written

  function NonEmptyField(num: int, value: bytes): seq<Field> {
    if value == [] then [] else [Chunk(num, value)]
  }

  function NonZeroField(num: int, value: int64): seq<Field> {
    if value == 0 then [] else [Num(num, ToUint64(value))]
  }

  function TxFields(c: CoinCodec, m: TxPriorityFee): seq<Field> {
    NonEmptyField(1, m.priority) + [Chunk(2, c.enc(m.priorityFee))]
  }

  function TxsFields(c: CoinCodec, ms: seq<TxPriorityFee>): seq<Field> {
    if ms == [] then [] else [Chunk(3, EncTx(c, ms[0]))] + TxsFields(c, ms[1..])
  }

  function ItemFields(c: CoinCodec, m: CoinItem): seq<Field> {
    [Chunk(1, c.enc(m.minFee))] + (NonZeroField(2, m.percentage) + TxsFields(c, m.txPriorityFee))
  }

  function ItemsFields(c: CoinCodec, ms: seq<CoinItem>): seq<Field> {
    if ms == [] then [] else [Chunk(2, EncItem(c, ms[0]))] + ItemsFields(c, ms[1..])
  }

  function FeeFields(c: CoinCodec, m: ChannelFee): seq<Field> {
    NonEmptyField(1, m.channel)
    + (ItemsFields(c, m.allowedTokens) + (NonEmptyField(3, m.feeAddress) + NonZeroField(4, m.minTimeoutTimestamp)))
  }

  function FeesFields(c: CoinCodec, ms: seq<ChannelFee>): seq<Field> {
    if ms == [] then [] else [Chunk(1, EncFee(c, ms[0]))] + FeesFields(c, ms[1..])
  }

  /** The data is a sequence of exactly these fields. */
  predicate Holds(schema: Schema, s: bytes, fs: seq<Field>) {
    Fields(schema, s) == Some(fs)
  }

  lemma HoldsBoth(schema: Schema, a: bytes, fs: seq<Field>, b: bytes, gs: seq<Field>)
    requires Holds(schema, a, fs) && Holds(schema, b, gs)
    ensures Holds(schema, a + b, fs + gs)
  {
    FieldsAppend(schema, a, b);
  }

  lemma HoldsOne(schema: Schema, e: bytes, f: Field)
    requires e != [] && NextField(schema, e + []) == Parsed(f, |e|)
    ensures Holds(schema, e, [f])
  {
    assert e + [] == e;
    FieldsCons(schema, e, f, []);
    assert [f] + [] == [f];
  }

  lemma HoldsChunk(schema: Schema, tag: byte, payload: bytes)
    requires tag < 128 && tag % 8 == 2 && tag / 8 > 0 && tag / 8 in schema && schema[tag / 8] == 2
    requires |payload| <= MAX_INT64
    ensures Holds(schema, EncChunk(tag, payload), [Chunk(tag / 8, payload)])
  {
    NextIsChunk(schema, tag, payload, []);
    HoldsOne(schema, EncChunk(tag, payload), Chunk(tag / 8, payload));
  }

  lemma HoldsNonEmpty(schema: Schema, tag: byte, value: bytes)
    requires tag < 128 && tag % 8 == 2 && tag / 8 > 0 && tag / 8 in schema && schema[tag / 8] == 2
    requires |value| <= MAX_INT64
    ensures Holds(schema, EncNonEmpty(tag, value), NonEmptyField(tag / 8, value))
  {
    if value != [] {
      HoldsChunk(schema, tag, value);
    }
  }

  lemma HoldsNonZero(schema: Schema, tag: byte, value: int64)
    requires tag < 128 && tag % 8 == 0 && tag / 8 > 0 && tag / 8 in schema && schema[tag / 8] == 0
    ensures Holds(schema, EncNonZero(tag, value), NonZeroField(tag / 8, value))
  {
    if value != 0 {
      NextIsNum(schema, tag, ToUint64(value), []);
      HoldsOne(schema, EncNum(tag, ToUint64(value)), Num(tag / 8, ToUint64(value)));
    }
  }

  lemma HoldsTx(c: CoinCodec, m: TxPriorityFee)
    requires |EncTx(c, m)| <= MAX_INT64
    ensures Holds(TX_SCHEMA, EncTx(c, m), TxFields(c, m))
  {
    HoldsNonEmpty(TX_SCHEMA, 0x0a, m.priority);
    HoldsChunk(TX_SCHEMA, 0x12, c.enc(m.priorityFee));
    HoldsBoth(TX_SCHEMA, EncNonEmpty(0x0a, m.priority), NonEmptyField(1, m.priority),
              EncChunk(0x12, c.enc(m.priorityFee)), [Chunk(2, c.enc(m.priorityFee))]);
  }

  lemma {:induction false} HoldsTxs(c: CoinCodec, ms: seq<TxPriorityFee>)
    requires |EncTxs(c, ms)| <= MAX_INT64
    ensures Holds(ITEM_SCHEMA, EncTxs(c, ms), TxsFields(c, ms))
  {
    if ms != [] {
      var e := EncTx(c, ms[0]);
      HoldsChunk(ITEM_SCHEMA, 0x1a, e);
      HoldsTxs(c, ms[1..]);
      HoldsBoth(ITEM_SCHEMA, EncChunk(0x1a, e), [Chunk(3, e)], EncTxs(c, ms[1..]), TxsFields(c, ms[1..]));
    }
  }

  lemma HoldsItem(c: CoinCodec, m: CoinItem)
    requires |EncItem(c, m)| <= MAX_INT64
    ensures Holds(ITEM_SCHEMA, EncItem(c, m), ItemFields(c, m))
  {
    var coin, percentage, txs := c.enc(m.minFee), EncNonZero(0x10, m.percentage), EncTxs(c, m.txPriorityFee);
    HoldsChunk(ITEM_SCHEMA, 0x0a, coin);
    HoldsNonZero(ITEM_SCHEMA, 0x10, m.percentage);
    HoldsTxs(c, m.txPriorityFee);
    HoldsBoth(ITEM_SCHEMA, percentage, NonZeroField(2, m.percentage), txs, TxsFields(c, m.txPriorityFee));
    HoldsBoth(ITEM_SCHEMA, EncChunk(0x0a, coin), [Chunk(1, coin)],
              percentage + txs, NonZeroField(2, m.percentage) + TxsFields(c, m.txPriorityFee));
  }

  lemma {:induction false} HoldsItems(c: CoinCodec, ms: seq<CoinItem>)
    requires |EncItems(c, ms)| <= MAX_INT64
    ensures Holds(FEE_SCHEMA, EncItems(c, ms), ItemsFields(c, ms))
  {
    if ms != [] {
      var e := EncItem(c, ms[0]);
      HoldsChunk(FEE_SCHEMA, 0x12, e);
      HoldsItems(c, ms[1..]);
      HoldsBoth(FEE_SCHEMA, EncChunk(0x12, e), [Chunk(2, e)], EncItems(c, ms[1..]), ItemsFields(c, ms[1..]));
    }
  }

  lemma HoldsFee(c: CoinCodec, m: ChannelFee)
    requires |EncFee(c, m)| <= MAX_INT64
    ensures Holds(FEE_SCHEMA, EncFee(c, m), FeeFields(c, m))
  {
    var channel, items := EncNonEmpty(0x0a, m.channel), EncItems(c, m.allowedTokens);
    var address, timeout := EncNonEmpty(0x1a, m.feeAddress), EncNonZero(0x20, m.minTimeoutTimestamp);
    var items', address', timeout' :=
      ItemsFields(c, m.allowedTokens), NonEmptyField(3, m.feeAddress), NonZeroField(4, m.minTimeoutTimestamp);
    if m.channel != [] { assert |m.channel| <= |channel|; }
    if m.feeAddress != [] { assert |m.feeAddress| <= |address|; }
    HoldsNonEmpty(FEE_SCHEMA, 0x0a, m.channel);
    HoldsItems(c, m.allowedTokens);
    HoldsNonEmpty(FEE_SCHEMA, 0x1a, m.feeAddress);
    HoldsNonZero(FEE_SCHEMA, 0x20, m.minTimeoutTimestamp);
    HoldsBoth(FEE_SCHEMA, address, address', timeout, timeout');
    HoldsBoth(FEE_SCHEMA, items, items', address + timeout, address' + timeout');
    HoldsBoth(FEE_SCHEMA, channel, NonEmptyField(1, m.channel),
              items + (address + timeout), items' + (address' + timeout'));
  }

  lemma {:induction false} HoldsFees(c: CoinCodec, ms: seq<ChannelFee>)
    requires |EncFees(c, ms)| <= MAX_INT64
    ensures Holds(PARAMS_SCHEMA, EncFees(c, ms), FeesFields(c, ms))
  {
    if ms != [] {
      var e := EncFee(c, ms[0]);
      HoldsChunk(PARAMS_SCHEMA, 0x0a, e);
      HoldsFees(c, ms[1..]);
      HoldsBoth(PARAMS_SCHEMA, EncChunk(0x0a, e), [Chunk(1, e)], EncFees(c, ms[1..]), FeesFields(c, ms[1..]));
    }
  }

  // ---------------------------------------------------------------- folding over concatenated fields

  lemma {:induction false} FoldTxAppend(c: CoinCodec, m: TxPriorityFee, fs: seq<Field>, gs: seq<Field>)
    ensures FoldTx(c, m, fs + gs) == match FoldTx(c, m, fs) case None => None case Some(m') => FoldTx(c, m', gs)
    decreases |fs|
  {
    if fs == [] {
      assert fs + gs == gs;
    } else {
      assert (fs + gs)[1..] == fs[1..] + gs;
      var r := ApplyTx(c, m, fs[0]);
      if r.Some? {
        FoldTxAppend(c, r.value, fs[1..], gs);
      }
    }
  }

  lemma {:induction false} FoldItemAppend(c: CoinCodec, m: CoinItem, fs: seq<Field>, gs: seq<Field>)
    ensures FoldItem(c, m, fs + gs) == match FoldItem(c, m, fs) case None => None case Some(m') => FoldItem(c, m', gs)
    decreases |fs|
  {
    if fs == [] {
      assert fs + gs == gs;
    } else {
      assert (fs + gs)[1..] == fs[1..] + gs;
      var r := ApplyItem(c, m, fs[0]);
      if r.Some? {
        FoldItemAppend(c, r.value, fs[1..], gs);
      }
    }
  }

  lemma {:induction false} FoldFeeAppend(c: CoinCodec, m: ChannelFee, fs: seq<Field>, gs: seq<Field>)
    ensures FoldFee(c, m, fs + gs) == match FoldFee(c, m, fs) case None => None case Some(m') => FoldFee(c, m', gs)
    decreases |fs|
  {
    if fs == [] {
      assert fs + gs == gs;
    } else {
      assert (fs + gs)[1..] == fs[1..] + gs;
      var r := ApplyFee(c, m, fs[0]);
      if r.Some? {
        FoldFeeAppend(c, r.value, fs[1..], gs);
      }
    }
  }

  lemma {:induction false} FoldParamsAppend(c: CoinCodec, m: Params, fs: seq<Field>, gs: seq<Field>)
    ensures FoldParams(c, m, fs + gs)
      == match FoldParams(c, m, fs) case None => None case Some(m') => FoldParams(c, m', gs)
    decreases |fs|
  {
    if fs == [] {
      assert fs + gs == gs;
    } else {
      assert (fs + gs)[1..] == fs[1..] + gs;
      var r := ApplyParams(c, m, fs[0]);
      if r.Some? {
        FoldParamsAppend(c, r.value, fs[1..], gs);
      }
    }
  }

  // ---------------------------------------------------------------- round trips

  lemma ShiftOne<T>(before: seq<T>, ms: seq<T>)
    requires ms != []
    ensures before + ms == (before + [ms[0]]) + ms[1..]
  {
  }

  lemma FoldItemCons(c: CoinCodec, m: CoinItem, f: Field, m': CoinItem, fs: seq<Field>)
    requires ApplyItem(c, m, f) == Some(m')
    ensures FoldItem(c, m, [f] + fs) == FoldItem(c, m', fs)
  {
    assert ([f] + fs)[1..] == fs;
  }

  lemma FoldFeeCons(c: CoinCodec, m: ChannelFee, f: Field, m': ChannelFee, fs: seq<Field>)
    requires ApplyFee(c, m, f) == Some(m')
    ensures FoldFee(c, m, [f] + fs) == FoldFee(c, m', fs)
  {
    assert ([f] + fs)[1..] == fs;
  }

  lemma FoldParamsCons(c: CoinCodec, m: Params, f: Field, m': Params, fs: seq<Field>)
    requires ApplyParams(c, m, f) == Some(m')
    ensures FoldParams(c, m, [f] + fs) == FoldParams(c, m', fs)
  {
    assert ([f] + fs)[1..] == fs;
  }

  lemma TxRoundTrip(c: CoinCodec, m: TxPriorityFee)
    requires c.Lawful() && |EncTx(c, m)| <= MAX_INT64
    ensures DecTx(c, NO_TX, EncTx(c, m)) == Some(m)
  {
    HoldsTx(c, m);
    FoldTxAppend(c, NO_TX, NonEmptyField(1, m.priority), [Chunk(2, c.enc(m.priorityFee))]);
  }

  lemma {:induction false} FoldTxs(c: CoinCodec, m: CoinItem, ms: seq<TxPriorityFee>)
    requires c.Lawful() && |EncTxs(c, ms)| <= MAX_INT64
    ensures FoldItem(c, m, TxsFields(c, ms)) == Some(m.(txPriorityFee := m.txPriorityFee + ms))
    decreases |ms|
  {
    if ms == [] {
      assert m.txPriorityFee + ms == m.txPriorityFee;
    } else {
      var m1 := m.(txPriorityFee := m.txPriorityFee + [ms[0]]);
      TxRoundTrip(c, ms[0]);
      FoldItemCons(c, m, Chunk(3, EncTx(c, ms[0])), m1, TxsFields(c, ms[1..]));
      FoldTxs(c, m1, ms[1..]);
      ShiftOne(m.txPriorityFee, ms);
    }
  }

  lemma ItemRoundTrip(c: CoinCodec, m: CoinItem)
    requires c.Lawful() && |EncItem(c, m)| <= MAX_INT64
    ensures DecItem(c, NO_ITEM, EncItem(c, m)) == Some(m)
  {
    var coin, percentage := [Chunk(1, c.enc(m.minFee))], NonZeroField(2, m.percentage);
    var txs := TxsFields(c, m.txPriorityFee);
    HoldsItem(c, m);
    FoldItemAppend(c, NO_ITEM, coin, percentage + txs);
    FoldItemAppend(c, NO_ITEM.(minFee := m.minFee), percentage, txs);
    FoldTxs(c, NO_ITEM.(minFee := m.minFee, percentage := m.percentage), m.txPriorityFee);
    assert [] + m.txPriorityFee == m.txPriorityFee;
  }

  lemma {:induction false} FoldItems(c: CoinCodec, m: ChannelFee, ms: seq<CoinItem>)
    requires c.Lawful() && |EncItems(c, ms)| <= MAX_INT64
    ensures FoldFee(c, m, ItemsFields(c, ms)) == Some(m.(allowedTokens := m.allowedTokens + ms))
    decreases |ms|
  {
    if ms == [] {
      assert m.allowedTokens + ms == m.allowedTokens;
    } else {
      var m1 := m.(allowedTokens := m.allowedTokens + [ms[0]]);
      ItemRoundTrip(c, ms[0]);
      FoldFeeCons(c, m, Chunk(2, EncItem(c, ms[0])), m1, ItemsFields(c, ms[1..]));
      FoldItems(c, m1, ms[1..]);
      ShiftOne(m.allowedTokens, ms);
    }
  }

  /** The fields after the channel, read into a record that has none of them yet. */
  lemma FoldFeeRest(c: CoinCodec, m: ChannelFee, m1: ChannelFee)
    requires c.Lawful() && |EncItems(c, m.allowedTokens)| <= MAX_INT64
    requires m1 == NO_FEE.(channel := m.channel)
    ensures FoldFee(c, m1, ItemsFields(c, m.allowedTokens)
                           + (NonEmptyField(3, m.feeAddress) + NonZeroField(4, m.minTimeoutTimestamp))) == Some(m)
  {
    var address, timeout := NonEmptyField(3, m.feeAddress), NonZeroField(4, m.minTimeoutTimestamp);
    FoldFeeAppend(c, m1, ItemsFields(c, m.allowedTokens), address + timeout);
    FoldItems(c, m1, m.allowedTokens);
    assert [] + m.allowedTokens == m.allowedTokens;
    FoldFeeAppend(c, m1.(allowedTokens := m.allowedTokens), address, timeout);
  }

  lemma FeeRoundTrip(c: CoinCodec, m: ChannelFee)
    requires c.Lawful() && |EncFee(c, m)| <= MAX_INT64
    ensures DecFee(c, NO_FEE, EncFee(c, m)) == Some(m)
  {
    var m1 := NO_FEE.(channel := m.channel);
    HoldsFee(c, m);
    FoldFeeRest(c, m, m1);
    FoldFeeAppend(c, NO_FEE, NonEmptyField(1, m.channel), ItemsFields(c, m.allowedTokens)
                  + (NonEmptyField(3, m.feeAddress) + NonZeroField(4, m.minTimeoutTimestamp)));
  }

  lemma {:induction false} FoldFees(c: CoinCodec, m: Params, ms: seq<ChannelFee>)
    requires c.Lawful() && |EncFees(c, ms)| <= MAX_INT64
    ensures FoldParams(c, m, FeesFields(c, ms)) == Some(Params(m.channelFees + ms))
    decreases |ms|
  {
    if ms == [] {
      assert m.channelFees + ms == m.channelFees;
    } else {
      var m1 := Params(m.channelFees + [ms[0]]);
      FeeRoundTrip(c, ms[0]);
      FoldParamsCons(c, m, Chunk(1, EncFee(c, ms[0])), m1, FeesFields(c, ms[1..]));
      FoldFees(c, m1, ms[1..]);
      ShiftOne(m.channelFees, ms);
    }
  }

  /** Every parameter value whose encoding fits a Go int is read back as it was written. */
  lemma ParamsRoundTrip(c: CoinCodec, m: Params)
    requires c.Lawful() && |EncParams(c, m)| <= MAX_INT64
    ensures DecParams(c, NO_PARAMS, EncParams(c, m)) == Some(m)
  {
    HoldsFees(c, m.channelFees);
    FoldFees(c, NO_PARAMS, m.channelFees);
    assert [] + m.channelFees == m.channelFees;
  }

  // ---------------------------------------------------------------- concatenation

  /** What was read before only precedes what is read. */
  lemma {:induction false} FoldParamsFrom(c: CoinCodec, before: seq<ChannelFee>, m: Params, fs: seq<Field>)
    ensures FoldParams(c, Params(before + m.channelFees), fs)
            == match FoldParams(c, m, fs) case None => None case Some(m') => Some(Params(before + m'.channelFees))
    decreases |fs|
  {
    if fs != [] {
      var r := ApplyParams(c, m, fs[0]);
      if r.Some? {
        if fs[0].Chunk? {
          var fee := DecFee(c, NO_FEE, fs[0].payload).value;
          assert before + (m.channelFees + [fee]) == before + m.channelFees + [fee];
        }
        FoldParamsFrom(c, before, r.value, fs[1..]);
      }
    }
  }

  /** Two encodings one after the other read as the channel fees of the first, then those of the second. */
  lemma ConcatenationMerges(c: CoinCodec, a: bytes, b: bytes)
    requires DecParams(c, NO_PARAMS, a).Some? && DecParams(c, NO_PARAMS, b).Some?
    ensures DecParams(c, NO_PARAMS, a + b)
            == Some(Params(DecParams(c, NO_PARAMS, a).value.channelFees + DecParams(c, NO_PARAMS, b).value.channelFees))
  {
    var fs, gs := Fields(PARAMS_SCHEMA, a).value, Fields(PARAMS_SCHEMA, b).value;
    FieldsAppend(PARAMS_SCHEMA, a, b);
    FoldParamsAppend(c, NO_PARAMS, fs, gs);
    var before := FoldParams(c, NO_PARAMS, fs).value.channelFees;
    assert before + [] == before;
    FoldParamsFrom(c, before, NO_PARAMS, gs);
  }

  /** A well-formed field of a number other than 1, groups included, adds nothing between any two fields. */
  lemma UnknownFieldAddsNothing(c: CoinCodec, m: Params, a: bytes, w: Wild, b: bytes)
    requires Fields(PARAMS_SCHEMA, a).Some? && w.WellFormed() && w.num !in PARAMS_SCHEMA && |EncWild(w)| <= MAX_INT64
    ensures DecParams(c, m, a + (EncWild(w) + b)) == DecParams(c, m, a + b)
  {
    UnknownFieldIsSkipped(PARAMS_SCHEMA, w, b);
    FieldsCons(PARAMS_SCHEMA, EncWild(w), Unknown, b);
    FieldsAppend(PARAMS_SCHEMA, a, EncWild(w) + b);
    FieldsAppend(PARAMS_SCHEMA, a, b);
    if Fields(PARAMS_SCHEMA, b).Some? {
      var fs, gs := Fields(PARAMS_SCHEMA, a).value, Fields(PARAMS_SCHEMA, b).value;
      FoldParamsAppend(c, m, fs, [Unknown] + gs);
      FoldParamsAppend(c, m, fs, gs);
      assert ([Unknown] + gs)[1..] == gs;
    }
  }
}
