/**
 Size, Marshal and Unmarshal of the four fee messages as the generated code computes them: sizes are summed
 up, buffers filled backwards from their end, and data read in one pass from its start.
 */
module FeeCodecCode {
  import opened Wrappers
  import opened Bytes
  import opened Wire
  import opened WireCode
  import opened FeeTypes
  import opened FeeCodec

  // ---------------------------------------------------------------- sizes

  lemma ChunkSize(tag: byte, payload: bytes)
    requires |payload| <= MAX_INT64
    ensures |EncChunk(tag, payload)| == 1 + |payload| + Sov(|payload|)
  {
    SovExact(|payload|);
  }

  method SizeTx(c: CoinCodec, m: TxPriorityFee) returns (n: nat)
    requires |EncTx(c, m)| <= MAX_INT64
    ensures n == |EncTx(c, m)|
  {
    n := 0;
    var l := |m.priority|;
    if l > 0 {
      ChunkSize(0x0a, m.priority);
      n := n + 1 + l + Sov(l);
    }
    l := |c.enc(m.priorityFee)|;
    ChunkSize(0x12, c.enc(m.priorityFee));
    n := n + 1 + l + Sov(l);
  }

  method SizeItem(c: CoinCodec, m: CoinItem) returns (n: nat)
    requires |EncItem(c, m)| <= MAX_INT64
    ensures n == |EncItem(c, m)|
  {
    var l := |c.enc(m.minFee)|;
    ChunkSize(0x0a, c.enc(m.minFee));
    n := 1 + l + Sov(l);
    if m.percentage != 0 {
      SovExact(ToUint64(m.percentage));
      n := n + 1 + Sov(ToUint64(m.percentage));
    }
    for i := 0 to |m.txPriorityFee|
      invariant n + |EncTxs(c, m.txPriorityFee[i..])| == |EncItem(c, m)|
    {
      var rest := m.txPriorityFee[i..];
      assert rest[1..] == m.txPriorityFee[i + 1..];
      l := SizeTx(c, m.txPriorityFee[i]);
      ChunkSize(0x1a, EncTx(c, m.txPriorityFee[i]));
      n := n + 1 + l + Sov(l);
    }
  }

  method SizeFee(c: CoinCodec, m: ChannelFee) returns (n: nat)
    requires |EncFee(c, m)| <= MAX_INT64
    ensures n == |EncFee(c, m)|
  {
    n := 0;
    var l := |m.channel|;
    if l > 0 {
      ChunkSize(0x0a, m.channel);
      n := n + 1 + l + Sov(l);
    }
    ghost var tail := EncNonEmpty(0x1a, m.feeAddress) + EncNonZero(0x20, m.minTimeoutTimestamp);
    for i := 0 to |m.allowedTokens|
      invariant n + |EncItems(c, m.allowedTokens[i..])| + |tail| == |EncFee(c, m)|
    {
      var rest := m.allowedTokens[i..];
      assert rest[1..] == m.allowedTokens[i + 1..];
      l := SizeItem(c, m.allowedTokens[i]);
      ChunkSize(0x12, EncItem(c, m.allowedTokens[i]));
      n := n + 1 + l + Sov(l);
    }
    l := |m.feeAddress|;
    if l > 0 {
      ChunkSize(0x1a, m.feeAddress);
      n := n + 1 + l + Sov(l);
    }
    if m.minTimeoutTimestamp != 0 {
      SovExact(ToUint64(m.minTimeoutTimestamp));
      n := n + 1 + Sov(ToUint64(m.minTimeoutTimestamp));
    }
  }

  method SizeParams(c: CoinCodec, m: Params) returns (n: nat)
    requires |EncParams(c, m)| <= MAX_INT64
    ensures n == |EncParams(c, m)|
  {
    n := 0;
    for i := 0 to |m.channelFees|
      invariant n + |EncFees(c, m.channelFees[i..])| == |EncParams(c, m)|
    {
      var rest := m.channelFees[i..];
      assert rest[1..] == m.channelFees[i + 1..];
      var l := SizeFee(c, m.channelFees[i]);
      ChunkSize(0x0a, EncFee(c, m.channelFees[i]));
      n := n + 1 + l + Sov(l);
    }
  }

  // ---------------------------------------------------------------- writing backwards

  /** The length and the tag in front of a payload that ends up at index i. */
  method PutHeader(dAtA: array<byte>, i: nat, size: nat, tag: byte) returns (j: nat)
    requires size <= MAX_INT64 && 1 + |EncVarint(size)| <= i <= dAtA.Length
    modifies dAtA
    ensures j == i - 1 - |EncVarint(size)|
    ensures Spliced(old(dAtA[..]), dAtA[..], j, [tag] + EncVarint(size))
  {
    ghost var b0 := dAtA[..];
    j := EncodeVarint(dAtA, i, size);
    ghost var b1 := dAtA[..];
    j := j - 1;
    PutByte(dAtA, j, tag);
    SplicedTwice(b0, b1, dAtA[..], j, [tag], j + 1, EncVarint(size));
  }

  lemma HeaderThenPayload(b0: bytes, b1: bytes, b2: bytes, i: nat, j: nat, tag: byte, payload: bytes)
    requires Spliced(b0, b1, j, payload) && Spliced(b1, b2, i, [tag] + EncVarint(|payload|))
    requires i + 1 + |EncVarint(|payload|)| == j
    ensures Spliced(b0, b2, i, EncChunk(tag, payload))
  {
    SplicedTwice(b0, b1, b2, i, [tag] + EncVarint(|payload|), j, payload);
  }

  /** The header in front of a payload that is already in place. */
  method FinishChunk(dAtA: array<byte>, at: nat, size: nat, tag: byte, ghost before: bytes, ghost payload: bytes)
    returns (j: nat)
    requires size == |payload| <= MAX_INT64 && Spliced(before, dAtA[..], at, payload)
    requires 1 + |EncVarint(size)| <= at <= dAtA.Length
    modifies dAtA
    ensures j + |EncChunk(tag, payload)| == at + size
    ensures Spliced(before, dAtA[..], j, EncChunk(tag, payload))
  {
    ghost var b1 := dAtA[..];
    j := PutHeader(dAtA, at, size, tag);
    HeaderThenPayload(before, b1, dAtA[..], j, at, tag, payload);
  }

  /** A length-delimited field that ends at index i. */
  method PutChunk(dAtA: array<byte>, i: nat, tag: byte, payload: bytes) returns (j: nat)
    requires |payload| <= MAX_INT64 && |EncChunk(tag, payload)| <= i <= dAtA.Length
    modifies dAtA
    ensures j == i - |EncChunk(tag, payload)|
    ensures Spliced(old(dAtA[..]), dAtA[..], j, EncChunk(tag, payload))
  {
    ghost var b0 := dAtA[..];
    var at := i - |payload|;
    Copy(dAtA, at, payload);
    ghost var b1 := dAtA[..];
    j := PutHeader(dAtA, at, |payload|, tag);
    HeaderThenPayload(b0, b1, dAtA[..], j, at, tag, payload);
  }

  method PutNum(dAtA: array<byte>, i: nat, tag: byte, value: uint64) returns (j: nat)
    requires |EncNum(tag, value)| <= i <= dAtA.Length
    modifies dAtA
    ensures j == i - |EncNum(tag, value)|
    ensures Spliced(old(dAtA[..]), dAtA[..], j, EncNum(tag, value))
  {
    ghost var b0 := dAtA[..];
    j := EncodeVarint(dAtA, i, value);
    ghost var b1 := dAtA[..];
    j := j - 1;
    PutByte(dAtA, j, tag);
    SplicedTwice(b0, b1, dAtA[..], j, [tag], j + 1, EncVarint(value));
  }

  method PutNonEmpty(dAtA: array<byte>, i: nat, tag: byte, value: bytes) returns (j: nat)
    requires |value| <= MAX_INT64 && |EncNonEmpty(tag, value)| <= i <= dAtA.Length
    modifies dAtA
    ensures j == i - |EncNonEmpty(tag, value)|
    ensures Spliced(old(dAtA[..]), dAtA[..], j, EncNonEmpty(tag, value))
  {
    j := i;
    if |value| > 0 {
      j := PutChunk(dAtA, i, tag, value);
    }
  }

  method PutNonZero(dAtA: array<byte>, i: nat, tag: byte, value: int64) returns (j: nat)
    requires |EncNonZero(tag, value)| <= i <= dAtA.Length
    modifies dAtA
    ensures j == i - |EncNonZero(tag, value)|
    ensures Spliced(old(dAtA[..]), dAtA[..], j, EncNonZero(tag, value))
  {
    j := i;
    if value != 0 {
      j := PutNum(dAtA, i, tag, ToUint64(value));
    }
  }

  /** MarshalToSizedBuffer on dAtA[:end]: the message fills the tail of that part, and nothing else changes. */
  method MarshalTx(c: CoinCodec, m: TxPriorityFee, dAtA: array<byte>, end: nat) returns (n: nat)
    requires |EncTx(c, m)| <= end <= dAtA.Length <= MAX_INT64
    modifies dAtA
    ensures n == |EncTx(c, m)|
    ensures Spliced(old(dAtA[..]), dAtA[..], end - n, EncTx(c, m))
  {
    ghost var b0 := dAtA[..];
    var i := PutChunk(dAtA, end, 0x12, c.enc(m.priorityFee));
    ghost var b1, j := dAtA[..], i;
    i := PutNonEmpty(dAtA, i, 0x0a, m.priority);
    SplicedTwice(b0, b1, dAtA[..], i, EncNonEmpty(0x0a, m.priority), j, EncChunk(0x12, c.enc(m.priorityFee)));
    n := end - i;
  }

  /** One element of the repeated field, behind its length and tag. */
  method PutTx(c: CoinCodec, m: TxPriorityFee, dAtA: array<byte>, end: nat) returns (i: nat)
    requires |EncChunk(0x1a, EncTx(c, m))| <= end <= dAtA.Length <= MAX_INT64
    modifies dAtA
    ensures i == end - |EncChunk(0x1a, EncTx(c, m))|
    ensures Spliced(old(dAtA[..]), dAtA[..], i, EncChunk(0x1a, EncTx(c, m)))
  {
    ghost var before := dAtA[..];
    var size := MarshalTx(c, m, dAtA, end);
    i := FinishChunk(dAtA, end - size, size, 0x1a, before, EncTx(c, m));
  }

  /** The repeated field, last element first. */
  method MarshalTxs(c: CoinCodec, ms: seq<TxPriorityFee>, dAtA: array<byte>, end: nat) returns (i: nat)
    requires |EncTxs(c, ms)| <= end <= dAtA.Length <= MAX_INT64
    modifies dAtA
    ensures i == end - |EncTxs(c, ms)|
    ensures Spliced(old(dAtA[..]), dAtA[..], i, EncTxs(c, ms))
  {
    ghost var b0 := dAtA[..];
    i := end;
    for k := |ms| downto 0
      invariant |EncTxs(c, ms[k..])| <= |EncTxs(c, ms)| && i == end - |EncTxs(c, ms[k..])|
      invariant Spliced(b0, dAtA[..], i, EncTxs(c, ms[k..]))
    {
      TxsFrom(c, ms, k);
      ghost var b1, j := dAtA[..], i;
      i := PutTx(c, ms[k], dAtA, i);
      SplicedTwice(b0, b1, dAtA[..], i, EncChunk(0x1a, EncTx(c, ms[k])), j, EncTxs(c, ms[k + 1..]));
    }
    assert ms[0..] == ms;
  }

  lemma {:induction false} TxsFrom(c: CoinCodec, ms: seq<TxPriorityFee>, k: nat)
    requires k < |ms|
    ensures EncTxs(c, ms[k..]) == EncChunk(0x1a, EncTx(c, ms[k])) + EncTxs(c, ms[k + 1..])
    ensures |EncTxs(c, ms[k..])| <= |EncTxs(c, ms)|
  {
    assert ms[k..][1..] == ms[k + 1..];
    if k == 0 {
      assert ms[0..] == ms;
    } else {
      TxsFrom(c, ms, k - 1);
    }
  }

  method MarshalItem(c: CoinCodec, m: CoinItem, dAtA: array<byte>, end: nat) returns (n: nat)
    requires |EncItem(c, m)| <= end <= dAtA.Length <= MAX_INT64
    modifies dAtA
    ensures n == |EncItem(c, m)|
    ensures Spliced(old(dAtA[..]), dAtA[..], end - n, EncItem(c, m))
  {
    ghost var coin, percentage := EncChunk(0x0a, c.enc(m.minFee)), EncNonZero(0x10, m.percentage);
    ghost var txs := EncTxs(c, m.txPriorityFee);
    ghost var b0 := dAtA[..];
    var i := MarshalTxs(c, m.txPriorityFee, dAtA, end);
    ghost var b1, i1 := dAtA[..], i;
    i := PutNonZero(dAtA, i, 0x10, m.percentage);
    ghost var b2, i2 := dAtA[..], i;
    SplicedTwice(b0, b1, b2, i2, percentage, i1, txs);
    i := PutChunk(dAtA, i, 0x0a, c.enc(m.minFee));
    SplicedTwice(b0, b2, dAtA[..], i, coin, i2, percentage + txs);
    n := end - i;
  }

  method PutItem(c: CoinCodec, m: CoinItem, dAtA: array<byte>, end: nat) returns (i: nat)
    requires |EncChunk(0x12, EncItem(c, m))| <= end <= dAtA.Length <= MAX_INT64
    modifies dAtA
    ensures i == end - |EncChunk(0x12, EncItem(c, m))|
    ensures Spliced(old(dAtA[..]), dAtA[..], i, EncChunk(0x12, EncItem(c, m)))
  {
    ghost var before := dAtA[..];
    var size := MarshalItem(c, m, dAtA, end);
    i := FinishChunk(dAtA, end - size, size, 0x12, before, EncItem(c, m));
  }

  method MarshalItems(c: CoinCodec, ms: seq<CoinItem>, dAtA: array<byte>, end: nat) returns (i: nat)
    requires |EncItems(c, ms)| <= end <= dAtA.Length <= MAX_INT64
    modifies dAtA
    ensures i == end - |EncItems(c, ms)|
    ensures Spliced(old(dAtA[..]), dAtA[..], i, EncItems(c, ms))
  {
    ghost var b0 := dAtA[..];
    i := end;
    for k := |ms| downto 0
      invariant |EncItems(c, ms[k..])| <= |EncItems(c, ms)| && i == end - |EncItems(c, ms[k..])|
      invariant Spliced(b0, dAtA[..], i, EncItems(c, ms[k..]))
    {
      ItemsFrom(c, ms, k);
      ghost var b1, j := dAtA[..], i;
      i := PutItem(c, ms[k], dAtA, i);
      SplicedTwice(b0, b1, dAtA[..], i, EncChunk(0x12, EncItem(c, ms[k])), j, EncItems(c, ms[k + 1..]));
    }
    assert ms[0..] == ms;
  }

  lemma {:induction false} ItemsFrom(c: CoinCodec, ms: seq<CoinItem>, k: nat)
    requires k < |ms|
    ensures EncItems(c, ms[k..]) == EncChunk(0x12, EncItem(c, ms[k])) + EncItems(c, ms[k + 1..])
    ensures |EncItems(c, ms[k..])| <= |EncItems(c, ms)|
  {
    assert ms[k..][1..] == ms[k + 1..];
    if k == 0 {
      assert ms[0..] == ms;
    } else {
      ItemsFrom(c, ms, k - 1);
    }
  }

  method MarshalFee(c: CoinCodec, m: ChannelFee, dAtA: array<byte>, end: nat) returns (n: nat)
    requires |EncFee(c, m)| <= end <= dAtA.Length <= MAX_INT64
    modifies dAtA
    ensures n == |EncFee(c, m)|
    ensures Spliced(old(dAtA[..]), dAtA[..], end - n, EncFee(c, m))
  {
    ghost var channel, items := EncNonEmpty(0x0a, m.channel), EncItems(c, m.allowedTokens);
    ghost var address, timeout := EncNonEmpty(0x1a, m.feeAddress), EncNonZero(0x20, m.minTimeoutTimestamp);
    ghost var b0 := dAtA[..];
    var i := PutNonZero(dAtA, end, 0x20, m.minTimeoutTimestamp);
    ghost var b1, i1 := dAtA[..], i;
    i := PutNonEmpty(dAtA, i, 0x1a, m.feeAddress);
    ghost var b2, i2 := dAtA[..], i;
    SplicedTwice(b0, b1, b2, i2, address, i1, timeout);
    i := MarshalItems(c, m.allowedTokens, dAtA, i);
    ghost var b3, i3 := dAtA[..], i;
    SplicedTwice(b0, b2, b3, i3, items, i2, address + timeout);
    i := PutNonEmpty(dAtA, i, 0x0a, m.channel);
    SplicedTwice(b0, b3, dAtA[..], i, channel, i3, items + (address + timeout));
    n := end - i;
  }

  method PutFee(c: CoinCodec, m: ChannelFee, dAtA: array<byte>, end: nat) returns (i: nat)
    requires |EncChunk(0x0a, EncFee(c, m))| <= end <= dAtA.Length <= MAX_INT64
    modifies dAtA
    ensures i == end - |EncChunk(0x0a, EncFee(c, m))|
    ensures Spliced(old(dAtA[..]), dAtA[..], i, EncChunk(0x0a, EncFee(c, m)))
  {
    ghost var before := dAtA[..];
    var size := MarshalFee(c, m, dAtA, end);
    i := FinishChunk(dAtA, end - size, size, 0x0a, before, EncFee(c, m));
  }

  lemma {:induction false} FeesFrom(c: CoinCodec, ms: seq<ChannelFee>, k: nat)
    requires k < |ms|
    ensures EncFees(c, ms[k..]) == EncChunk(0x0a, EncFee(c, ms[k])) + EncFees(c, ms[k + 1..])
    ensures |EncFees(c, ms[k..])| <= |EncFees(c, ms)|
  {
    assert ms[k..][1..] == ms[k + 1..];
    if k == 0 {
      assert ms[0..] == ms;
    } else {
      FeesFrom(c, ms, k - 1);
    }
  }

  method MarshalFees(c: CoinCodec, ms: seq<ChannelFee>, dAtA: array<byte>, end: nat) returns (i: nat)
    requires |EncFees(c, ms)| <= end <= dAtA.Length <= MAX_INT64
    modifies dAtA
    ensures i == end - |EncFees(c, ms)|
    ensures Spliced(old(dAtA[..]), dAtA[..], i, EncFees(c, ms))
  {
    ghost var b0 := dAtA[..];
    i := end;
    for k := |ms| downto 0
      invariant |EncFees(c, ms[k..])| <= |EncFees(c, ms)| && i == end - |EncFees(c, ms[k..])|
      invariant Spliced(b0, dAtA[..], i, EncFees(c, ms[k..]))
    {
      FeesFrom(c, ms, k);
      ghost var b1, j := dAtA[..], i;
      i := PutFee(c, ms[k], dAtA, i);
      SplicedTwice(b0, b1, dAtA[..], i, EncChunk(0x0a, EncFee(c, ms[k])), j, EncFees(c, ms[k + 1..]));
    }
    assert ms[0..] == ms;
  }

  method MarshalParams(c: CoinCodec, m: Params, dAtA: array<byte>, end: nat) returns (n: nat)
    requires |EncParams(c, m)| <= end <= dAtA.Length <= MAX_INT64
    modifies dAtA
    ensures n == |EncParams(c, m)|
    ensures Spliced(old(dAtA[..]), dAtA[..], end - n, EncParams(c, m))
  {
    var i := MarshalFees(c, m.channelFees, dAtA, end);
    n := end - i;
  }

  /** Params.Marshal: a buffer of exactly the computed size, filled completely. */
  method Marshal(c: CoinCodec, m: Params) returns (data: bytes)
    requires |EncParams(c, m)| <= MAX_INT64
    ensures data == EncParams(c, m)
  {
    var size := SizeParams(c, m);
    var dAtA := new byte[size](i => 0);
    var n := MarshalParams(c, m, dAtA, size);
    data := dAtA[..n];
  }

  // ---------------------------------------------------------------- reading

  /** The part the four Unmarshal loops share: the tag at index i and the field it announces. */
  method ReadField(schema: Schema, data: bytes, i: nat) returns (r: Parsed)
    requires i < |data| <= MAX_INT64
    ensures r == NextField(schema, data[i..])
  {
    var tag := DecodeVarint(data, i);
    RawVarintShift(data, i, 0, 0);
    if tag.NoVarint? {
      return NoField;
    }
    var num, wireType := FieldNum(tag.value), tag.value % 8;
    if wireType == 4 || num <= 0 {
      return NoField;
    }
    if num in schema {
      if wireType != schema[num] {
        return NoField;
      }
      r := ReadPayload(data, i, i + tag.size, num, wireType);
    } else {
      var skippy := SkipData(data[i..]);
      if skippy.None? || i + skippy.value > MAX_INT64 || i + skippy.value > |data| {
        return NoField;
      }
      return Parsed(Unknown, skippy.value);
    }
  }

  lemma SliceOfSlice(data: bytes, i: nat, start: nat, post: nat)
    requires i <= start <= post <= |data|
    ensures data[i..][start - i..post - i] == data[start..post]
  {
  }

  method ReadPayload(data: bytes, i: nat, at: nat, num: int, wireType: int) returns (r: Parsed)
    requires i <= at <= |data| <= MAX_INT64
    ensures r == ReadKnown(num, wireType, data[i..], at - i)
  {
    RawVarintShift(data, i, at - i, 0);
    var v := DecodeVarint(data, at);
    if v.NoVarint? {
      return NoField;
    }
    if wireType == 0 {
      return Parsed(Num(num, v.value), at - i + v.size);
    }
    if ToInt64(v.value) < 0 {
      return NoField;
    }
    var start := at + v.size;
    var post := start + v.value;
    if post > MAX_INT64 || post > |data| {
      return NoField;
    }
    SliceOfSlice(data, i, start, post);
    return Parsed(Chunk(num, data[start..post]), post - i);
  }

  lemma TurnOfTx(c: CoinCodec, m: TxPriorityFee, s: bytes)
    requires s != []
    ensures match NextField(TX_SCHEMA, s)
            case NoField => DecTx(c, m, s) == None
            case Parsed(f, n) =>
              match ApplyTx(c, m, f)
              case None => DecTx(c, m, s) == None
              case Some(m') => DecTx(c, m, s) == DecTx(c, m', s[n..])
  {
    var p := NextField(TX_SCHEMA, s);
    if p.Parsed? {
      var rest := Fields(TX_SCHEMA, s[p.size..]);
      if rest.Some? {
        assert ([p.field] + rest.value)[1..] == rest.value;
      }
    }
  }

  lemma TurnOfItem(c: CoinCodec, m: CoinItem, s: bytes)
    requires s != []
    ensures match NextField(ITEM_SCHEMA, s)
            case NoField => DecItem(c, m, s) == None
            case Parsed(f, n) =>
              match ApplyItem(c, m, f)
              case None => DecItem(c, m, s) == None
              case Some(m') => DecItem(c, m, s) == DecItem(c, m', s[n..])
  {
    var p := NextField(ITEM_SCHEMA, s);
    if p.Parsed? {
      var rest := Fields(ITEM_SCHEMA, s[p.size..]);
      if rest.Some? {
        assert ([p.field] + rest.value)[1..] == rest.value;
      }
    }
  }

  lemma TurnOfFee(c: CoinCodec, m: ChannelFee, s: bytes)
    requires s != []
    ensures match NextField(FEE_SCHEMA, s)
            case NoField => DecFee(c, m, s) == None
            case Parsed(f, n) =>
              match ApplyFee(c, m, f)
              case None => DecFee(c, m, s) == None
              case Some(m') => DecFee(c, m, s) == DecFee(c, m', s[n..])
  {
    var p := NextField(FEE_SCHEMA, s);
    if p.Parsed? {
      var rest := Fields(FEE_SCHEMA, s[p.size..]);
      if rest.Some? {
        assert ([p.field] + rest.value)[1..] == rest.value;
      }
    }
  }

  lemma TurnOfParams(c: CoinCodec, m: Params, s: bytes)
    requires s != []
    ensures match NextField(PARAMS_SCHEMA, s)
            case NoField => DecParams(c, m, s) == None
            case Parsed(f, n) =>
              match ApplyParams(c, m, f)
              case None => DecParams(c, m, s) == None
              case Some(m') => DecParams(c, m, s) == DecParams(c, m', s[n..])
  {
    var p := NextField(PARAMS_SCHEMA, s);
    if p.Parsed? {
      var rest := Fields(PARAMS_SCHEMA, s[p.size..]);
      if rest.Some? {
        assert ([p.field] + rest.value)[1..] == rest.value;
      }
    }
  }

  // Each switch sets the member its field stands for; the loop around it is the same in all four messages.

  method SetTx(c: CoinCodec, m: TxPriorityFee, f: Field) returns (r: Option<TxPriorityFee>)
    ensures r == ApplyTx(c, m, f)
  {
    if !f.Chunk? {
      return Some(m);
    }
    if f.num == 1 {
      return Some(m.(priority := f.payload));
    }
    var coin := c.dec(m.priorityFee, f.payload);
    if coin.None? {
      return None;
    }
    return Some(m.(priorityFee := coin.value));
  }

  /** Unmarshal into a message m0, on arbitrary data. */
  method UnmarshalTx(c: CoinCodec, m0: TxPriorityFee, data: bytes) returns (r: Option<TxPriorityFee>)
    requires |data| <= MAX_INT64
    ensures r == DecTx(c, m0, data)
  {
    var m, i := m0, 0;
    while i < |data|
      invariant 0 <= i <= |data| && DecTx(c, m0, data) == DecTx(c, m, data[i..])
    {
      TurnOfTx(c, m, data[i..]);
      var p := ReadField(TX_SCHEMA, data, i);
      if p.NoField? {
        return None;
      }
      var next := SetTx(c, m, p.field);
      if next.None? {
        return None;
      }
      m := next.value;
      assert data[i..][p.size..] == data[i + p.size..];
      i := i + p.size;
    }
    return Some(m);
  }

  method SetItem(c: CoinCodec, m: CoinItem, f: Field) returns (r: Option<CoinItem>)
    requires f.Chunk? ==> |f.payload| <= MAX_INT64
    ensures r == ApplyItem(c, m, f)
  {
    match f {
      case Num(_, value) =>
        return Some(m.(percentage := ToInt64(value)));
      case Chunk(num, payload) =>
        if num == 1 {
          var coin := c.dec(m.minFee, payload);
          if coin.None? {
            return None;
          }
          return Some(m.(minFee := coin.value));
        }
        var tx := UnmarshalTx(c, NO_TX, payload);
        if tx.None? {
          return None;
        }
        return Some(m.(txPriorityFee := m.txPriorityFee + [tx.value]));
      case Unknown =>
        return Some(m);
    }
  }

  method UnmarshalItem(c: CoinCodec, m0: CoinItem, data: bytes) returns (r: Option<CoinItem>)
    requires |data| <= MAX_INT64
    ensures r == DecItem(c, m0, data)
  {
    var m, i := m0, 0;
    while i < |data|
      invariant 0 <= i <= |data| && DecItem(c, m0, data) == DecItem(c, m, data[i..])
    {
      TurnOfItem(c, m, data[i..]);
      PayloadFits(ITEM_SCHEMA, data[i..]);
      var p := ReadField(ITEM_SCHEMA, data, i);
      if p.NoField? {
        return None;
      }
      var next := SetItem(c, m, p.field);
      if next.None? {
        return None;
      }
      m := next.value;
      assert data[i..][p.size..] == data[i + p.size..];
      i := i + p.size;
    }
    return Some(m);
  }

  lemma PayloadFits(schema: Schema, s: bytes)
    ensures var p := NextField(schema, s); p.Parsed? && p.field.Chunk? ==> |p.field.payload| <= |s|
  {
  }

  method SetFee(c: CoinCodec, m: ChannelFee, f: Field) returns (r: Option<ChannelFee>)
    requires f.Chunk? ==> |f.payload| <= MAX_INT64
    ensures r == ApplyFee(c, m, f)
  {
    match f {
      case Num(_, value) =>
        return Some(m.(minTimeoutTimestamp := ToInt64(value)));
      case Chunk(num, payload) =>
        if num == 1 {
          return Some(m.(channel := payload));
        } else if num == 3 {
          return Some(m.(feeAddress := payload));
        }
        var item := UnmarshalItem(c, NO_ITEM, payload);
        if item.None? {
          return None;
        }
        return Some(m.(allowedTokens := m.allowedTokens + [item.value]));
      case Unknown =>
        return Some(m);
    }
  }

  method UnmarshalFee(c: CoinCodec, m0: ChannelFee, data: bytes) returns (r: Option<ChannelFee>)
    requires |data| <= MAX_INT64
    ensures r == DecFee(c, m0, data)
  {
    var m, i := m0, 0;
    while i < |data|
      invariant 0 <= i <= |data| && DecFee(c, m0, data) == DecFee(c, m, data[i..])
    {
      TurnOfFee(c, m, data[i..]);
      PayloadFits(FEE_SCHEMA, data[i..]);
      var p := ReadField(FEE_SCHEMA, data, i);
      if p.NoField? {
        return None;
      }
      var next := SetFee(c, m, p.field);
      if next.None? {
        return None;
      }
      m := next.value;
      assert data[i..][p.size..] == data[i + p.size..];
      i := i + p.size;
    }
    return Some(m);
  }

  method SetParams(c: CoinCodec, m: Params, f: Field) returns (r: Option<Params>)
    requires f.Chunk? ==> |f.payload| <= MAX_INT64
    ensures r == ApplyParams(c, m, f)
  {
    if !f.Chunk? {
      return Some(m);
    }
    var fee := UnmarshalFee(c, NO_FEE, f.payload);
    if fee.None? {
      return None;
    }
    return Some(Params(m.channelFees + [fee.value]));
  }

  method UnmarshalParams(c: CoinCodec, m0: Params, data: bytes) returns (r: Option<Params>)
    requires |data| <= MAX_INT64
    ensures r == DecParams(c, m0, data)
  {
    var m, i := m0, 0;
    while i < |data|
      invariant 0 <= i <= |data| && DecParams(c, m0, data) == DecParams(c, m, data[i..])
    {
      TurnOfParams(c, m, data[i..]);
      PayloadFits(PARAMS_SCHEMA, data[i..]);
      var p := ReadField(PARAMS_SCHEMA, data, i);
      if p.NoField? {
        return None;
      }
      var next := SetParams(c, m, p.field);
      if next.None? {
        return None;
      }
      m := next.value;
      assert data[i..][p.size..] == data[i + p.size..];
      i := i + p.size;
    }
    return Some(m);
  }
}
