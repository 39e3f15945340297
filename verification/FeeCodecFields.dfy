/**
 Unmarshal field by field, for the four fee messages: what each field of the Protocol Buffers encoding does to the
 message read so far, by its number and wire type, and which data is refused.
 */
module FeeCodecFields {
  import opened Wrappers
  import opened Bytes
  import opened Wire
  import opened UnknownFields
  import opened FeeTypes
  import opened FeeCodec

  // ---------------------------------------------------------------- varints of any bytes

  /** The sum of the low seven bits of n bytes, the first of them lowest. */
  function Groups(s: bytes, i: nat, n: nat): nat
    requires i + n <= |s|
  {
    if n == 0 then 0 else Groups(s, i, n - 1) + (s[i + n - 1] % 128) * Pow2(7 * (n - 1))
  }

  lemma {:induction false} GroupsShift(s: bytes, i: nat, n: nat)
    requires n > 0 && i + n <= |s|
    ensures Groups(s, i, n) == s[i] % 128 + 128 * Groups(s, i + 1, n - 1)
  {
    if n > 1 {
      GroupsShift(s, i, n - 1);
      Pow2Step7(7 * (n - 2));
      var (g, p) := (s[i + n - 1] % 128, Pow2(7 * (n - 2)));
      assert g * (128 * p) == 128 * (g * p);
    } else {
      assert Pow2(0) == 1 && Groups(s, i, 0) == 0;
    }
  }

  /** The varint at an index has n bytes: all but the last have their top bit set. */
  predicate VarintSpan(s: bytes, i: nat, n: nat) {
    0 < n && i + n <= |s| && s[i + n - 1] < 128 && forall j :: i <= j < i + n - 1 ==> s[j] >= 128
  }

  lemma {:induction false} RawVarintSpan(s: bytes, i: nat, n: nat, k: nat)
    requires VarintSpan(s, i, n)
    ensures RawVarint(s, i, k) == if k + n <= 10 then Varint(Groups(s, i, n), n) else NoVarint
    decreases n
  {
    if k < 10 && n > 1 {
      assert VarintSpan(s, i + 1, n - 1);
      RawVarintSpan(s, i + 1, n - 1, k + 1);
    }
    if k + n <= 10 {
      GroupsShift(s, i, n);
    }
  }

  lemma {:induction false} RawVarintOpen(s: bytes, i: nat, k: nat)
    requires forall j :: i <= j < |s| && j < i + 10 - k ==> s[j] >= 128
    ensures RawVarint(s, i, k) == NoVarint
    decreases 10 - k
  {
    if k < 10 && i < |s| {
      RawVarintOpen(s, i + 1, k + 1);
    }
  }

  /**
   A varint ends at the first byte without its top bit, and its value is the sum of its groups of seven bits, wrapped
   to 64 bits; one of more than ten bytes, and one that the data ends in, is refused.
   */
  lemma ReadVarintExact(s: bytes, i: nat, n: nat)
    ensures VarintSpan(s, i, n) ==>
              ReadVarint(s, i) == if n <= 10 then Varint(Groups(s, i, n) % UINT64_MODULUS, n) else NoVarint
    ensures (forall j :: i <= j < |s| ==> s[j] >= 128) ==> ReadVarint(s, i) == NoVarint
  {
    if VarintSpan(s, i, n) {
      RawVarintSpan(s, i, n, 0);
    }
    if forall j :: i <= j < |s| ==> s[j] >= 128 {
      RawVarintOpen(s, i, 0);
    }
  }

  // ---------------------------------------------------------------- one field

  function WireType(w: Wild): nat {
    match w
    case WildVarint(_, _) => 0
    case WildFixed64(_, _) => 1
    case WildBytes(_, _) => 2
    case WildGroup(_, _) => 3
    case WildFixed32(_, _) => 5
  }

  lemma TagOf(w: Wild, t: bytes)
    requires w.WellFormed()
    ensures var s := EncWild(w) + t;
            ReadVarint(s, 0) == Varint(w.num * 8 + WireType(w), |Tag(w.num, WireType(w))|)
    ensures FieldNum(w.num * 8 + WireType(w)) == w.num && (w.num * 8 + WireType(w)) % 8 == WireType(w)
  {
    var s, tag := EncWild(w) + t, Tag(w.num, WireType(w));
    assert EncWild(w) == tag + EncWild(w)[|tag|..];
    assert At(s, 0, tag);
    TagAt(s, 0, w.num, WireType(w));
  }

  /** A known field of another wire type than its own is refused. */
  lemma WrongTypeIsRefused(schema: Schema, w: Wild, t: bytes)
    requires w.WellFormed() && w.num in schema && schema[w.num] != WireType(w)
    ensures NextField(schema, EncWild(w) + t) == NoField
  {
    TagOf(w, t);
  }

  lemma KnownNumber(schema: Schema, w: Wild, t: bytes)
    requires w.WellFormed() && w.WildVarint? && w.num in schema && schema[w.num] == 0
    ensures NextField(schema, EncWild(w) + t) == Parsed(Num(w.num, w.value), |EncWild(w)|)
  {
    var s, n := EncWild(w) + t, |Tag(w.num, 0)|;
    TagOf(w, t);
    assert At(s, 0, EncWild(w));
    AtSplit(s, 0, Tag(w.num, 0), EncVarint(w.value));
    VarintAt(s, n, w.value);
  }

  lemma KnownPayload(schema: Schema, w: Wild, t: bytes)
    requires w.WellFormed() && w.WildBytes? && w.num in schema && schema[w.num] == 2
    ensures NextField(schema, EncWild(w) + t) == Parsed(Chunk(w.num, w.payload), |EncWild(w)|)
  {
    var s, n := EncWild(w) + t, |Tag(w.num, 2)|;
    TagOf(w, t);
    assert At(s, 0, EncWild(w));
    AtSplit3(s, 0, Tag(w.num, 2), EncVarint(|w.payload|), w.payload);
    VarintAt(s, n, |w.payload|);
  }

  /** What is read from a field that the loop knows and accepts. */
  function FieldOf(w: Wild): Field
    requires w.WildVarint? || w.WildBytes?
  {
    if w.WildVarint? then Num(w.num, w.value) else Chunk(w.num, w.payload)
  }

  /** The field is one the message knows, of the wire type it asks for. */
  predicate Accepted(schema: Schema, w: Wild) {
    w.num in schema && schema[w.num] == WireType(w) && (w.WildVarint? || w.WildBytes?)
  }

  lemma OneField(schema: Schema, w: Wild, t: bytes)
    requires w.WellFormed() && |EncWild(w)| <= MAX_INT64
    requires forall num :: num in schema ==> schema[num] == 0 || schema[num] == 2
    ensures var rest := Fields(schema, t);
            Fields(schema, EncWild(w) + t)
            == if w.num in schema && !Accepted(schema, w) then None
               else if rest.None? then None
               else Some([if w.num in schema then FieldOf(w) else Unknown] + rest.value)
  {
    if w.num !in schema {
      UnknownFieldIsSkipped(schema, w, t);
      FieldsCons(schema, EncWild(w), Unknown, t);
    } else if Accepted(schema, w) {
      if w.WildVarint? {
        KnownNumber(schema, w, t);
      } else {
        KnownPayload(schema, w, t);
      }
      FieldsCons(schema, EncWild(w), FieldOf(w), t);
    } else {
      WrongTypeIsRefused(schema, w, t);
    }
  }

  lemma NotEmpty(w: Wild)
    ensures EncWild(w) != []
  {
  }

  // ---------------------------------------------------------------- the four messages

  /**
   TxPriorityFee: field 1 sets the priority, whatever it was, field 2 merges into the fee; either in another wire
   type is refused, and any other field adds nothing.
   */
  lemma TxFieldByField(c: CoinCodec, m: TxPriorityFee, w: Wild, t: bytes)
    requires w.WellFormed() && |EncWild(w)| <= MAX_INT64
    ensures DecTx(c, m, EncWild(w) + t)
            == (if w.num == 1 then
                  if w.WildBytes? then DecTx(c, TxPriorityFee(w.payload, m.priorityFee), t) else None
                else if w.num == 2 then
                  if !w.WildBytes? || c.dec(m.priorityFee, w.payload).None? then None
                  else DecTx(c, TxPriorityFee(m.priority, c.dec(m.priorityFee, w.payload).value), t)
                else DecTx(c, m, t))
    ensures DecTx(c, m, []) == Some(m)
  {
    OneField(TX_SCHEMA, w, t);
    if Fields(TX_SCHEMA, t).Some? && (w.num !in TX_SCHEMA || Accepted(TX_SCHEMA, w)) {
      var (f, fs) := (if w.num in TX_SCHEMA then FieldOf(w) else Unknown, Fields(TX_SCHEMA, t).value);
      assert ([f] + fs)[1..] == fs;
    }
  }

  /**
   CoinItem: field 1 merges into the minimum fee, field 2 sets the percentage as a signed value, field 3 appends a
   priority fee that must itself be readable.
   */
  lemma ItemFieldByField(c: CoinCodec, m: CoinItem, w: Wild, t: bytes)
    requires w.WellFormed() && |EncWild(w)| <= MAX_INT64
    ensures DecItem(c, m, EncWild(w) + t)
            == (if w.num == 1 then
                  if !w.WildBytes? || c.dec(m.minFee, w.payload).None? then None
                  else DecItem(c, CoinItem(c.dec(m.minFee, w.payload).value, m.percentage, m.txPriorityFee), t)
                else if w.num == 2 then
                  if !w.WildVarint? then None
                  else DecItem(c, CoinItem(m.minFee, ToInt64(w.value), m.txPriorityFee), t)
                else if w.num == 3 then
                  if !w.WildBytes? || DecTx(c, NO_TX, w.payload).None? then None
                  else
                    var tx := DecTx(c, NO_TX, w.payload).value;
                    DecItem(c, CoinItem(m.minFee, m.percentage, m.txPriorityFee + [tx]), t)
                else DecItem(c, m, t))
    ensures DecItem(c, m, []) == Some(m)
  {
    OneField(ITEM_SCHEMA, w, t);
    if Fields(ITEM_SCHEMA, t).Some? && (w.num !in ITEM_SCHEMA || Accepted(ITEM_SCHEMA, w)) {
      var (f, fs) := (if w.num in ITEM_SCHEMA then FieldOf(w) else Unknown, Fields(ITEM_SCHEMA, t).value);
      assert ([f] + fs)[1..] == fs;
    }
  }

  /**
   ChannelFee: field 1 sets the channel, field 2 appends a token that must itself be readable, field 3 sets the fee
   address and field 4 the timeout as a signed value; what was set before is overwritten.
   */
  lemma FeeFieldByField(c: CoinCodec, m: ChannelFee, w: Wild, t: bytes)
    requires w.WellFormed() && |EncWild(w)| <= MAX_INT64
    ensures DecFee(c, m, EncWild(w) + t)
            == (if w.num == 1 then
                  if !w.WildBytes? then None
                  else DecFee(c, ChannelFee(w.payload, m.allowedTokens, m.feeAddress, m.minTimeoutTimestamp), t)
                else if w.num == 2 then
                  if !w.WildBytes? || DecItem(c, NO_ITEM, w.payload).None? then None
                  else
                    var items := m.allowedTokens + [DecItem(c, NO_ITEM, w.payload).value];
                    DecFee(c, ChannelFee(m.channel, items, m.feeAddress, m.minTimeoutTimestamp), t)
                else if w.num == 3 then
                  if !w.WildBytes? then None
                  else DecFee(c, ChannelFee(m.channel, m.allowedTokens, w.payload, m.minTimeoutTimestamp), t)
                else if w.num == 4 then
                  if !w.WildVarint? then None
                  else DecFee(c, ChannelFee(m.channel, m.allowedTokens, m.feeAddress, ToInt64(w.value)), t)
                else DecFee(c, m, t))
    ensures DecFee(c, m, []) == Some(m)
  {
    OneField(FEE_SCHEMA, w, t);
    if Fields(FEE_SCHEMA, t).Some? && (w.num !in FEE_SCHEMA || Accepted(FEE_SCHEMA, w)) {
      var (f, fs) := (if w.num in FEE_SCHEMA then FieldOf(w) else Unknown, Fields(FEE_SCHEMA, t).value);
      assert ([f] + fs)[1..] == fs;
    }
  }

  /** Params: field 1 appends a channel fee that must itself be readable. */
  lemma ParamsFieldByField(c: CoinCodec, m: Params, w: Wild, t: bytes)
    requires w.WellFormed() && |EncWild(w)| <= MAX_INT64
    ensures DecParams(c, m, EncWild(w) + t)
            == (if w.num == 1 then
                  if !w.WildBytes? || DecFee(c, NO_FEE, w.payload).None? then None
                  else DecParams(c, Params(m.channelFees + [DecFee(c, NO_FEE, w.payload).value]), t)
                else DecParams(c, m, t))
    ensures DecParams(c, m, []) == Some(m)
  {
    OneField(PARAMS_SCHEMA, w, t);
    if Fields(PARAMS_SCHEMA, t).Some? && (w.num !in PARAMS_SCHEMA || Accepted(PARAMS_SCHEMA, w)) {
      var (f, fs) := (if w.num in PARAMS_SCHEMA then FieldOf(w) else Unknown, Fields(PARAMS_SCHEMA, t).value);
      assert ([f] + fs)[1..] == fs;
    }
  }

  // ---------------------------------------------------------------- what is refused

  /** A length that passes the end of the data, or the largest int, is refused, whether or not the field is known. */
  lemma ShortPayloadIsRefused(schema: Schema, num: nat, length: uint64, rest: bytes)
    requires 0 < num < 0x2000_0000 && |rest| < length
    requires num in schema ==> schema[num] == 2 || schema[num] == 0
    ensures NextField(schema, Tag(num, 2) + (EncVarint(length) + rest)) == NoField
  {
    var s, n := Tag(num, 2) + (EncVarint(length) + rest), |Tag(num, 2)|;
    AtSplit3Whole(s, Tag(num, 2), EncVarint(length), rest);
    TagAt(s, 0, num, 2);
    VarintAt(s, n, length);
  }

  lemma AtSplit3Whole(s: bytes, a: bytes, b: bytes, c: bytes)
    requires s == a + (b + c)
    ensures At(s, 0, a) && At(s, |a|, b)
  {
    assert At(s, 0, a + (b + c));
    AtSplit3(s, 0, a, b, c);
  }

  /** So is the end of a group that was not started, a wire type that does not exist, and field number zero. */
  lemma StrayTagIsRefused(schema: Schema, num: nat, wireType: nat, t: bytes)
    requires num < 0x2000_0000 && wireType < 8 && (num == 0 || wireType == 4 || wireType >= 6)
    requires num in schema ==> schema[num] == 2 || schema[num] == 0
    ensures NextField(schema, Tag(num, wireType) + t) == NoField
  {
    var s := Tag(num, wireType) + t;
    assert At(s, 0, Tag(num, wireType));
    if num > 0 {
      TagAt(s, 0, num, wireType);
    } else {
      VarintAt(s, 0, wireType);
    }
  }

  /** A field number is taken modulo 2^32, and one that is then negative as an int32 is refused. */
  lemma HighNumberIsRefused(schema: Schema, high: nat, num: nat, wireType: nat, t: bytes)
    requires 0x8000_0000 <= num < 0x1_0000_0000 && wireType < 8
    requires (high * 0x1_0000_0000 + num) * 8 + wireType < UINT64_MODULUS
    ensures NextField(schema, EncVarint((high * 0x1_0000_0000 + num) * 8 + wireType) + t) == NoField
  {
    var wire := (high * 0x1_0000_0000 + num) * 8 + wireType;
    assert At(EncVarint(wire) + t, 0, EncVarint(wire));
    VarintAt(EncVarint(wire) + t, 0, wire);
    assert wire / 8 == high * 0x1_0000_0000 + num;
  }

  lemma {:induction false} OpenFields(s: bytes, skip: Skipping, i: nat, depth: nat, ws: seq<Wild>)
    requires Loops(s, skip) && (forall w :: w in ws ==> w.WellFormed()) && At(s, i, EncWilds(ws))
    requires depth > 0 && ws != [] && i + |EncWilds(ws)| == |s|
    ensures skip(i, depth) == None
    decreases |ws|
  {
    var mid := i + |EncWild(ws[0])|;
    AtSplit(s, i, EncWild(ws[0]), EncWilds(ws[1..]));
    FieldIsPassed(s, skip, i, depth, ws[0], mid);
    if |ws| > 1 {
      NotEmpty(ws[1]);
      OpenFields(s, skip, mid, depth, ws[1..]);
    }
  }

  /** An unknown group that the data ends in, after whatever well-formed fields, is refused. */
  lemma OpenGroupIsRefused(schema: Schema, num: nat, ws: seq<Wild>)
    requires 0 < num < 0x2000_0000 && num !in schema && forall w :: w in ws ==> w.WellFormed()
    ensures NextField(schema, Tag(num, 3) + EncWilds(ws)) == NoField
  {
    var s, first := Tag(num, 3) + EncWilds(ws), |Tag(num, 3)|;
    var skip := (i: nat, depth: nat) => Skip(s, i, depth);
    SkipLoops(s, skip);
    assert At(s, 0, Tag(num, 3)) && At(s, first, EncWilds(ws));
    TagAt(s, 0, num, 3);
    TagIsPassed(s, skip, 0, 0, num, 3, first, 1);
    if ws != [] {
      OpenFields(s, skip, first, 1, ws);
    }
    assert Skip(s, 0, 0) == None;
  }
}
