/**
 The protobuf wire format as the generated code writes and reads it
 (x/ibctransfermiddleware/types/ibctransfermiddleware.pb.go): varints, fields and the skipper.

 A bitwise or of disjoint bits is written as an addition, a shift by 7 k as a product with a power of 2.
 The reading functions take the bytes from the current index on. They tell success from failure; which of
 the errors a failure carries is not modelled.
 */
module Wire {
  import opened Wrappers
  import opened Bytes

  // ---------------------------------------------------------------- varints

  /** A varint at the start of some bytes: its value and its size, unless there is none. */
  datatype Varint = NoVarint | Varint(value: nat, size: nat)

  function EncVarint(v: nat): (s: bytes)
    ensures s != []
  {
    if v < 128 then [v] else [v % 128 + 128] + EncVarint(v / 128)
  }

  /**
   The groups of seven bits from index i on, least significant first, up to the first byte below 128.
   The byte at i is number k of the varint; it has ten at most.
   */
  function RawVarint(s: bytes, i: nat, k: nat): (r: Varint)
    ensures r.Varint? ==> 1 <= r.size <= |s| - i
    decreases |s| - i
  {
    if k >= 10 || i >= |s| then NoVarint
    else if s[i] < 128 then Varint(s[i], 1)
    else
      match RawVarint(s, i + 1, k + 1)
      case NoVarint => NoVarint
      case Varint(v, n) => Varint(s[i] - 128 + 128 * v, n + 1)
  }

  /** The value wrapped to 64 bits, and the number of bytes. */
  function ReadVarint(s: bytes, i: nat): (r: Varint)
    ensures r.Varint? ==> 1 <= r.size <= |s| - i && r.value < UINT64_MODULUS
  {
    match RawVarint(s, i, 0)
    case NoVarint => NoVarint
    case Varint(v, n) => Varint(v % UINT64_MODULUS, n)
  }

  lemma {:induction false} RawVarintStable(s: bytes, t: bytes, i: nat, k: nat)
    requires RawVarint(s, i, k).Varint?
    ensures RawVarint(s + t, i, k) == RawVarint(s, i, k)
    decreases |s| - i
  {
    if s[i] >= 128 {
      RawVarintStable(s, t, i + 1, k + 1);
    }
  }

  lemma {:induction false} RawVarintShift(s: bytes, i: nat, j: nat, k: nat)
    requires i + j <= |s|
    ensures RawVarint(s[i..], j, k) == RawVarint(s, i + j, k)
    decreases |s| - i - j
  {
    if i + j < |s| && k < 10 {
      RawVarintShift(s, i, j + 1, k + 1);
    }
  }

  lemma {:induction false} RawVarintOfEnc(v: nat, t: bytes, k: nat)
    requires k + |EncVarint(v)| <= 10
    ensures RawVarint(EncVarint(v) + t, 0, k) == Varint(v, |EncVarint(v)|)
  {
    if v >= 128 {
      var s := EncVarint(v) + t;
      assert s[1..] == EncVarint(v / 128) + t;
      RawVarintOfEnc(v / 128, t, k + 1);
      RawVarintShift(s, 1, 0, k + 1);
    }
  }

  function Pow2(n: nat): (p: nat)
    ensures p > 0
  {
    if n == 0 then 1 else 2 * Pow2(n - 1)
  }

  lemma Pow2Step7(n: nat)
    ensures Pow2(n + 7) == 128 * Pow2(n)
  {
    assert Pow2(n + 7) == 2 * Pow2(n + 6) == 4 * Pow2(n + 5) == 8 * Pow2(n + 4) == 16 * Pow2(n + 3);
    assert Pow2(n + 3) == 2 * Pow2(n + 2) == 4 * Pow2(n + 1) == 8 * Pow2(n);
  }

  lemma {:induction false} EncVarintLength(v: nat, n: nat)
    requires n > 0 && v < Pow2(7 * n)
    ensures |EncVarint(v)| <= n
  {
    if v >= 128 {
      if n == 1 {
        Pow2Step7(0);
      }
      Pow2Step7(7 * n - 7);
      EncVarintLength(v / 128, n - 1);
    }
  }

  lemma Pow2Step35(n: nat)
    ensures Pow2(n + 35) == 0x8_0000_0000 * Pow2(n)
  {
    Pow2Step7(n);
    Pow2Step7(n + 7);
    Pow2Step7(n + 14);
    Pow2Step7(n + 21);
    Pow2Step7(n + 28);
  }

  lemma Uint64Length(v: uint64)
    ensures |EncVarint(v)| <= 10
  {
    Pow2Step35(0);
    Pow2Step35(35);
    EncVarintLength(v, 10);
  }

  /** Every 64-bit value is read back from its encoding, whatever follows. */
  lemma VarintRoundTrip(v: uint64, t: bytes)
    ensures ReadVarint(EncVarint(v) + t, 0) == Varint(v, |EncVarint(v)|)
  {
    Uint64Length(v);
    RawVarintOfEnc(v, t, 0);
  }

  // ---------------------------------------------------------------- the length of a varint

  /** math/bits.Len64 */
  function Len64(x: nat): nat {
    if x == 0 then 0 else 1 + Len64(x / 2)
  }

  /** sovIbctransfermiddleware */
  function Sov(x: uint64): nat {
    (Len64(if x % 2 == 0 then x + 1 else x) + 6) / 7
  }

  lemma Len64Step7(x: nat)
    requires x >= 64
    ensures Len64(x) == 7 + Len64(x / 128)
  {
    var a, b, c := x / 2, x / 4, x / 8;
    var d, e, f := x / 16, x / 32, x / 64;
    assert Len64(x) == 1 + Len64(a) && a / 2 == b && Len64(a) == 1 + Len64(b);
    assert b / 2 == c && Len64(b) == 1 + Len64(c) && c / 2 == d && Len64(c) == 1 + Len64(d);
    assert d / 2 == e && Len64(d) == 1 + Len64(e) && e / 2 == f && Len64(e) == 1 + Len64(f);
    assert f / 2 == x / 128 && Len64(f) == 1 + Len64(x / 128);
  }

  lemma {:induction false} Len64Bound(x: nat, n: nat)
    requires x < Pow2(n)
    ensures Len64(x) <= n
  {
    if x > 0 {
      Len64Bound(x / 2, n - 1);
    }
  }

  lemma OddLength(x: nat)
    requires x > 0
    ensures Len64(if x % 2 == 0 then x + 1 else x) == Len64(x)
  {
    var odd := if x % 2 == 0 then x + 1 else x;
    assert odd / 2 == x / 2;
  }

  lemma SovSmall(x: nat)
    requires x < 128
    ensures Sov(x) == 1
  {
    Pow2Step7(0);
    Len64Bound(if x % 2 == 0 then x + 1 else x, 7);
  }

  lemma SovStep(x: uint64)
    requires x >= 128
    ensures Sov(x) == 1 + Sov(x / 128)
  {
    OddLength(x);
    OddLength(x / 128);
    Len64Step7(x);
  }

  /** The precomputed length is exact. */
  lemma {:induction false} SovExact(x: uint64)
    ensures Sov(x) == |EncVarint(x)|
  {
    if x < 128 {
      SovSmall(x);
    } else {
      SovExact(x / 128);
      SovStep(x);
    }
  }

  // ---------------------------------------------------------------- skipping

  /** The length prefix of a length-delimited field: its value and its size, unless it is negative as an int. */
  function ReadLength(s: bytes, i: nat): (r: Varint)
    ensures r.Varint? ==> 1 <= r.size <= |s| - i
  {
    match ReadVarint(s, i)
    case NoVarint => NoVarint
    case Varint(v, n) => if ToInt64(v) < 0 then NoVarint else Varint(v, n)
  }

  datatype Turn = NoTurn | Turn(end: nat, depth: nat)

  /** Where the payload of one wire type ends, when its tag ends at index i, and the group depth after it. */
  function SkipPayload(s: bytes, i: nat, wireType: int, depth: nat): (r: Turn)
    ensures r.Turn? ==> r.end >= i
  {
    match wireType
    case 0 =>
      (match ReadVarint(s, i)
       case NoVarint => NoTurn
       case Varint(_, n) => Turn(i + n, depth))
    case 1 => Turn(i + 8, depth)
    case 2 =>
      (match ReadLength(s, i)
       case NoVarint => NoTurn
       case Varint(length, n) => Turn(i + n + length, depth))
    case 3 => Turn(i, depth + 1)
    case 4 => if depth == 0 then NoTurn else Turn(i, depth - 1)
    case 5 => Turn(i + 4, depth)
    case _ => NoTurn
  }

  /** One turn of the skipping loop. */
  function SkipTurn(s: bytes, i: nat, depth: nat): (r: Turn)
    ensures r.Turn? ==> i < r.end
  {
    match ReadVarint(s, i)
    case NoVarint => NoTurn
    case Varint(wire, n) => SkipPayload(s, i + n, wire % 8, depth)
  }

  /**
   The index after the field at index i, or after the group it is in. It may pass the end of the data.
   An index past the largest int64 has overflowed; inside a group it has passed the end as well.
   */
  function Skip(s: bytes, i: nat, depth: nat): (r: Option<nat>)
    ensures r.Some? ==> i < r.value
    decreases |s| - i
  {
    match SkipTurn(s, i, depth)
    case NoTurn => None
    case Turn(end, depth') =>
      if depth' == 0 then if end > MAX_INT64 then None else Some(end)
      else if end >= |s| then None
      else Skip(s, end, depth')
  }

  lemma SkipTurnStable(s: bytes, t: bytes, i: nat, depth: nat)
    requires SkipTurn(s, i, depth).Turn?
    ensures SkipTurn(s + t, i, depth) == SkipTurn(s, i, depth)
  {
    RawVarintStable(s, t, i, 0);
    var n := ReadVarint(s, i).size;
    if RawVarint(s, i + n, 0).Varint? {
      RawVarintStable(s, t, i + n, 0);
    }
  }

  /** A successful skip is not affected by what follows the data. */
  lemma {:induction false} SkipStable(s: bytes, t: bytes, i: nat, depth: nat)
    requires Skip(s, i, depth).Some?
    ensures Skip(s + t, i, depth) == Skip(s, i, depth)
    decreases |s| - i
  {
    SkipTurnStable(s, t, i, depth);
    var turn := SkipTurn(s, i, depth);
    if turn.depth > 0 {
      SkipStable(s, t, turn.end, turn.depth);
    }
  }

  // ---------------------------------------------------------------- fields

  datatype Field = Num(num: int, value: uint64) | Chunk(num: int, payload: bytes) | Unknown

  datatype Parsed = NoField | Parsed(field: Field, size: nat)

  /** The field numbers a message knows, each with the wire type it accepts, 0 or 2. */
  type Schema = map<int, int>

  /** int32 of a tag without its wire type. */
  function FieldNum(wire: uint64): int {
    var low := (wire / 8) % 0x1_0000_0000;
    if low < 0x8000_0000 then low else low - 0x1_0000_0000
  }

  /** One turn of an Unmarshal loop, on the bytes from its index on: the next field and its size. */
  function NextField(schema: Schema, s: bytes): (r: Parsed)
    ensures r.Parsed? ==> 1 <= r.size <= |s|
  {
    match ReadVarint(s, 0)
    case NoVarint => NoField
    case Varint(wire, n) =>
      var num, wireType := FieldNum(wire), wire % 8;
      if wireType == 4 || num <= 0 then NoField
      else if num in schema then
        if wireType != schema[num] then NoField else ReadKnown(num, wireType, s, n)
      else
        match Skip(s, 0, 0)
        case None => NoField
        case Some(m) => if m > |s| then NoField else Parsed(Unknown, m)
  }

  /** The payload of a known field whose tag ends at index n. */
  function ReadKnown(num: int, wireType: int, s: bytes, n: nat): (r: Parsed)
    ensures r.Parsed? ==> n < r.size <= |s|
  {
    if wireType == 0 then
      match ReadVarint(s, n)
      case NoVarint => NoField
      case Varint(v, m) => Parsed(Num(num, v), n + m)
    else
      match ReadLength(s, n)
      case NoVarint => NoField
      case Varint(length, m) =>
        if n + m + length > |s| then NoField
        else Parsed(Chunk(num, s[n + m..n + m + length]), n + m + length)
  }

  lemma ReadKnownStable(num: int, wireType: int, s: bytes, t: bytes, n: nat)
    requires ReadKnown(num, wireType, s, n).Parsed?
    ensures ReadKnown(num, wireType, s + t, n) == ReadKnown(num, wireType, s, n)
  {
    RawVarintStable(s, t, n, 0);
    var Varint(length, m) := ReadVarint(s, n);
    if wireType != 0 {
      assert (s + t)[n + m..n + m + length] == s[n + m..n + m + length];
    }
  }

  /** A field that was read is not affected by what follows the data. */
  lemma NextFieldStable(schema: Schema, s: bytes, t: bytes)
    requires NextField(schema, s).Parsed?
    ensures NextField(schema, s + t) == NextField(schema, s)
  {
    RawVarintStable(s, t, 0, 0);
    var Varint(wire, n) := ReadVarint(s, 0);
    var num := FieldNum(wire);
    if num in schema {
      ReadKnownStable(num, wire % 8, s, t, n);
    } else {
      SkipStable(s, t, 0, 0);
    }
  }

  /** All fields of a message, if the data is a sequence of fields. */
  function Fields(schema: Schema, s: bytes): Option<seq<Field>>
    decreases |s|
  {
    if s == [] then Some([])
    else
      match NextField(schema, s)
      case NoField => None
      case Parsed(f, n) =>
        match Fields(schema, s[n..])
        case None => None
        case Some(fs) => Some([f] + fs)
  }

  lemma FieldsCons(schema: Schema, e: bytes, f: Field, t: bytes)
    requires e != [] && NextField(schema, e + t) == Parsed(f, |e|)
    ensures Fields(schema, e + t) == match Fields(schema, t) case None => None case Some(fs) => Some([f] + fs)
  {
    assert (e + t)[|e|..] == t;
  }

  lemma Associates(f: Field, fs: seq<Field>, gs: Option<seq<Field>>)
    ensures gs.Some? ==> [f] + (fs + gs.value) == ([f] + fs) + gs.value
  {
  }

  /** Data that is a sequence of fields may be followed by more: the fields are those of both parts. */
  lemma {:induction false} FieldsAppend(schema: Schema, a: bytes, b: bytes)
    requires Fields(schema, a).Some?
    ensures Fields(schema, a + b)
            == match Fields(schema, b) case None => None case Some(fs) => Some(Fields(schema, a).value + fs)
    decreases |a|
  {
    if a == [] {
      assert a + b == b;
      if Fields(schema, b).Some? {
        assert [] + Fields(schema, b).value == Fields(schema, b).value;
      }
    } else {
      var Parsed(f, n) := NextField(schema, a);
      var first, rest := a[..n], a[n..];
      NextFieldStable(schema, a, b);
      assert a + b == first + (rest + b) && a == first + rest;
      FieldsCons(schema, first, f, rest + b);
      FieldsAppend(schema, rest, b);
      Associates(f, Fields(schema, rest).value, Fields(schema, b));
    }
  }

  // ---------------------------------------------------------------- writing fields

  /** A length-delimited field as it is written. */
  function EncChunk(tag: byte, payload: bytes): (s: bytes)
    ensures |s| == 1 + |EncVarint(|payload|)| + |payload|
  {
    [tag] + EncVarint(|payload|) + payload
  }

  function EncNum(tag: byte, value: uint64): (s: bytes)
    ensures |s| == 1 + |EncVarint(value)|
  {
    [tag] + EncVarint(value)
  }

  lemma TagThenVarint(tag: byte, v: uint64, t: bytes)
    requires tag < 128
    ensures var s := [tag] + EncVarint(v) + t;
            ReadVarint(s, 0) == Varint(tag, 1) && ReadVarint(s, 1) == Varint(v, |EncVarint(v)|)
  {
    var s := [tag] + EncVarint(v) + t;
    assert s[1..] == EncVarint(v) + t;
    VarintRoundTrip(v, t);
    RawVarintShift(s, 1, 0, 0);
  }

  /** A written length-delimited field of a known number is read back, whatever follows. */
  lemma NextIsChunk(schema: Schema, tag: byte, payload: bytes, t: bytes)
    requires tag < 128 && tag % 8 == 2 && tag / 8 > 0 && tag / 8 in schema && schema[tag / 8] == 2
    requires |payload| <= MAX_INT64
    ensures NextField(schema, EncChunk(tag, payload) + t) == Parsed(Chunk(tag / 8, payload), |EncChunk(tag, payload)|)
  {
    var s := EncChunk(tag, payload) + t;
    assert s == [tag] + EncVarint(|payload|) + (payload + t);
    TagThenVarint(tag, |payload|, payload + t);
    var m := |EncVarint(|payload|)|;
    assert s[1 + m..1 + m + |payload|] == payload;
  }

  lemma NextIsNum(schema: Schema, tag: byte, value: uint64, t: bytes)
    requires tag < 128 && tag % 8 == 0 && tag / 8 > 0 && tag / 8 in schema && schema[tag / 8] == 0
    ensures NextField(schema, EncNum(tag, value) + t) == Parsed(Num(tag / 8, value), |EncNum(tag, value)|)
  {
    TagThenVarint(tag, value, t);
  }
}
