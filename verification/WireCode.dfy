/** The loops of the generated codec over byte buffers, proved against the wire format. */
module WireCode {
  import opened Wrappers
  import opened Bytes
  import opened Integers
  import opened Wire

  // ---------------------------------------------------------------- writing into the tail of a buffer

  /** The buffer was overwritten with w from index i on, and nowhere else. */
  ghost predicate Spliced(before: bytes, after: bytes, i: nat, w: bytes) {
    i + |w| <= |before| && after == before[..i] + w + before[i + |w|..]
  }

  lemma SplicedTwice(b0: bytes, b1: bytes, b2: bytes, i: nat, w1: bytes, j: nat, w2: bytes)
    requires Spliced(b0, b1, j, w2) && Spliced(b1, b2, i, w1) && i + |w1| == j
    ensures Spliced(b0, b2, i, w1 + w2)
  {
    assert b1[..i] == b0[..i];
    assert b1[j..] == w2 + b0[j + |w2|..];
    assert b0[i + |w1 + w2|..] == b0[j + |w2|..];
  }

  method PutByte(dAtA: array<byte>, i: nat, b: byte)
    requires i < dAtA.Length
    modifies dAtA
    ensures Spliced(old(dAtA[..]), dAtA[..], i, [b])
  {
    dAtA[i] := b;
  }

  /** copy(dAtA[i:], s) */
  method Copy(dAtA: array<byte>, i: nat, s: bytes)
    requires i + |s| <= dAtA.Length
    modifies dAtA
    ensures Spliced(old(dAtA[..]), dAtA[..], i, s)
  {
    for k := 0 to |s|
      invariant dAtA[..] == old(dAtA[..])[..i] + s[..k] + old(dAtA[..])[i + k..]
    {
      dAtA[i + k] := s[k];
    }
  }

  lemma VarintStep(rest: nat, low: byte, done: bytes)
    requires rest >= 128 && low == rest % 128 + 128
    ensures done + EncVarint(rest) == (done + [low]) + EncVarint(rest / 128)
  {
  }

  /** One more byte behind what was written. */
  lemma SplicedSnoc(before: bytes, now: bytes, i: nat, done: bytes, b: byte)
    requires Spliced(before, now, i, done) && i + |done| < |before|
    ensures Spliced(before, now[i + |done| := b], i, done + [b])
  {
  }

  /** Writes a varint so that it ends at offset, low groups first, and returns where it starts. */
  method EncodeVarint(dAtA: array<byte>, offset: nat, v: uint64) returns (base: nat)
    requires |EncVarint(v)| <= offset <= dAtA.Length
    modifies dAtA
    ensures base == offset - |EncVarint(v)|
    ensures Spliced(old(dAtA[..]), dAtA[..], base, EncVarint(v))
  {
    SovExact(v);
    base := offset - Sov(v);
    var at: nat, rest: nat := base, v;
    ghost var done: bytes := [];
    ghost var before := dAtA[..];
    while rest >= 128
      invariant at == base + |done| && EncVarint(v) == done + EncVarint(rest)
      invariant Spliced(before, dAtA[..], base, done)
    {
      var low: byte := rest % 128 + 128;
      VarintStep(rest, low, done);
      SplicedSnoc(before, dAtA[..], base, done, low);
      dAtA[at] := low;
      done := done + [low];
      rest := rest / 128;
      at := at + 1;
    }
    SplicedSnoc(before, dAtA[..], base, done, rest);
    dAtA[at] := rest;
  }

  // ---------------------------------------------------------------- reading

  lemma ModAdd(s: nat, x: nat)
    ensures (s % UINT64_MODULUS + x) % UINT64_MODULUS == (s + x) % UINT64_MODULUS
  {
    var q := s / UINT64_MODULUS;
    var r := s % UINT64_MODULUS + x;
    DivBetween(r, r / UINT64_MODULUS, UINT64_MODULUS);
    DivBetween(s + x, q + r / UINT64_MODULUS, UINT64_MODULUS);
  }

  /** The remaining bytes of a varint continue the sum of those already read. */
  ghost predicate Continues(data: bytes, start: nat, i: nat, k: nat, sum: nat) {
    start <= i <= |data| &&
    match RawVarint(data, i, k)
    case NoVarint => RawVarint(data, start, 0).NoVarint?
    case Varint(v, n) => RawVarint(data, start, 0) == Varint(sum + Pow2(7 * k) * v, i - start + n)
  }

  lemma Regroup(p: int, d: int, v: int)
    ensures p * (d + 128 * v) == d * p + (128 * p) * v
  {
  }

  lemma ContinuesNext(data: bytes, start: nat, i: nat, k: nat, sum: nat, group: nat)
    requires Continues(data, start, i, k, sum) && k < 10 && i < |data| && data[i] >= 128
    requires group == (data[i] - 128) * Pow2(7 * k)
    ensures Continues(data, start, i + 1, k + 1, sum + group)
  {
    Pow2Step7(7 * k);
    var rest := RawVarint(data, i + 1, k + 1);
    if rest.Varint? {
      Regroup(Pow2(7 * k), data[i] - 128, rest.value);
    }
  }

  lemma ContinuesEnd(data: bytes, start: nat, i: nat, k: nat, sum: nat)
    requires Continues(data, start, i, k, sum) && k < 10 && i < |data| && data[i] < 128
    ensures ReadVarint(data, start) == Varint((sum + data[i] * Pow2(7 * k)) % UINT64_MODULUS, i + 1 - start)
  {
    assert Pow2(7 * k) * data[i] == data[i] * Pow2(7 * k);
  }

  /** One more byte: the end of the varint, or a further group of it. */
  lemma ContinuesOn(data: bytes, start: nat, i: nat, k: nat, sum: nat, group: nat)
    requires Continues(data, start, i, k, sum) && k < 10 && i < |data| && group == (data[i] % 128) * Pow2(7 * k)
    ensures data[i] < 128 ==> ReadVarint(data, start) == Varint((sum + group) % UINT64_MODULUS, i + 1 - start)
    ensures data[i] >= 128 ==> Continues(data, start, i + 1, k + 1, sum + group)
  {
    if data[i] < 128 {
      ContinuesEnd(data, start, i, k, sum);
    } else {
      ContinuesNext(data, start, i, k, sum, group);
    }
  }

  lemma ContinuesNot(data: bytes, start: nat, i: nat, k: nat, sum: nat)
    requires Continues(data, start, i, k, sum) && (k >= 10 || i >= |data|)
    ensures ReadVarint(data, start) == NoVarint
  {
  }

  /** The varint at index i of the data, shifted together seven bits at a time in 64-bit arithmetic. */
  method DecodeVarint(data: bytes, start: nat) returns (r: Varint)
    requires start <= |data|
    ensures r == ReadVarint(data, start)
  {
    var i: nat := start;
    var shift: nat, wire: uint64 := 0, 0;
    ghost var k: nat, sum: nat := 0, 0;
    while true
      invariant shift == 7 * k && k <= 10 && Continues(data, start, i, k, sum)
      invariant wire == sum % UINT64_MODULUS
      decreases 10 - k
    {
      if shift >= 64 {
        ContinuesNot(data, start, i, k, sum);
        return NoVarint;
      }
      if i >= |data| {
        ContinuesNot(data, start, i, k, sum);
        return NoVarint;
      }
      var b := data[i];
      i := i + 1;
      var group := (b % 128) * Pow2(shift);
      ModAdd(sum, group);
      wire := (wire + group) % UINT64_MODULUS;
      ContinuesOn(data, start, i - 1, k, sum, group);
      if b < 128 {
        return Varint(wire, i - start);
      }
      sum := sum + group;
      k := k + 1;
      shift := shift + 7;
    }
  }

  /** The same loop where the value is not needed. */
  method PassVarint(data: bytes, start: nat) returns (end: Option<nat>)
    requires start <= |data|
    ensures end == match ReadVarint(data, start) case NoVarint => None case Varint(_, n) => Some(start + n)
  {
    var i := start;
    var shift := 0;
    ghost var k := 0;
    while true
      invariant start <= i <= |data| && shift == 7 * k && k <= 10
      invariant match RawVarint(data, i, k)
                case NoVarint => RawVarint(data, start, 0).NoVarint?
                case Varint(_, n) =>
                  RawVarint(data, start, 0).Varint? && RawVarint(data, start, 0).size == i - start + n
      decreases 10 - k
    {
      if shift >= 64 {
        return None;
      }
      if i >= |data| {
        return None;
      }
      i := i + 1;
      if data[i - 1] < 128 {
        return Some(i);
      }
      k := k + 1;
      shift := shift + 7;
    }
  }

  /** The switch of the skipping loop: past the payload of one wire type. */
  method PassPayload(data: bytes, start: nat, wireType: int, depth: nat) returns (turn: Turn)
    requires start <= |data|
    ensures turn == SkipPayload(data, start, wireType, depth)
  {
    match wireType {
      case 0 =>
        var end := PassVarint(data, start);
        if end.None? {
          return NoTurn;
        }
        return Turn(end.value, depth);
      case 1 =>
        return Turn(start + 8, depth);
      case 2 =>
        var length := DecodeVarint(data, start);
        if length.NoVarint? {
          return NoTurn;
        }
        if ToInt64(length.value) < 0 {
          return NoTurn;
        }
        return Turn(start + length.size + length.value, depth);
      case 3 =>
        return Turn(start, depth + 1);
      case 4 =>
        if depth == 0 {
          return NoTurn;
        }
        return Turn(start, depth - 1);
      case 5 =>
        return Turn(start + 4, depth);
      case _ =>
        return NoTurn;
    }
  }

  /** skipIbctransfermiddleware: the size of the field, or of the group, at the start of the data. */
  method SkipData(data: bytes) returns (r: Option<nat>)
    requires |data| <= MAX_INT64
    ensures r == Skip(data, 0, 0)
  {
    var i: nat, depth: nat := 0, 0;
    while i < |data|
      invariant i > 0 ==> depth > 0
      invariant Skip(data, 0, 0) == if i < |data| || i == 0 then Skip(data, i, depth) else None
      decreases |data| - i
    {
      var tag := DecodeVarint(data, i);
      if tag.NoVarint? {
        return None;
      }
      var turn := PassPayload(data, i + tag.size, tag.value % 8, depth);
      if turn.NoTurn? {
        return None;
      }
      i, depth := turn.end, turn.depth;
      if i > MAX_INT64 {  // the index has wrapped around to a negative int
        return None;
      }
      if depth == 0 {
        return Some(i);
      }
    }
    return None;
  }
}
