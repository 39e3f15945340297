/**
 Fields a message does not know, of every wire type of the Protocol Buffers encoding, groups nested to any
 depth included, and how the skipper passes over them.
 */
module UnknownFields {
  import opened Wrappers
  import opened Bytes
  import opened Wire

  datatype Wild =
    | WildVarint(num: nat, value: uint64)
    | WildFixed64(num: nat, payload: bytes)
    | WildBytes(num: nat, payload: bytes)
    | WildGroup(num: nat, fields: seq<Wild>)
    | WildFixed32(num: nat, payload: bytes)
  {
    predicate WellFormed() {
      && 0 < num < 0x2000_0000
      && (WildFixed64? ==> |payload| == 8)
      && (WildBytes? ==> |payload| <= MAX_INT64)
      && (WildFixed32? ==> |payload| == 4)
      && (WildGroup? ==> forall f :: f in fields ==> f.WellFormed())
    }
  }

  function Tag(num: nat, wireType: nat): bytes
    requires wireType < 8
  {
    EncVarint(num * 8 + wireType)
  }

  function EncWild(w: Wild): bytes
    decreases w, 1
  {
    match w
    case WildVarint(num, value) => Tag(num, 0) + EncVarint(value)
    case WildFixed64(num, payload) => Tag(num, 1) + payload
    case WildBytes(num, payload) => Tag(num, 2) + (EncVarint(|payload|) + payload)
    case WildGroup(num, fields) => Tag(num, 3) + (EncWilds(fields) + Tag(num, 4))
    case WildFixed32(num, payload) => Tag(num, 5) + payload
  }

  function EncWilds(ws: seq<Wild>): bytes
    decreases ws, 0
  {
    if ws == [] then [] else EncWild(ws[0]) + EncWilds(ws[1..])
  }

  /** The data holds these bytes at this index. */
  predicate At(s: bytes, i: nat, e: bytes) {
    i + |e| <= |s| && s[i..i + |e|] == e
  }

  lemma AtSplit(s: bytes, i: nat, a: bytes, b: bytes)
    requires At(s, i, a + b)
    ensures At(s, i, a) && At(s, i + |a|, b)
  {
    assert s[i..i + |a|] == (a + b)[..|a|] == a;
    assert s[i + |a|..i + |a| + |b|] == (a + b)[|a|..] == b;
  }

  lemma AtSplit3(s: bytes, i: nat, a: bytes, b: bytes, c: bytes)
    requires At(s, i, a + (b + c))
    ensures At(s, i, a) && At(s, i + |a|, b) && At(s, i + |a| + |b|, c)
  {
    AtSplit(s, i, a, b + c);
    AtSplit(s, i + |a|, b, c);
  }

  lemma VarintAt(s: bytes, i: nat, v: uint64)
    requires At(s, i, EncVarint(v))
    ensures ReadVarint(s, i) == Varint(v, |EncVarint(v)|)
  {
    var e := EncVarint(v);
    assert s[i..] == e + s[i + |e|..];
    VarintRoundTrip(v, s[i + |e|..]);
    RawVarintShift(s, i, 0, 0);
  }

  lemma TagAt(s: bytes, i: nat, num: nat, wireType: nat)
    requires 0 < num < 0x2000_0000 && wireType < 8 && At(s, i, Tag(num, wireType))
    ensures ReadVarint(s, i) == Varint(num * 8 + wireType, |Tag(num, wireType)|)
    ensures (num * 8 + wireType) % 8 == wireType && FieldNum(num * 8 + wireType) == num
  {
    VarintAt(s, i, num * 8 + wireType);
  }

  lemma TurnAfterTag(s: bytes, i: nat, depth: nat, num: nat, wireType: nat)
    requires 0 < num < 0x2000_0000 && wireType < 8 && At(s, i, Tag(num, wireType))
    ensures SkipTurn(s, i, depth) == SkipPayload(s, i + |Tag(num, wireType)|, wireType, depth)
  {
    TagAt(s, i, num, wireType);
  }

  lemma LengthAndPayload(s: bytes, i: nat, depth: nat, payload: bytes)
    requires |payload| <= MAX_INT64 && At(s, i, EncVarint(|payload|) + payload)
    ensures SkipPayload(s, i, 2, depth) == Turn(i + |EncVarint(|payload|)| + |payload|, depth)
  {
    AtSplit(s, i, EncVarint(|payload|), payload);
    VarintAt(s, i, |payload|);
  }

  /** A tag alone: the start or the end of a group. */
  lemma TurnOverTag(s: bytes, i: nat, depth: nat, num: nat, wireType: nat, end: nat, depth': nat)
    requires 0 < num < 0x2000_0000 && (wireType == 3 || wireType == 4)
    requires At(s, i, Tag(num, wireType)) && end == i + |Tag(num, wireType)|
    requires if wireType == 3 then depth' == depth + 1 else depth == depth' + 1
    ensures SkipTurn(s, i, depth) == Turn(end, depth')
  {
    TurnAfterTag(s, i, depth, num, wireType);
  }

  lemma TurnOverFixed(s: bytes, i: nat, depth: nat, num: nat, wireType: nat, payload: bytes, end: nat)
    requires 0 < num < 0x2000_0000 && ((wireType == 1 && |payload| == 8) || (wireType == 5 && |payload| == 4))
    requires At(s, i, Tag(num, wireType) + payload) && end == i + |Tag(num, wireType)| + |payload|
    ensures SkipTurn(s, i, depth) == Turn(end, depth)
  {
    AtSplit(s, i, Tag(num, wireType), payload);
    TurnAfterTag(s, i, depth, num, wireType);
  }

  lemma TurnOverVarint(s: bytes, i: nat, depth: nat, num: nat, value: uint64, end: nat)
    requires 0 < num < 0x2000_0000 && At(s, i, Tag(num, 0) + EncVarint(value))
    requires end == i + |Tag(num, 0)| + |EncVarint(value)|
    ensures SkipTurn(s, i, depth) == Turn(end, depth)
  {
    AtSplit(s, i, Tag(num, 0), EncVarint(value));
    TurnAfterTag(s, i, depth, num, 0);
    VarintAt(s, i + |Tag(num, 0)|, value);
  }

  lemma TurnOverBytes(s: bytes, i: nat, depth: nat, num: nat, payload: bytes, end: nat)
    requires 0 < num < 0x2000_0000 && |payload| <= MAX_INT64
    requires At(s, i, Tag(num, 2) + (EncVarint(|payload|) + payload))
    requires end == i + |Tag(num, 2)| + |EncVarint(|payload|)| + |payload|
    ensures SkipTurn(s, i, depth) == Turn(end, depth)
  {
    AtSplit(s, i, Tag(num, 2), EncVarint(|payload|) + payload);
    TurnAfterTag(s, i, depth, num, 2);
    LengthAndPayload(s, i + |Tag(num, 2)|, depth, payload);
  }

  /** One turn of the skipper passes a field that is not a group. */
  lemma TurnOverField(s: bytes, i: nat, depth: nat, w: Wild, end: nat)
    requires w.WellFormed() && !w.WildGroup? && At(s, i, EncWild(w)) && end == i + |EncWild(w)|
    ensures SkipTurn(s, i, depth) == Turn(end, depth)
  {
    match w {
      case WildVarint(num, value) => TurnOverVarint(s, i, depth, num, value, end);
      case WildFixed64(num, payload) => TurnOverFixed(s, i, depth, num, 1, payload, end);
      case WildBytes(num, payload) => TurnOverBytes(s, i, depth, num, payload, end);
      case WildFixed32(num, payload) => TurnOverFixed(s, i, depth, num, 5, payload, end);
    }
  }

  /** The skipper as a function of the index and the group depth. */
  type Skipping = (nat, nat) -> Option<nat>

  /** What a skipper makes of the end of a field, in a group of the given depth. */
  function Resume(s: bytes, skip: Skipping, end: nat, depth: nat): Option<nat> {
    if depth == 0 then if end > MAX_INT64 then None else Some(end)
    else if end >= |s| then None
    else skip(end, depth)
  }

  /** The function obeys the law of the skipping loop: it takes one turn and resumes at its end. */
  ghost predicate Loops(s: bytes, skip: Skipping) {
    forall i: nat, depth: nat, end: nat, depth': nat ::
      SkipTurn(s, i, depth) == Turn(end, depth') ==> skip(i, depth) == Resume(s, skip, end, depth')
  }

  lemma {:induction false} FieldIsPassed(s: bytes, skip: Skipping, i: nat, depth: nat, w: Wild, end: nat)
    requires Loops(s, skip) && w.WellFormed() && At(s, i, EncWild(w)) && end == i + |EncWild(w)|
    ensures skip(i, depth) == Resume(s, skip, end, depth)
    decreases w, 2
  {
    if w.WildGroup? {
      GroupIsPassed(s, skip, i, depth, w.num, w.fields, end);
    } else {
      TurnOverField(s, i, depth, w, end);
    }
  }

  lemma TagIsPassed(s: bytes, skip: Skipping, i: nat, depth: nat, num: nat, wireType: nat, end: nat, depth': nat)
    requires Loops(s, skip) && 0 < num < 0x2000_0000 && (wireType == 3 || wireType == 4)
    requires At(s, i, Tag(num, wireType)) && end == i + |Tag(num, wireType)|
    requires if wireType == 3 then depth' == depth + 1 else depth == depth' + 1
    ensures skip(i, depth) == Resume(s, skip, end, depth')
  {
    TurnOverTag(s, i, depth, num, wireType, end, depth');
  }

  lemma ThroughGroup(s: bytes, skip: Skipping, i: nat, depth: nat, num: nat, first: nat, last: nat, end: nat)
    requires Loops(s, skip) && 0 < num < 0x2000_0000
    requires At(s, i, Tag(num, 3)) && first == i + |Tag(num, 3)| <= last
    requires At(s, last, Tag(num, 4)) && end == last + |Tag(num, 4)|
    requires skip(first, depth + 1) == skip(last, depth + 1)
    ensures skip(i, depth) == Resume(s, skip, end, depth)
  {
    TagIsPassed(s, skip, i, depth, num, 3, first, depth + 1);
    TagIsPassed(s, skip, last, depth + 1, num, 4, end, depth);
  }

  /** A group: its start, its fields, its end. */
  lemma {:induction false} GroupIsPassed(
    s: bytes, skip: Skipping, i: nat, depth: nat, num: nat, fields: seq<Wild>, end: nat)
    requires Loops(s, skip) && 0 < num < 0x2000_0000 && forall f :: f in fields ==> f.WellFormed()
    requires At(s, i, Tag(num, 3) + (EncWilds(fields) + Tag(num, 4)))
    requires end == i + |Tag(num, 3)| + |EncWilds(fields)| + |Tag(num, 4)|
    ensures skip(i, depth) == Resume(s, skip, end, depth)
    decreases fields, 1
  {
    var first, last := i + |Tag(num, 3)|, i + |Tag(num, 3)| + |EncWilds(fields)|;
    AtSplit3(s, i, Tag(num, 3), EncWilds(fields), Tag(num, 4));
    FieldsArePassed(s, skip, first, depth + 1, fields, last);
    ThroughGroup(s, skip, i, depth, num, first, last, end);
  }

  lemma {:induction false} FieldsArePassed(s: bytes, skip: Skipping, i: nat, depth: nat, ws: seq<Wild>, end: nat)
    requires Loops(s, skip) && (forall w :: w in ws ==> w.WellFormed()) && At(s, i, EncWilds(ws))
    requires depth > 0 && end == i + |EncWilds(ws)| < |s|
    ensures skip(i, depth) == skip(end, depth)
    decreases ws, 0
  {
    if ws != [] {
      var mid := i + |EncWild(ws[0])|;
      AtSplit(s, i, EncWild(ws[0]), EncWilds(ws[1..]));
      FieldIsPassed(s, skip, i, depth, ws[0], mid);
      FieldsArePassed(s, skip, mid, depth, ws[1..], end);
    }
  }

  lemma SkipLoops(s: bytes, skip: Skipping)
    requires forall i: nat, depth: nat :: skip(i, depth) == Skip(s, i, depth)
    ensures Loops(s, skip)
  {
  }

  lemma WildStart(w: Wild, t: bytes)
    requires w.WellFormed()
    ensures exists wire: uint64, n: nat ::
      ReadVarint(EncWild(w) + t, 0) == Varint(wire, n) && FieldNum(wire) == w.num && wire % 8 != 4
  {
    var wireType := match w
      case WildVarint(_, _) => 0
      case WildFixed64(_, _) => 1
      case WildBytes(_, _) => 2
      case WildGroup(_, _) => 3
      case WildFixed32(_, _) => 5;
    var s := EncWild(w) + t;
    var rest := EncWild(w)[|Tag(w.num, wireType)|..];
    assert EncWild(w) == Tag(w.num, wireType) + rest;
    assert At(s, 0, Tag(w.num, wireType));
    TagAt(s, 0, w.num, wireType);
  }

  /** A well-formed field of an unknown number is one turn of every Unmarshal loop, and leaves nothing behind. */
  lemma UnknownFieldIsSkipped(schema: Schema, w: Wild, t: bytes)
    requires w.WellFormed() && w.num !in schema && |EncWild(w)| <= MAX_INT64
    ensures NextField(schema, EncWild(w) + t) == Parsed(Unknown, |EncWild(w)|)
  {
    var s := EncWild(w) + t;
    var skip := (i: nat, depth: nat) => Skip(s, i, depth);
    SkipLoops(s, skip);
    assert At(s, 0, EncWild(w));
    FieldIsPassed(s, skip, 0, 0, w, |EncWild(w)|);
    assert Skip(s, 0, 0) == Some(|EncWild(w)|);
    WildStart(w, t);
  }
}
