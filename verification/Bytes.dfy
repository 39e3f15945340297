/** Go strings and byte slices, and the fixed-width, decimal and splitting conversions the store keys need. */
module Bytes {
  import opened Wrappers

  type byte = n: int | 0 <= n < 256

  type bytes = seq<byte>

  const UINT64_MODULUS: int := 0x1_0000_0000_0000_0000

  const MAX_INT64: int := 0x7FFF_FFFF_FFFF_FFFF

  type uint64 = n: int | 0 <= n < UINT64_MODULUS

  const SLASH: byte := 47

  /** Go's conversion of an unsigned 64-bit pattern to a signed one. */
  function ToInt64(u: uint64): (r: int)
    ensures -MAX_INT64 - 1 <= r <= MAX_INT64
    ensures r == u || r == u - UINT64_MODULUS
  {
    if u <= MAX_INT64 then u else u - UINT64_MODULUS
  }

  /** Go's integer division: the quotient is truncated toward zero. */
  function TruncQuo(a: int, b: int): int
    requires b != 0
  {
    var q := (if a < 0 then -a else a) / (if b < 0 then -b else b);
    if (a < 0) == (b < 0) then q else -q
  }

  function Zeros(n: nat): (s: bytes)
    ensures |s| == n && forall i :: 0 <= i < n ==> s[i] == 0
  {
    seq(n, i => 0)
  }

  // ---------------------------------------------------------------- big-endian

  function Pow256(k: nat): (p: nat)
    ensures p > 0
  {
    if k == 0 then 1 else 256 * Pow256(k - 1)
  }

  function BigEndian(n: nat, k: nat): (s: bytes)
    ensures |s| == k
  {
    if k == 0 then [] else BigEndian(n / 256, k - 1) + [n % 256]
  }

  function FromBigEndian(s: bytes): nat
  {
    if s == [] then 0 else 256 * FromBigEndian(s[..|s| - 1]) + s[|s| - 1]
  }

  lemma FromBigEndianSnoc(s: bytes, b: byte)
    ensures FromBigEndian(s + [b]) == 256 * FromBigEndian(s) + b
  {
    assert (s + [b])[..|s|] == s;
  }

  /** The bytes in front count for more, by a factor of 256 for each byte behind them. */
  lemma {:induction false} BigEndianWeighs(a: bytes, b: bytes)
    ensures FromBigEndian(a + b) == FromBigEndian(a) * Pow256(|b|) + FromBigEndian(b)
  {
    if b == [] {
      assert a + b == a;
    } else {
      var init, last := b[..|b| - 1], b[|b| - 1];
      BigEndianWeighs(a, init);
      assert a + b == (a + init) + [last];
      FromBigEndianSnoc(a + init, last);
      assert FromBigEndian(b) == 256 * FromBigEndian(init) + last;
      OnePlaceUp(FromBigEndian(a), Pow256(|init|), 256);
    }
  }

  lemma OnePlaceUp(v: nat, p: nat, radix: nat)
    ensures radix * (v * p) == v * (radix * p)
  {
  }

  lemma {:induction false} BigEndianInverse(n: nat, k: nat)
    requires n < Pow256(k)
    ensures FromBigEndian(BigEndian(n, k)) == n
  {
    if k > 0 {
      BigEndianInverse(n / 256, k - 1);
      FromBigEndianSnoc(BigEndian(n / 256, k - 1), n % 256);
    }
  }

  lemma {:induction false} FromBigEndianInverse(s: bytes)
    ensures FromBigEndian(s) < Pow256(|s|)
    ensures BigEndian(FromBigEndian(s), |s|) == s
  {
    if s != [] {
      FromBigEndianInverse(s[..|s| - 1]);
      assert s == s[..|s| - 1] + [s[|s| - 1]];
    }
  }

  lemma Pow256Of8()
    ensures Pow256(8) == UINT64_MODULUS
  {
    assert Pow256(4) == 0x1_0000_0000;
    assert Pow256(8) == 256 * (256 * (256 * (256 * Pow256(4))));
  }

  // ---------------------------------------------------------------- decimal text

  predicate IsDigit(b: byte) {
    48 <= b <= 57
  }

  predicate AllDigits(s: bytes) {
    forall i :: 0 <= i < |s| ==> IsDigit(s[i])
  }

  function Decimal(n: nat): (s: bytes)
    ensures s != [] && AllDigits(s)
  {
    if n < 10 then [48 + n] else Decimal(n / 10) + [48 + n % 10]
  }

  function DecimalValue(s: bytes): nat
    requires AllDigits(s)
  {
    if s == [] then 0 else 10 * DecimalValue(s[..|s| - 1]) + (s[|s| - 1] - 48)
  }

  lemma {:induction false} DecimalInverse(n: nat)
    ensures DecimalValue(Decimal(n)) == n
  {
    if n >= 10 {
      DecimalInverse(n / 10);
      assert Decimal(n)[..|Decimal(n)| - 1] == Decimal(n / 10);
    } else {
      assert Decimal(n)[..0] == [];
    }
  }

  function Pow10(k: nat): nat {
    if k == 0 then 1 else 10 * Pow10(k - 1)
  }

  /** The digits in front count for more, by a factor of ten for each digit behind them. */
  lemma {:induction false} DecimalWeighs(a: bytes, b: bytes)
    requires AllDigits(a) && AllDigits(b)
    ensures DecimalValue(a + b) == DecimalValue(a) * Pow10(|b|) + DecimalValue(b)
  {
    if b == [] {
      assert a + b == a;
    } else {
      var init, last := b[..|b| - 1], b[|b| - 1];
      DecimalWeighs(a, init);
      assert (a + b)[..|a + b| - 1] == a + init && (a + b)[|a + b| - 1] == last;
      OnePlaceUp(DecimalValue(a), Pow10(|init|), 10);
    }
  }

  /** strconv.ParseUint in base 10 for 64 bits: the empty string, other characters and larger numbers are refused. */
  function ParseUint(s: bytes): Option<uint64> {
    if s != [] && AllDigits(s) && DecimalValue(s) < UINT64_MODULUS then Some(DecimalValue(s)) else None
  }

  // ---------------------------------------------------------------- splitting

  /** strings.Split with a one-byte separator. */
  function Split(s: bytes, sep: byte): (parts: seq<bytes>)
    ensures parts != []
  {
    if s == [] then [[]]
    else
      var rest := Split(s[1..], sep);
      if s[0] == sep then [[]] + rest else [[s[0]] + rest[0]] + rest[1..]
  }

  lemma {:induction false} SplitWhole(s: bytes, sep: byte)
    requires sep !in s
    ensures Split(s, sep) == [s]
  {
    if s != [] {
      SplitWhole(s[1..], sep);
      assert s == [s[0]] + s[1..];
    }
  }

  lemma {:induction false} SplitAt(a: bytes, b: bytes, sep: byte)
    requires sep !in a
    ensures Split(a + [sep] + b, sep) == [a] + Split(b, sep)
  {
    var s := a + [sep] + b;
    if a == [] {
      assert s[1..] == b;
    } else {
      SplitAt(a[1..], b, sep);
      assert s[1..] == a[1..] + [sep] + b;
      assert a == [a[0]] + a[1..];
      assert ([a[1..]] + Split(b, sep))[1..] == Split(b, sep);
    }
  }

  /** Every separator inside the text adds a part. */
  lemma {:induction false} SplitCount(s: bytes, t: bytes, sep: byte)
    ensures |Split(s + t, sep)| >= |Split(t, sep)|
    ensures sep in s ==> |Split(s + t, sep)| > |Split(t, sep)|
  {
    if s == [] {
      assert s + t == t;
    } else {
      SplitCount(s[1..], t, sep);
      assert (s + t)[1..] == s[1..] + t;
    }
  }

  /** strings.TrimRight of null bytes. */
  function TrimZeros(s: bytes): bytes {
    if s != [] && s[|s| - 1] == 0 then TrimZeros(s[..|s| - 1]) else s
  }

  lemma {:induction false} TrimZerosLeavesZeros(s: bytes)
    ensures |TrimZeros(s)| <= |s| && s == TrimZeros(s) + Zeros(|s| - |TrimZeros(s)|)
  {
    if s != [] && s[|s| - 1] == 0 {
      TrimZerosLeavesZeros(s[..|s| - 1]);
    }
  }
}
