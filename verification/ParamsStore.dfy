/** The stored fee parameters (x/ibctransfermiddleware/keeper/keeper.go): every read decodes what a write encoded. */
module ParamsStore {
  import opened Wrappers
  import opened Bytes
  import opened FeeTypes
  import opened FeeCodec
  import opened FeeCodecLaws
  import opened FeeCodecCode

  class Store {
    var bz: Option<bytes>

    constructor ()
      ensures bz == None
    {
      bz := None;
    }

    /** The parameters the store stands for; None if the stored bytes cannot be decoded. */
    function Contents(c: CoinCodec): Option<Params>
      reads this
    {
      match bz
      case None => Some(NO_PARAMS)
      case Some(data) => DecParams(c, NO_PARAMS, data)
    }

    method SetParams(c: CoinCodec, p: Params)
      requires |EncParams(c, p)| <= MAX_INT64
      modifies this
      ensures bz == Some(EncParams(c, p))
      ensures c.Lawful() ==> Contents(c) == Some(p)
    {
      var data := Marshal(c, p);
      bz := Some(data);
      if c.Lawful() {
        ParamsRoundTrip(c, p);
      }
    }

    /** None stands for the panic on stored bytes that cannot be decoded. */
    method GetParams(c: CoinCodec) returns (p: Option<Params>)
      requires bz.Some? ==> |bz.value| <= MAX_INT64
      ensures p == Contents(c)
    {
      if bz.None? {
        return Some(NO_PARAMS);
      }
      p := UnmarshalParams(c, NO_PARAMS, bz.value);
    }
  }

  // ---------------------------------------------------------------- the contract of the coin codec can be met

  /** A coin as its sign, its decimal magnitude, a slash and its denomination. */
  function PlainCoin(coin: Coin): bytes {
    if coin.amount < 0 then [1] + (Decimal(-coin.amount) + [SLASH] + coin.denom)
    else [0] + (Decimal(coin.amount) + [SLASH] + coin.denom)
  }

  lemma SlashNotBefore(a: bytes, x: bytes, b: bytes, y: bytes)
    requires AllDigits(b) && a + [SLASH] + x == b + [SLASH] + y
    ensures |b| <= |a|
  {
    var s := b + [SLASH] + y;
    assert forall i :: 0 <= i < |b| ==> s[i] == b[i] && IsDigit(s[i]);
    assert !IsDigit((a + [SLASH] + x)[|a|]);
  }

  lemma DecimalPrefix(n: nat, x: bytes, m: nat, y: bytes)
    requires Decimal(n) + [SLASH] + x == Decimal(m) + [SLASH] + y
    ensures n == m && x == y
  {
    var a, b := Decimal(n), Decimal(m);
    SlashNotBefore(a, x, b, y);
    SlashNotBefore(b, y, a, x);
    assert a == (a + [SLASH] + x)[..|a|] == b;
    assert x == (a + [SLASH] + x)[|a| + 1..] == y;
    DecimalInverse(n);
    DecimalInverse(m);
  }

  lemma PlainCoinInjective(a: Coin, b: Coin)
    requires PlainCoin(a) == PlainCoin(b)
    ensures a == b
  {
    var n, m := if a.amount < 0 then -a.amount else a.amount, if b.amount < 0 then -b.amount else b.amount;
    assert PlainCoin(a)[0] == PlainCoin(b)[0];
    assert Decimal(n) + [SLASH] + a.denom == PlainCoin(a)[1..] == PlainCoin(b)[1..] == Decimal(m) + [SLASH] + b.denom;
    DecimalPrefix(n, a.denom, m, b.denom);
  }

  /** There are coin codecs that read back every coin they write. */
  lemma LawfulCodecExists()
    ensures exists c: CoinCodec :: c.Lawful()
  {
    var c := CoinCodec(PlainCoin,
      (m, s) => if exists x :: PlainCoin(x) == s then Some(var x :| PlainCoin(x) == s; x) else None);
    forall x: Coin ensures c.dec(NO_COIN, c.enc(x)) == Some(x) {
      assert PlainCoin(x) == c.enc(x);
      var y := c.dec(NO_COIN, c.enc(x)).value;
      PlainCoinInjective(x, y);
    }
    assert c.Lawful();
  }
}
