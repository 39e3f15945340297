/**
 The messages that edit the fee configuration (x/ibctransfermiddleware/keeper/msg_server.go): lists of
 channels, each with a list of tokens, edited in place and kept as a map from channel to map from token.
 Who may send a message and whether an address is valid bech32 are parameters.
 */
module FeeConfig {
  import opened Wrappers
  import opened Bytes
  import opened FeeTypes

  // ---------------------------------------------------------------- lists as maps

  /** The map a list of pairs stands for when searched from the front. */
  function Assoc<V>(pairs: seq<(bytes, V)>): map<bytes, V> {
    if pairs == [] then map[] else Assoc(pairs[1..])[pairs[0].0 := pairs[0].1]
  }

  ghost predicate DistinctKeys<V>(pairs: seq<(bytes, V)>) {
    forall i, j :: 0 <= i < j < |pairs| ==> pairs[i].0 != pairs[j].0
  }

  lemma {:induction false} AssocKeys<V>(pairs: seq<(bytes, V)>, k: bytes)
    ensures k in Assoc(pairs) <==> exists i :: 0 <= i < |pairs| && pairs[i].0 == k
  {
    if pairs != [] {
      AssocKeys(pairs[1..], k);
      if exists i :: 0 <= i < |pairs[1..]| && pairs[1..][i].0 == k {
        var i :| 0 <= i < |pairs[1..]| && pairs[1..][i].0 == k;
        assert pairs[i + 1].0 == k;
      }
      if i :| 0 <= i < |pairs| && pairs[i].0 == k && i > 0 {
        assert pairs[1..][i - 1].0 == k;
      }
    }
  }

  lemma {:induction false} AssocAt<V>(pairs: seq<(bytes, V)>, i: nat)
    requires i < |pairs| && forall j :: 0 <= j < i ==> pairs[j].0 != pairs[i].0
    ensures pairs[i].0 in Assoc(pairs) && Assoc(pairs)[pairs[i].0] == pairs[i].1
  {
    if i > 0 {
      AssocAt(pairs[1..], i - 1);
    }
  }

  lemma {:induction false} AssocUpdate<V>(pairs: seq<(bytes, V)>, i: nat, v: V)
    requires i < |pairs| && forall j :: 0 <= j < i ==> pairs[j].0 != pairs[i].0
    ensures Assoc(pairs[i := (pairs[i].0, v)]) == Assoc(pairs)[pairs[i].0 := v]
  {
    var updated := pairs[i := (pairs[i].0, v)];
    if i == 0 {
      assert updated[1..] == pairs[1..];
    } else {
      AssocUpdate(pairs[1..], i - 1, v);
      assert updated[1..] == pairs[1..][i - 1 := (pairs[i].0, v)];
    }
  }

  lemma {:induction false} AssocAppend<V>(pairs: seq<(bytes, V)>, k: bytes, v: V)
    requires forall j :: 0 <= j < |pairs| ==> pairs[j].0 != k
    ensures Assoc(pairs + [(k, v)]) == Assoc(pairs)[k := v]
  {
    var longer := pairs + [(k, v)];
    if pairs == [] {
      assert longer[1..] == [];
    } else {
      AssocAppend(pairs[1..], k, v);
      assert longer[1..] == pairs[1..] + [(k, v)];
    }
  }

  lemma {:induction false} AssocRemove<V>(pairs: seq<(bytes, V)>, i: nat)
    requires i < |pairs| && DistinctKeys(pairs)
    ensures Assoc(pairs[..i] + pairs[i + 1..]) == Assoc(pairs) - {pairs[i].0}
  {
    var shorter := pairs[..i] + pairs[i + 1..];
    if i == 0 {
      AssocKeys(pairs[1..], pairs[0].0);
      assert shorter == pairs[1..];
    } else {
      AssocRemove(pairs[1..], i - 1);
      assert shorter[1..] == pairs[1..][..i - 1] + pairs[1..][i..];
    }
  }

  // ---------------------------------------------------------------- the configuration

  /** What a channel's entry means. */
  datatype Entry = Entry(feeAddress: bytes, minTimeoutTimestamp: int64, tokens: map<bytes, CoinItem>)

  function TokenPairs(items: seq<CoinItem>): (pairs: seq<(bytes, CoinItem)>)
    ensures |pairs| == |items| && forall i :: 0 <= i < |items| ==> pairs[i] == (items[i].minFee.denom, items[i])
  {
    seq(|items|, i requires 0 <= i < |items| => (items[i].minFee.denom, items[i]))
  }

  function Meaning(fee: ChannelFee): Entry {
    Entry(fee.feeAddress, fee.minTimeoutTimestamp, Assoc(TokenPairs(fee.allowedTokens)))
  }

  function ChannelPairs(fees: seq<ChannelFee>): (pairs: seq<(bytes, Entry)>)
    ensures |pairs| == |fees| && forall i :: 0 <= i < |fees| ==> pairs[i] == (fees[i].channel, Meaning(fees[i]))
  {
    seq(|fees|, i requires 0 <= i < |fees| => (fees[i].channel, Meaning(fees[i])))
  }

  ghost predicate TokensDistinct(items: seq<CoinItem>) {
    DistinctKeys(TokenPairs(items))
  }

  datatype Error = InvalidSigner | InvalidAddress | ChannelFeeNotFound

  /** The first entry of the channel. */
  method FindChannelParams(fees: seq<ChannelFee>, channel: bytes) returns (r: Option<nat>)
    ensures r.None? <==> channel !in Assoc(ChannelPairs(fees))
    ensures r.Some? ==> r.value < |fees| && fees[r.value].channel == channel
                        && forall j :: 0 <= j < r.value ==> fees[j].channel != channel
    ensures r.None? ==> forall j :: 0 <= j < |fees| ==> fees[j].channel != channel
  {
    AssocKeys(ChannelPairs(fees), channel);
    for i := 0 to |fees|
      invariant forall j :: 0 <= j < i ==> fees[j].channel != channel
    {
      if fees[i].channel == channel {
        return Some(i);
      }
    }
    return None;
  }

  /** The first token of the denomination. */
  method FindCoinByDenom(items: seq<CoinItem>, denom: bytes) returns (r: Option<nat>)
    ensures r.None? <==> denom !in Assoc(TokenPairs(items))
    ensures r.Some? ==> r.value < |items| && items[r.value].minFee.denom == denom
                        && forall j :: 0 <= j < r.value ==> items[j].minFee.denom != denom
    ensures r.None? ==> forall j :: 0 <= j < |items| ==> items[j].minFee.denom != denom
  {
    AssocKeys(TokenPairs(items), denom);
    for i := 0 to |items|
      invariant forall j :: 0 <= j < i ==> items[j].minFee.denom != denom
    {
      if items[i].minFee.denom == denom {
        return Some(i);
      }
    }
    return None;
  }

  lemma UpdatedPairs(fees: seq<ChannelFee>, i: nat, fee: ChannelFee)
    requires i < |fees| && fee.channel == fees[i].channel
    ensures ChannelPairs(fees[i := fee]) == ChannelPairs(fees)[i := (fees[i].channel, Meaning(fee))]
  {
  }

  lemma UpdatedTokens(items: seq<CoinItem>, i: nat, item: CoinItem)
    requires i < |items| && item.minFee.denom == items[i].minFee.denom
    ensures TokenPairs(items[i := item]) == TokenPairs(items)[i := (items[i].minFee.denom, item)]
  {
  }

  class ConfigKeeper {
    var channelFees: seq<ChannelFee>

    ghost predicate Valid()
      reads this
    {
      DistinctKeys(ChannelPairs(channelFees))
        && forall i :: 0 <= i < |channelFees| ==> TokensDistinct(channelFees[i].allowedTokens)
    }

    function Config(): map<bytes, Entry>
      reads this
    {
      Assoc(ChannelPairs(channelFees))
    }

    constructor ()
      ensures Valid() && Config() == map[]
    {
      channelFees := [];
    }

    /** Edits the entry found at an index through its pointer. */
    method EditEntry(i: nat, fee: ChannelFee)
      requires Valid() && i < |channelFees| && fee.channel == channelFees[i].channel
        && TokensDistinct(fee.allowedTokens)
      modifies this
      ensures Valid() && Config() == old(Config())[fee.channel := Meaning(fee)]
    {
      UpdatedPairs(channelFees, i, fee);
      assert forall j :: 0 <= j < i ==> ChannelPairs(channelFees)[j].0 != ChannelPairs(channelFees)[i].0;
      AssocUpdate(ChannelPairs(channelFees), i, Meaning(fee));
      channelFees := channelFees[i := fee];
    }

    /** Adds the channel with no tokens, or overwrites its address and timeout and keeps its tokens. */
    method AddIBCFeeConfig(
      authorized: bool, validAddress: bool, channel: bytes, feeAddress: bytes, minTimeoutTimestamp: int64)
      returns (r: Result<(), Error>)
      requires Valid()
      modifies this
      ensures Valid()
      ensures r == if !authorized then Err(InvalidSigner) else if !validAddress then Err(InvalidAddress) else Ok(())
      ensures r.Err? ==> channelFees == old(channelFees)
      ensures r.Ok? ==> Config() == old(Config())[channel := Entry(feeAddress, minTimeoutTimestamp,
                if channel in old(Config()) then old(Config())[channel].tokens else map[])]
    {
      if !authorized {
        return Err(InvalidSigner);
      }
      if !validAddress {
        return Err(InvalidAddress);
      }
      var found := FindChannelParams(channelFees, channel);
      if found.Some? {
        var fee := channelFees[found.value];
        AssocAt(ChannelPairs(channelFees), found.value);
        EditEntry(found.value, fee.(feeAddress := feeAddress, minTimeoutTimestamp := minTimeoutTimestamp));
      } else {
        var fee := ChannelFee(channel, [], feeAddress, minTimeoutTimestamp);
        AssocAppend(ChannelPairs(channelFees), channel, Meaning(fee));
        assert ChannelPairs(channelFees + [fee]) == ChannelPairs(channelFees) + [(channel, Meaning(fee))];
        channelFees := channelFees + [fee];
      }
      return Ok(());
    }

    method SpliceOut(i: nat)
      requires Valid() && i < |channelFees|
      modifies this
      ensures Valid() && Config() == old(Config()) - {old(channelFees)[i].channel}
    {
      AssocRemove(ChannelPairs(channelFees), i);
      assert ChannelPairs(channelFees[..i] + channelFees[i + 1..])
             == ChannelPairs(channelFees)[..i] + ChannelPairs(channelFees)[i + 1..];
      channelFees := channelFees[..i] + channelFees[i + 1..];
    }

    /** Removing a channel that is not configured is not an error. */
    method RemoveIBCFeeConfig(authorized: bool, channel: bytes) returns (r: Result<(), Error>)
      requires Valid()
      modifies this
      ensures Valid()
      ensures r == if authorized then Ok(()) else Err(InvalidSigner)
      ensures r.Err? ==> channelFees == old(channelFees)
      ensures r.Ok? ==> Config() == old(Config()) - {channel}
    {
      if !authorized {
        return Err(InvalidSigner);
      }
      var found := FindChannelParams(channelFees, channel);
      if found.Some? {
        SpliceOut(found.value);
      }
      return Ok(());
    }

    /** The token list of an entry with the token set. */
    method SetToken(items: seq<CoinItem>, item: CoinItem) returns (updated: seq<CoinItem>)
      requires TokensDistinct(items)
      ensures TokensDistinct(updated)
        && Assoc(TokenPairs(updated)) == Assoc(TokenPairs(items))[item.minFee.denom := item]
    {
      var found := FindCoinByDenom(items, item.minFee.denom);
      if found.Some? {
        updated := items[found.value := item];
        UpdatedTokens(items, found.value, item);
        AssocUpdate(TokenPairs(items), found.value, item);
      } else {
        updated := items + [item];
        AssocAppend(TokenPairs(items), item.minFee.denom, item);
        assert TokenPairs(updated) == TokenPairs(items) + [(item.minFee.denom, item)];
      }
    }

    method DropToken(items: seq<CoinItem>, denom: bytes) returns (updated: seq<CoinItem>)
      requires TokensDistinct(items)
      ensures TokensDistinct(updated) && Assoc(TokenPairs(updated)) == Assoc(TokenPairs(items)) - {denom}
    {
      updated := items;
      var found := FindCoinByDenom(items, denom);
      if found.Some? {
        var i := found.value;
        updated := items[..i] + items[i + 1..];
        AssocRemove(TokenPairs(items), i);
        assert TokenPairs(updated) == TokenPairs(items)[..i] + TokenPairs(items)[i + 1..];
      }
    }

    method AddAllowedIbcToken(
      authorized: bool, channel: bytes, minFee: Coin, percentage: int64, txPriorityFee: seq<TxPriorityFee>)
      returns (r: Result<(), Error>)
      requires Valid()
      modifies this
      ensures Valid()
      ensures r == if !authorized then Err(InvalidSigner)
                   else if channel !in old(Config()) then Err(ChannelFeeNotFound) else Ok(())
      ensures r.Err? ==> channelFees == old(channelFees)
      ensures r.Ok? ==>
        var entry := old(Config())[channel];
        Config() == old(Config())[channel := entry.(tokens :=
          entry.tokens[minFee.denom := CoinItem(minFee, percentage, txPriorityFee)])]
    {
      if !authorized {
        return Err(InvalidSigner);
      }
      var found := FindChannelParams(channelFees, channel);
      if found.None? {
        return Err(ChannelFeeNotFound);
      }
      var fee := channelFees[found.value];
      AssocAt(ChannelPairs(channelFees), found.value);
      var tokens := SetToken(fee.allowedTokens, CoinItem(minFee, percentage, txPriorityFee));
      EditEntry(found.value, fee.(allowedTokens := tokens));
      return Ok(());
    }

    method RemoveAllowedIbcToken(authorized: bool, channel: bytes, denom: bytes) returns (r: Result<(), Error>)
      requires Valid()
      modifies this
      ensures Valid()
      ensures r == if !authorized then Err(InvalidSigner)
                   else if channel !in old(Config()) then Err(ChannelFeeNotFound) else Ok(())
      ensures r.Err? ==> channelFees == old(channelFees)
      ensures r.Ok? ==>
        var entry := old(Config())[channel];
        Config() == old(Config())[channel := entry.(tokens := entry.tokens - {denom})]
    {
      if !authorized {
        return Err(InvalidSigner);
      }
      var found := FindChannelParams(channelFees, channel);
      if found.None? {
        return Err(ChannelFeeNotFound);
      }
      var fee := channelFees[found.value];
      AssocAt(ChannelPairs(channelFees), found.value);
      var tokens := DropToken(fee.allowedTokens, denom);
      EditEntry(found.value, fee.(allowedTokens := tokens));
      return Ok(());
    }
  }
}
