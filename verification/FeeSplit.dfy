/**
 How a transfer is split into a fee and a forwarded amount, in the message server and in the keeper
 (custom/ibc-transfer/keeper/msg_server.go, custom/ibc-transfer/keeper/keeper.go).
 The priority is the one read from the memo, None if there is none.
 */
module FeeSplit {
  import opened Wrappers
  import opened Bytes
  import opened Integers
  import opened FeeTypes

  function FindChannel(fees: seq<ChannelFee>, channel: bytes): (r: Option<ChannelFee>)
    ensures r.Some? ==> r.value in fees && r.value.channel == channel
  {
    if fees == [] then None
    else if fees[0].channel == channel then Some(fees[0])
    else FindChannel(fees[1..], channel)
  }

  function FindToken(items: seq<CoinItem>, denom: bytes): (r: Option<CoinItem>)
    ensures r.Some? ==> r.value in items && r.value.minFee.denom == denom
  {
    if items == [] then None
    else if items[0].minFee.denom == denom then Some(items[0])
    else FindToken(items[1..], denom)
  }

  function FindPriority(fees: seq<TxPriorityFee>, priority: bytes): (r: Option<TxPriorityFee>)
    ensures r.Some? ==> r.value in fees && r.value.priority == priority
  {
    if fees == [] then None
    else if fees[0].priority == priority then Some(fees[0])
    else FindPriority(fees[1..], priority)
  }

  method FindChannelParams(fees: seq<ChannelFee>, channel: bytes) returns (r: Option<ChannelFee>)
    ensures r == FindChannel(fees, channel)
  {
    for i := 0 to |fees|
      invariant FindChannel(fees, channel) == FindChannel(fees[i..], channel)
    {
      if fees[i].channel == channel {
        return Some(fees[i]);
      }
      assert fees[i..][1..] == fees[i + 1..];
    }
    return None;
  }

  method FindCoinByDenom(items: seq<CoinItem>, denom: bytes) returns (r: Option<CoinItem>)
    ensures r == FindToken(items, denom)
  {
    for i := 0 to |items|
      invariant FindToken(items, denom) == FindToken(items[i..], denom)
    {
      if items[i].minFee.denom == denom {
        return Some(items[i]);
      }
      assert items[i..][1..] == items[i + 1..];
    }
    return None;
  }

  method FindPriorityFee(fees: seq<TxPriorityFee>, priority: bytes) returns (r: Option<TxPriorityFee>)
    ensures r == FindPriority(fees, priority)
  {
    for i := 0 to |fees|
      invariant FindPriority(fees, priority) == FindPriority(fees[i..], priority)
    {
      if fees[i].priority == priority {
        return Some(fees[i]);
      }
      assert fees[i..][1..] == fees[i + 1..];
    }
    return None;
  }

  datatype Split = Split(charge: int, forwarded: int)

  /** The minimum fee, plus the fee of the priority if that is in the same denomination. */
  function FlatFee(item: CoinItem, priority: Option<bytes>): int {
    item.minFee.amount
    + if priority.None? then 0
      else
        match FindPriority(item.txPriorityFee, priority.value)
        case Some(p) => if p.priorityFee.denom == item.minFee.denom then p.priorityFee.amount else 0
        case None => 0
  }

  function FlatSplit(item: CoinItem, priority: Option<bytes>, amount: int): Split {
    var flat := FlatFee(item, priority);
    var charge := if flat > amount then amount else flat;
    Split(charge, amount - charge)
  }

  /** What the percentage takes off a remainder: the remainder divided by it. */
  function PercentageCharge(item: CoinItem, remainder: int): int
    requires item.percentage != 0
  {
    TruncQuo(remainder, item.percentage)
  }

  function WithPercentage(item: CoinItem, s: Split): Split
    requires item.percentage != 0
  {
    var p := PercentageCharge(item, s.forwarded);
    Split(s.charge + p, s.forwarded - p)
  }

  /** The message server skips a zero percentage. */
  function ServerSplit(item: CoinItem, priority: Option<bytes>, amount: int): Split {
    var s := FlatSplit(item, priority, amount);
    if s.forwarded > 0 && item.percentage != 0 then WithPercentage(item, s) else s
  }

  /** The keeper divides by the percentage whatever it is; None stands for the panic of a division by zero. */
  function KeeperSplit(item: CoinItem, priority: Option<bytes>, amount: int): Option<Split> {
    var s := FlatSplit(item, priority, amount);
    if s.forwarded > 0 then if item.percentage == 0 then None else Some(WithPercentage(item, s)) else Some(s)
  }

  method GetMinFee(item: CoinItem, priority: Option<bytes>) returns (minFee: int)
    ensures minFee == FlatFee(item, priority)
  {
    minFee := item.minFee.amount;
    if priority.Some? {
      var p := FindPriorityFee(item.txPriorityFee, priority.value);
      if p.Some? && item.minFee.denom == p.value.priorityFee.denom {
        minFee := minFee + p.value.priorityFee.amount;
      }
    }
  }

  method SplitInServer(item: CoinItem, priority: Option<bytes>, amount: int) returns (charge: int, newAmount: int)
    ensures Split(charge, newAmount) == ServerSplit(item, priority, amount)
  {
    charge := GetMinFee(item, priority);
    if charge > amount {
      charge := amount;
    }
    newAmount := amount - charge;
    if newAmount > 0 && item.percentage != 0 {
      var percentageCharge := TruncQuo(newAmount, item.percentage);
      newAmount := newAmount - percentageCharge;
      charge := charge + percentageCharge;
    }
  }

  method SplitInKeeper(item: CoinItem, priority: Option<bytes>, amount: int) returns (r: Option<Split>)
    ensures r == KeeperSplit(item, priority, amount)
  {
    var charge := GetMinFee(item, priority);
    if charge > amount {
      charge := amount;
    }
    var newAmount := amount - charge;
    if newAmount > 0 {
      if item.percentage == 0 {
        return None;
      }
      var percentageCharge := TruncQuo(newAmount, item.percentage);
      newAmount := newAmount - percentageCharge;
      charge := charge + percentageCharge;
    }
    return Some(Split(charge, newAmount));
  }

  // ---------------------------------------------------------------- properties

  function Min(a: int, b: int): int {
    if a < b then a else b
  }

  lemma QuotientBounds(x: int, p: int)
    requires x > 0 && p != 0
    ensures p > 0 ==> 0 <= TruncQuo(x, p) <= x
    ensures p < 0 ==> -x <= TruncQuo(x, p) <= 0 && (TruncQuo(x, p) == 0 <==> x < -p)
  {
    QuotientOfNatural(x, if p > 0 then p else -p);
  }

  /**
   Whatever the settings, fee and forwarded amount add up to the amount. With nonnegative fees, the charge
   reaches the flat fee, as far as the amount goes, exactly if the percentage is not negative or the remainder
   is too small for it to matter; and then neither part is negative.
   */
  lemma ServerSplitIsFair(item: CoinItem, priority: Option<bytes>, amount: int)
    requires amount >= 0 && FlatFee(item, priority) >= 0
    ensures var s := ServerSplit(item, priority, amount);
            && s.charge + s.forwarded == amount
            && (s.charge >= Min(amount, FlatFee(item, priority)) <==>
                item.percentage >= 0 || amount - FlatFee(item, priority) + item.percentage < 0)
            && (s.charge >= Min(amount, FlatFee(item, priority)) ==> s.charge >= 0 && s.forwarded >= 0)
  {
    var s := FlatSplit(item, priority, amount);
    if s.forwarded > 0 && item.percentage != 0 {
      QuotientBounds(s.forwarded, item.percentage);
    }
  }

  /** The entry at this position is the first of its priority. */
  predicate FirstPriority(fees: seq<TxPriorityFee>, priority: bytes, i: int) {
    0 <= i < |fees| && fees[i].priority == priority && forall j :: 0 <= j < i ==> fees[j].priority != priority
  }

  /**
   What a priority adds to the minimum fee: the fee of its first entry, if that is in the denomination of the minimum
   fee; nothing otherwise, and nothing without an entry or without a priority.
   */
  ghost predicate Adds(item: CoinItem, priority: Option<bytes>, extra: int) {
    match priority
    case None => extra == 0
    case Some(p) =>
      var fees := item.txPriorityFee;
      && (forall i :: FirstPriority(fees, p, i) ==>
            extra == if fees[i].priorityFee.denom == item.minFee.denom then fees[i].priorityFee.amount else 0)
      && ((forall i :: 0 <= i < |fees| ==> fees[i].priority != p) ==> extra == 0)
  }

  /** What a percentage takes off a positive remainder: the quotient, rounded toward zero. */
  predicate Takes(percentage: int, remainder: int, taken: int) {
    if remainder <= 0 || percentage == 0 then taken == 0
    else 0 <= taken * percentage <= remainder < taken * percentage + if percentage > 0 then percentage else -percentage
  }

  lemma {:induction false} FindPriorityExact(fees: seq<TxPriorityFee>, priority: bytes, i: int)
    ensures FirstPriority(fees, priority, i) ==> FindPriority(fees, priority) == Some(fees[i])
    ensures (forall j :: 0 <= j < |fees| ==> fees[j].priority != priority) ==> FindPriority(fees, priority) == None
  {
    if fees != [] && fees[0].priority != priority {
      if FirstPriority(fees, priority, i) {
        assert FirstPriority(fees[1..], priority, i - 1);
      }
      FindPriorityExact(fees[1..], priority, i - 1);
    }
  }

  /** The flat fee is the minimum fee and what the priority adds, and that is determined. */
  lemma FlatFeeExact(item: CoinItem, priority: Option<bytes>, extra: int)
    ensures Adds(item, priority, extra) <==> FlatFee(item, priority) == item.minFee.amount + extra
  {
    if priority.Some? {
      var (fees, p) := (item.txPriorityFee, priority.value);
      forall i | FirstPriority(fees, p, i) ensures FindPriority(fees, p) == Some(fees[i]) {
        FindPriorityExact(fees, p, i);
      }
      FindPriorityExact(fees, p, 0);
      if j :| 0 <= j < |fees| && fees[j].priority == p {
        var i := FirstOf(fees, p, j);
      }
    }
  }

  lemma {:induction false} FirstOf(fees: seq<TxPriorityFee>, priority: bytes, j: nat) returns (i: nat)
    requires j < |fees| && fees[j].priority == priority
    ensures FirstPriority(fees, priority, i)
  {
    if k :| 0 <= k < j && fees[k].priority == priority {
      i := FirstOf(fees, priority, k);
    } else {
      i := j;
    }
  }

  lemma QuotientTakes(remainder: int, percentage: int)
    requires remainder > 0 && percentage != 0
    ensures Takes(percentage, remainder, TruncQuo(remainder, percentage))
  {
    QuotientOfNatural(remainder, if percentage > 0 then percentage else -percentage);
  }

  lemma TakesOnce(percentage: int, remainder: int, t: int, t': int)
    requires Takes(percentage, remainder, t) && Takes(percentage, remainder, t')
    ensures t == t'
  {
    if remainder > 0 && percentage != 0 {
      var d := if percentage > 0 then percentage else -percentage;
      var (q, q') := if percentage > 0 then (t, t') else (-t, -t');
      assert q * d == t * percentage && q' * d == t' * percentage;
      DivBetween(remainder, q, d);
      DivBetween(remainder, q', d);
    }
  }

  /**
   The charge is the minimum fee and what the priority adds, as far as the amount goes, and what the percentage takes
   off the rest; the remainder is forwarded. These are determined, so a charge of this form is the charge.
   */
  lemma ServerSplitExact(item: CoinItem, priority: Option<bytes>, amount: int, extra: int, taken: int)
    requires Adds(item, priority, extra)
    ensures var flat := Min(amount, item.minFee.amount + extra);
            Takes(item.percentage, amount - flat, taken)
            <==> ServerSplit(item, priority, amount) == Split(flat + taken, amount - (flat + taken))
  {
    var flat := Min(amount, item.minFee.amount + extra);
    FlatFeeExact(item, priority, extra);
    if amount - flat > 0 && item.percentage != 0 {
      QuotientTakes(amount - flat, item.percentage);
      if Takes(item.percentage, amount - flat, taken) {
        TakesOnce(item.percentage, amount - flat, taken, TruncQuo(amount - flat, item.percentage));
      }
    }
  }

  /** Nonnegative settings give a nonnegative flat fee. */
  lemma FlatFeeNonnegative(item: CoinItem, priority: Option<bytes>)
    requires item.minFee.amount >= 0
    requires forall p :: p in item.txPriorityFee ==> p.priorityFee.amount >= 0
    ensures FlatFee(item, priority) >= item.minFee.amount
  {
  }

  /** The two copies agree exactly where the percentage is not zero or nothing is left to take it from. */
  lemma CopiesAgree(item: CoinItem, priority: Option<bytes>, amount: int)
    ensures KeeperSplit(item, priority, amount) == Some(ServerSplit(item, priority, amount))
            <==> item.percentage != 0 || amount <= FlatFee(item, priority)
    ensures KeeperSplit(item, priority, amount).None? <==> item.percentage == 0 && amount > FlatFee(item, priority)
  {
  }
}
