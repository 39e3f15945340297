/** The fee configuration messages (x/ibctransfermiddleware/types/ibctransfermiddleware.pb.go). */
module FeeTypes {
  import opened Bytes

  type int64 = n: int | -MAX_INT64 - 1 <= n <= MAX_INT64

  /** A coin of the SDK. Its own codec is a parameter of the fee codec. */
  datatype Coin = Coin(denom: bytes, amount: int)

  datatype TxPriorityFee = TxPriorityFee(priority: bytes, priorityFee: Coin)

  datatype CoinItem = CoinItem(minFee: Coin, percentage: int64, txPriorityFee: seq<TxPriorityFee>)

  datatype ChannelFee = ChannelFee(
    channel: bytes, allowedTokens: seq<CoinItem>, feeAddress: bytes, minTimeoutTimestamp: int64)

  datatype Params = Params(channelFees: seq<ChannelFee>)

  const NO_COIN: Coin := Coin([], 0)

  const NO_TX: TxPriorityFee := TxPriorityFee([], NO_COIN)

  const NO_ITEM: CoinItem := CoinItem(NO_COIN, 0, [])

  const NO_FEE: ChannelFee := ChannelFee([], [], [], 0)

  const NO_PARAMS: Params := Params([])

  /** Go's conversion of a signed 64-bit value to its unsigned pattern. */
  function ToUint64(n: int64): (u: uint64)
    ensures ToInt64(u) == n
  {
    if n >= 0 then n else n + UINT64_MODULUS
  }
}
