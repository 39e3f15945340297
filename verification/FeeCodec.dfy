/** What Marshal writes and what Unmarshal makes of arbitrary bytes, for the four nested fee messages. */
module FeeCodec {
  import opened Wrappers
  import opened Bytes
  import opened Wire
  import opened FeeTypes

  /** The codec of the nested Coin; reading merges into the coin already there. */
  datatype CoinCodec = CoinCodec(enc: Coin -> bytes, dec: (Coin, bytes) -> Option<Coin>) {
    ghost predicate Lawful() {
      forall c: Coin :: dec(NO_COIN, enc(c)) == Some(c)
    }
  }

  const TX_SCHEMA: Schema := map[1 := 2, 2 := 2]

  const ITEM_SCHEMA: Schema := map[1 := 2, 2 := 0, 3 := 2]

  const FEE_SCHEMA: Schema := map[1 := 2, 2 := 2, 3 := 2, 4 := 0]

  const PARAMS_SCHEMA: Schema := map[1 := 2]

  // ---------------------------------------------------------------- writing

  /** A field that is left out if its value is empty. */
  function EncNonEmpty(tag: byte, value: bytes): bytes {
    if value == [] then [] else EncChunk(tag, value)
  }

  function EncNonZero(tag: byte, value: int64): bytes {
    if value == 0 then [] else EncNum(tag, ToUint64(value))
  }

  function EncTx(c: CoinCodec, m: TxPriorityFee): bytes {
    EncNonEmpty(0x0a, m.priority) + EncChunk(0x12, c.enc(m.priorityFee))
  }

  function EncTxs(c: CoinCodec, ms: seq<TxPriorityFee>): bytes {
    if ms == [] then [] else EncChunk(0x1a, EncTx(c, ms[0])) + EncTxs(c, ms[1..])
  }

  function EncItem(c: CoinCodec, m: CoinItem): bytes {
    EncChunk(0x0a, c.enc(m.minFee)) + (EncNonZero(0x10, m.percentage) + EncTxs(c, m.txPriorityFee))
  }

  function EncItems(c: CoinCodec, ms: seq<CoinItem>): bytes {
    if ms == [] then [] else EncChunk(0x12, EncItem(c, ms[0])) + EncItems(c, ms[1..])
  }

  function EncFee(c: CoinCodec, m: ChannelFee): bytes {
    EncNonEmpty(0x0a, m.channel)
    + (EncItems(c, m.allowedTokens) + (EncNonEmpty(0x1a, m.feeAddress) + EncNonZero(0x20, m.minTimeoutTimestamp)))
  }

  function EncFees(c: CoinCodec, ms: seq<ChannelFee>): bytes {
    if ms == [] then [] else EncChunk(0x0a, EncFee(c, ms[0])) + EncFees(c, ms[1..])
  }

  function EncParams(c: CoinCodec, m: Params): bytes {
    EncFees(c, m.channelFees)
  }

  // ---------------------------------------------------------------- reading

  /** What one field does to a message read so far: a repeated field is appended, any other is overwritten or merged. */
  function ApplyTx(c: CoinCodec, m: TxPriorityFee, f: Field): Option<TxPriorityFee> {
    match f
    case Chunk(num, payload) =>
      if num == 1 then Some(m.(priority := payload))
      else
        (match c.dec(m.priorityFee, payload)
         case None => None
         case Some(coin) => Some(m.(priorityFee := coin)))
    case _ => Some(m)
  }

  function FoldTx(c: CoinCodec, m: TxPriorityFee, fs: seq<Field>): Option<TxPriorityFee>
    decreases |fs|
  {
    if fs == [] then Some(m)
    else
      match ApplyTx(c, m, fs[0])
      case None => None
      case Some(m') => FoldTx(c, m', fs[1..])
  }

  /** Unmarshal of data into a message: nothing unless the data is a sequence of fields that all apply. */
  function DecTx(c: CoinCodec, m: TxPriorityFee, s: bytes): Option<TxPriorityFee> {
    match Fields(TX_SCHEMA, s)
    case None => None
    case Some(fs) => FoldTx(c, m, fs)
  }

  function ApplyItem(c: CoinCodec, m: CoinItem, f: Field): Option<CoinItem> {
    match f
    case Num(_, value) => Some(m.(percentage := ToInt64(value)))
    case Chunk(num, payload) =>
      if num == 1 then
        (match c.dec(m.minFee, payload)
         case None => None
         case Some(coin) => Some(m.(minFee := coin)))
      else
        (match DecTx(c, NO_TX, payload)
         case None => None
         case Some(tx) => Some(m.(txPriorityFee := m.txPriorityFee + [tx])))
    case Unknown => Some(m)
  }

  function FoldItem(c: CoinCodec, m: CoinItem, fs: seq<Field>): Option<CoinItem>
    decreases |fs|
  {
    if fs == [] then Some(m)
    else
      match ApplyItem(c, m, fs[0])
      case None => None
      case Some(m') => FoldItem(c, m', fs[1..])
  }

  function DecItem(c: CoinCodec, m: CoinItem, s: bytes): Option<CoinItem> {
    match Fields(ITEM_SCHEMA, s)
    case None => None
    case Some(fs) => FoldItem(c, m, fs)
  }

  function ApplyFee(c: CoinCodec, m: ChannelFee, f: Field): Option<ChannelFee> {
    match f
    case Num(_, value) => Some(m.(minTimeoutTimestamp := ToInt64(value)))
    case Chunk(num, payload) =>
      if num == 1 then Some(m.(channel := payload))
      else if num == 3 then Some(m.(feeAddress := payload))
      else
        (match DecItem(c, NO_ITEM, payload)
         case None => None
         case Some(item) => Some(m.(allowedTokens := m.allowedTokens + [item])))
    case Unknown => Some(m)
  }

  function FoldFee(c: CoinCodec, m: ChannelFee, fs: seq<Field>): Option<ChannelFee>
    decreases |fs|
  {
    if fs == [] then Some(m)
    else
      match ApplyFee(c, m, fs[0])
      case None => None
      case Some(m') => FoldFee(c, m', fs[1..])
  }

  function DecFee(c: CoinCodec, m: ChannelFee, s: bytes): Option<ChannelFee> {
    match Fields(FEE_SCHEMA, s)
    case None => None
    case Some(fs) => FoldFee(c, m, fs)
  }

  function ApplyParams(c: CoinCodec, m: Params, f: Field): Option<Params> {
    match f
    case Chunk(_, payload) =>
      (match DecFee(c, NO_FEE, payload)
       case None => None
       case Some(fee) => Some(Params(m.channelFees + [fee])))
    case _ => Some(m)
  }

  function FoldParams(c: CoinCodec, m: Params, fs: seq<Field>): Option<Params>
    decreases |fs|
  {
    if fs == [] then Some(m)
    else
      match ApplyParams(c, m, fs[0])
      case None => None
      case Some(m') => FoldParams(c, m', fs[1..])
  }

  function DecParams(c: CoinCodec, m: Params, s: bytes): Option<Params> {
    match Fields(PARAMS_SCHEMA, s)
    case None => None
    case Some(fs) => FoldParams(c, m, fs)
  }
}
