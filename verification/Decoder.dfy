/** Raw logs to hex records to typed pool events. */
module Decoder {
  import opened Base
  import opened Numerals
  import opened Words
  import opened Abi
  import opened TopicMaps
  import Hex
  import Events
  import opened Accumulators

  // ----- Raw logs and their text records

  datatype RawLog = RawLog(
    block: uint64, blockHash: seq<byte>, txHash: seq<byte>, txIndex: uint64, index: uint64, address: seq<byte>,
    topics: seq<seq<byte>>, data: seq<byte>, removed: bool)

  datatype LogRecord = LogRecord(
    chainId: uint64, block: uint64, blockHash: string, txHash: string, txIndex: uint64, index: uint64, address: string,
    topics: seq<string>, data: string, removed: bool, timestamp: uint64, ingestedAt: string)

  function TopicTexts(topics: seq<seq<byte>>): seq<string> {
    seq(|topics|, i requires 0 <= i < |topics| => Hex.Encode(topics[i]))
  }

  /** `ingestedAt` is the formatted time of ingestion. */
  function RecordOf(chainId: uint64, log: RawLog, timestamp: uint64, ingestedAt: string): LogRecord {
    LogRecord(chainId, log.block, Hex.Encode(log.blockHash), Hex.Encode(log.txHash), log.txIndex, log.index,
              Hex.Encode(log.address), TopicTexts(log.topics), Hex.Encode(log.data), log.removed, timestamp, ingestedAt)
  }

  method BuildLogRecord(chainId: uint64, log: RawLog, timestamp: uint64, ingestedAt: string) returns (r: LogRecord)
    ensures r == RecordOf(chainId, log, timestamp, ingestedAt)
  {
    hide Hex.Encode;
    var topics: seq<string> := [];
    for i := 0 to |log.topics|
      invariant topics == TopicTexts(log.topics[..i])
    {
      topics := topics + [Hex.Encode(log.topics[i])];
    }
    assert log.topics[..|log.topics|] == log.topics;
    r := LogRecord(chainId, log.block, Hex.Encode(log.blockHash), Hex.Encode(log.txHash), log.txIndex, log.index,
                   Hex.Encode(log.address), topics, Hex.Encode(log.data), log.removed, timestamp, ingestedAt);
  }

  /** Every field of a log can be read back from its record. */
  lemma RecordRoundTrip(chainId: uint64, log: RawLog, timestamp: uint64, ingestedAt: string)
    requires forall i :: 0 <= i < |log.topics| ==> |log.topics[i]| == 32
    ensures var r := RecordOf(chainId, log, timestamp, ingestedAt);
      && r.chainId == chainId && r.timestamp == timestamp && r.ingestedAt == ingestedAt
      && r.block == log.block && r.txIndex == log.txIndex && r.index == log.index && r.removed == log.removed
      && Hex.Decode(r.blockHash) == Some(log.blockHash) && Hex.Decode(r.txHash) == Some(log.txHash)
      && Hex.Decode(r.address) == Some(log.address) && Hex.Decode(r.data) == Some(log.data)
      && TopicHashes(r.topics) == Some(log.topics)
  {
    hide Hex.Encode;
    hide Hex.Decode;
    hide TopicHashes;
    Hex.RoundTrip(log.blockHash);
    Hex.RoundTrip(log.txHash);
    Hex.RoundTrip(log.address);
    Hex.RoundTrip(log.data);
    TopicsRoundTrip(log.topics);
  }

  /** The 32-byte words of the topics, or None if one is not hex or too long; short ones are padded. */
  function TopicHashes(topics: seq<string>): (r: Option<seq<seq<byte>>>)
    ensures r.Some? ==> |r.value| == |topics| && forall i :: 0 <= i < |topics| ==> |r.value[i]| == 32
  {
    if topics == [] then Some([])
    else
      match (TopicHashes(topics[..|topics| - 1]), Hex.Decode(topics[|topics| - 1]))
      case (Some(rest), Some(bs)) => if |bs| > 32 then None else Some(rest + [PadLeft(bs)])
      case _ => None
  }

  lemma {:induction false} TopicHashesFail(topics: seq<string>, i: nat)
    requires i <= |topics| && TopicHashes(topics[..i]).None?
    ensures TopicHashes(topics).None?
  {
    if i < |topics| {
      assert topics[..|topics| - 1][..i] == topics[..i];
      TopicHashesFail(topics[..|topics| - 1], i);
    } else {
      assert topics[..i] == topics;
    }
  }

  method ParseTopicHashes(topics: seq<string>) returns (r: Option<seq<seq<byte>>>)
    ensures r == TopicHashes(topics)
  {
    hide Hex.Decode;
    var out: seq<seq<byte>> := [];
    for i := 0 to |topics|
      invariant TopicHashes(topics[..i]) == Some(out)
    {
      assert topics[..i + 1][..i] == topics[..i];
      var data := Hex.Decode(topics[i]);
      if data.None? || |data.value| > 32 {
        TopicHashesFail(topics, i + 1);
        return None;
      }
      out := out + [PadLeft(data.value)];
    }
    assert topics[..|topics|] == topics;
    r := Some(out);
  }

  lemma {:induction false} TopicsRoundTrip(words: seq<seq<byte>>)
    requires forall i :: 0 <= i < |words| ==> |words[i]| == 32
    ensures TopicHashes(TopicTexts(words)) == Some(words)
  {
    hide Hex.Encode;
    hide Hex.Decode;
    if words != [] {
      var init, last := words[..|words| - 1], words[|words| - 1];
      TopicsRoundTrip(init);
      Hex.RoundTrip(last);
      var texts := TopicTexts(words);
      assert texts[..|texts| - 1] == TopicTexts(init) && texts[|texts| - 1] == Hex.Encode(last);
      assert words == init + [last];
    }
  }

  // ----- Argument decoding

  /** The indexed and the other values of an event, or None where the Go code returns an error. */
  function DecodeArgs(inputs: Inputs, r: LogRecord): (args: Option<(seq<Val>, seq<Val>)>)
    ensures args.Some? ==> |args.value.0| == |IndexedTypes(inputs)|
  {
    var tys := IndexedTypes(inputs);
    if |r.topics| != |tys| + 1 then None
    else
      match (TopicHashes(r.topics[1..]), Hex.Decode(r.data))
      case (Some(words), Some(data)) =>
        (match DecodeData(data, DataTypes(inputs))
         case Some(vs) => Some((seq(|tys|, i requires 0 <= i < |tys| => DecodeWord(words[i], tys[i])), vs))
         case None => None)
      case _ => None
  }

  /** Any well-typed values survive encoding, hex printing, hex reading and decoding. */
  lemma ArgsRoundTrip(inputs: Inputs, indexed: seq<Val>, others: seq<Val>, topic0: seq<byte>, r: LogRecord)
    requires HaveTypes(indexed, IndexedTypes(inputs)) && HaveTypes(others, DataTypes(inputs))
    requires r.topics == TopicTexts([topic0] + EncodeTopics(indexed, IndexedTypes(inputs)))
    requires r.data == Hex.Encode(EncodeData(others, DataTypes(inputs)))
    ensures DecodeArgs(inputs, r) == Some((indexed, others))
  {
    hide Hex.Encode;
    hide Hex.Decode;
    hide HasType;
    hide EncodeWord;
    hide DecodeWord;
    hide TopicHashes;
    hide EncodeData;
    hide DecodeData;
    hide IndexedTypes;
    hide DataTypes;
    var tys := IndexedTypes(inputs);
    var words := EncodeTopics(indexed, tys);
    assert r.topics[1..] == TopicTexts(words);
    TopicsRoundTrip(words);
    Hex.RoundTrip(EncodeData(others, DataTypes(inputs)));
    DataRoundTrip(others, DataTypes(inputs));
    forall i | 0 <= i < |tys|
      ensures DecodeWord(words[i], tys[i]) == indexed[i]
    {
      WordRoundTrip(indexed[i], tys[i]);
    }
    assert seq(|tys|, i requires 0 <= i < |tys| => DecodeWord(words[i], tys[i])) == indexed;
  }

  // ----- The pool events

  datatype PoolEvent =
    | Swap(sender: seq<byte>, recipient: seq<byte>, amount0: int, amount1: int,
           sqrtPriceX96: int, liquidity: int, tick: int)
    | Mint(sender: seq<byte>, owner: seq<byte>, tickLower: int, tickUpper: int, amount: int, amount0: int, amount1: int)
    | Burn(owner: seq<byte>, tickLower: int, tickUpper: int, amount: int, amount0: int, amount1: int)
    | Collect(owner: seq<byte>, recipient: seq<byte>, tickLower: int, tickUpper: int, amount0: int, amount1: int)

  /** The decoded payloads: addresses as hex text, amounts as decimal text. */
  datatype Payload =
    | SwapData(sender: string, recipient: string, amount0: string, amount1: string,
               sqrtPriceX96: string, liquidity: string, tick: int)
    | MintData(sender: string, owner: string, tickLower: int, tickUpper: int,
               amount: string, amount0: string, amount1: string)
    | BurnData(owner: string, tickLower: int, tickUpper: int, amount: string, amount0: string, amount1: string)
    | CollectData(owner: string, recipient: string, tickLower: int, tickUpper: int, amount0: string, amount1: string)

  function SwapInputs(): Inputs {
    Arg(AddressType, true, Arg(AddressType, true, Arg(IntType(256), false, Arg(IntType(256), false,
    Arg(UintType(160), false, Arg(UintType(128), false, Arg(IntType(24), false, End)))))))
  }

  function MintInputs(): Inputs {
    Arg(AddressType, false, Arg(AddressType, true, Arg(IntType(24), true, Arg(IntType(24), true,
    Arg(UintType(128), false, Arg(UintType(256), false, Arg(UintType(256), false, End)))))))
  }

  function BurnInputs(): Inputs {
    Arg(AddressType, true, Arg(IntType(24), true, Arg(IntType(24), true, Arg(UintType(128), false,
    Arg(UintType(256), false, Arg(UintType(256), false, End))))))
  }

  function CollectInputs(): Inputs {
    Arg(AddressType, true, Arg(AddressType, false, Arg(IntType(24), true, Arg(IntType(24), true,
    Arg(UintType(128), false, Arg(UintType(128), false, End))))))
  }

  function InputsOf(e: PoolEvent): Inputs {
    match e
    case Swap(_, _, _, _, _, _, _) => SwapInputs()
    case Mint(_, _, _, _, _, _, _) => MintInputs()
    case Burn(_, _, _, _, _, _) => BurnInputs()
    case Collect(_, _, _, _, _, _) => CollectInputs()
  }

  function IndexedVals(e: PoolEvent): seq<Val> {
    match e
    case Swap(sender, recipient, _, _, _, _, _) => [Addr(sender), Addr(recipient)]
    case Mint(_, owner, lower, upper, _, _, _) => [Addr(owner), Num(lower), Num(upper)]
    case Burn(owner, lower, upper, _, _, _) => [Addr(owner), Num(lower), Num(upper)]
    case Collect(owner, _, lower, upper, _, _) => [Addr(owner), Num(lower), Num(upper)]
  }

  function DataVals(e: PoolEvent): seq<Val> {
    match e
    case Swap(_, _, amount0, amount1, price, liquidity, tick) =>
      [Num(amount0), Num(amount1), Num(price), Num(liquidity), Num(tick)]
    case Mint(sender, _, _, _, amount, amount0, amount1) => [Addr(sender), Num(amount), Num(amount0), Num(amount1)]
    case Burn(_, _, _, amount, amount0, amount1) => [Num(amount), Num(amount0), Num(amount1)]
    case Collect(_, recipient, _, _, amount0, amount1) => [Addr(recipient), Num(amount0), Num(amount1)]
  }

  predicate WellTyped(e: PoolEvent) {
    HaveTypes(IndexedVals(e), IndexedTypes(InputsOf(e))) && HaveTypes(DataVals(e), DataTypes(InputsOf(e)))
  }

  predicate IsUint256(x: int) {
    0 <= x < 0x1_0000_0000_0000_0000_0000_0000_0000_0000_0000_0000_0000_0000_0000_0000_0000_0000
  }

  predicate IsUint128(x: int) {
    0 <= x < 0x1_0000_0000_0000_0000_0000_0000_0000_0000
  }

  predicate IsInt256(x: int) {
    && x >= -0x8000_0000_0000_0000_0000_0000_0000_0000_0000_0000_0000_0000_0000_0000_0000_0000
    && x < 0x8000_0000_0000_0000_0000_0000_0000_0000_0000_0000_0000_0000_0000_0000_0000_0000
  }

  predicate IsInt24(x: int) {
    -8_388_608 <= x <= 8_388_607
  }

  lemma HaveUpTo5(vs: seq<Val>, tys: seq<Type>)
    requires |vs| == |tys| && 2 <= |vs| <= 5
    ensures HaveTypes(vs, tys) <==>
      && HasType(vs[0], tys[0]) && HasType(vs[1], tys[1])
      && (|vs| > 2 ==> HasType(vs[2], tys[2])) && (|vs| > 3 ==> HasType(vs[3], tys[3]))
      && (|vs| > 4 ==> HasType(vs[4], tys[4]))
  {
    hide HasType;
  }

  /** Well-typed events, field by field. */
  lemma WellTypedExact(e: PoolEvent)
    ensures e.Swap? ==>
      (WellTyped(e) <==>
         && |e.sender| == 20 && |e.recipient| == 20 && IsInt256(e.amount0) && IsInt256(e.amount1)
         && 0 <= e.sqrtPriceX96 < 0x1_0000_0000_0000_0000_0000_0000_0000_0000_0000_0000
         && IsUint128(e.liquidity) && IsInt24(e.tick))
    ensures e.Mint? ==>
      (WellTyped(e) <==>
         && |e.sender| == 20 && |e.owner| == 20 && IsInt24(e.tickLower) && IsInt24(e.tickUpper)
         && IsUint128(e.amount) && IsUint256(e.amount0) && IsUint256(e.amount1))
    ensures e.Burn? ==>
      (WellTyped(e) <==>
         && |e.owner| == 20 && IsInt24(e.tickLower) && IsInt24(e.tickUpper)
         && IsUint128(e.amount) && IsUint256(e.amount0) && IsUint256(e.amount1))
    ensures e.Collect? ==>
      (WellTyped(e) <==>
         && |e.owner| == 20 && |e.recipient| == 20 && IsInt24(e.tickLower) && IsInt24(e.tickUpper)
         && IsUint128(e.amount0) && IsUint128(e.amount1))
  {
    hide HasType;
    TypesOfInputs();
    hide SwapInputs;
    hide MintInputs;
    hide BurnInputs;
    hide CollectInputs;
    hide IndexedTypes;
    hide DataTypes;
    var i, d := IndexedVals(e), DataVals(e);
    forall n | 0 <= n < |i|
      ensures HasType(i[n], AddressType) <==> i[n].Addr? && |i[n].bytes| == 20
      ensures HasType(i[n], IntType(24)) <==> i[n].Num? && IsInt24(i[n].value)
    {
      TypeRanges(i[n]);
    }
    forall n | 0 <= n < |d|
      ensures HasType(d[n], AddressType) <==> d[n].Addr? && |d[n].bytes| == 20
      ensures HasType(d[n], IntType(256)) <==> d[n].Num? && IsInt256(d[n].value)
      ensures HasType(d[n], IntType(24)) <==> d[n].Num? && IsInt24(d[n].value)
      ensures HasType(d[n], UintType(128)) <==> d[n].Num? && IsUint128(d[n].value)
      ensures HasType(d[n], UintType(256)) <==> d[n].Num? && IsUint256(d[n].value)
      ensures HasType(d[n], UintType(160)) <==>
        d[n].Num? && 0 <= d[n].value < 0x1_0000_0000_0000_0000_0000_0000_0000_0000_0000_0000
    {
      TypeRanges(d[n]);
    }
    hide IsInt256;
    hide IsUint256;
    hide IsUint128;
    hide IsInt24;
    var tys, others := IndexedTypes(InputsOf(e)), DataTypes(InputsOf(e));
    HaveUpTo5(i, tys);
    HaveUpTo5(d, others);
  }

  /** The log a contract emits for the event; `base` gives the place of the log and the contract. */
  function EmittedLog(e: PoolEvent, topic0: seq<byte>, base: RawLog): RawLog
    requires WellTyped(e)
  {
    base.(topics := [topic0] + EncodeTopics(IndexedVals(e), IndexedTypes(InputsOf(e))),
          data := EncodeData(DataVals(e), DataTypes(InputsOf(e))))
  }

  function AsAddress(v: Val): Option<seq<byte>> {
    match v case Addr(bs) => Some(bs) case Num(_) => None
  }

  function AsBigInt(v: Val): Option<int> {
    match v case Num(x) => Some(x) case Addr(_) => None
  }

  const INT24_MIN: int := -0x80_0000
  const INT24_MAX: int := 0x7f_ffff

  function Int24FromBig(x: int): Option<int> {
    if x < INT24_MIN || x > INT24_MAX then None else Some(x)
  }

  function AsTick(v: Val): Option<int> {
    match AsBigInt(v) case Some(x) => Int24FromBig(x) case None => None
  }

  function DecodeSwap(r: LogRecord): Option<Payload> {
    match DecodeArgs(SwapInputs(), r)
    case None => None
    case Some((i, d)) =>
      if |i| != 2 || |d| != 5 then None
      else
        match (AsAddress(i[0]), AsAddress(i[1]), AsBigInt(d[0]), AsBigInt(d[1]),
               AsBigInt(d[2]), AsBigInt(d[3]), AsTick(d[4]))
        case (Some(sender), Some(recipient), Some(amount0), Some(amount1), Some(price), Some(liquidity), Some(tick)) =>
          Some(SwapData(Hex.Encode(sender), Hex.Encode(recipient), PrintInt(amount0), PrintInt(amount1),
                        PrintInt(price), PrintInt(liquidity), tick))
        case _ => None
  }

  function DecodeMint(r: LogRecord): Option<Payload> {
    match DecodeArgs(MintInputs(), r)
    case None => None
    case Some((i, d)) =>
      if |i| != 3 || |d| != 4 then None
      else
        match (AsAddress(d[0]), AsAddress(i[0]), AsTick(i[1]), AsTick(i[2]),
               AsBigInt(d[1]), AsBigInt(d[2]), AsBigInt(d[3]))
        case (Some(sender), Some(owner), Some(lower), Some(upper), Some(amount), Some(amount0), Some(amount1)) =>
          Some(MintData(Hex.Encode(sender), Hex.Encode(owner), lower, upper,
                        PrintInt(amount), PrintInt(amount0), PrintInt(amount1)))
        case _ => None
  }

  function DecodeBurn(r: LogRecord): Option<Payload> {
    match DecodeArgs(BurnInputs(), r)
    case None => None
    case Some((i, d)) =>
      if |i| != 3 || |d| != 3 then None
      else
        match (AsAddress(i[0]), AsTick(i[1]), AsTick(i[2]), AsBigInt(d[0]), AsBigInt(d[1]), AsBigInt(d[2]))
        case (Some(owner), Some(lower), Some(upper), Some(amount), Some(amount0), Some(amount1)) =>
          Some(BurnData(Hex.Encode(owner), lower, upper, PrintInt(amount), PrintInt(amount0), PrintInt(amount1)))
        case _ => None
  }

  function DecodeCollect(r: LogRecord): Option<Payload> {
    match DecodeArgs(CollectInputs(), r)
    case None => None
    case Some((i, d)) =>
      if |i| != 3 || |d| != 3 then None
      else
        match (AsAddress(i[0]), AsAddress(d[0]), AsTick(i[1]), AsTick(i[2]), AsBigInt(d[1]), AsBigInt(d[2]))
        case (Some(owner), Some(recipient), Some(lower), Some(upper), Some(amount0), Some(amount1)) =>
          Some(CollectData(Hex.Encode(owner), Hex.Encode(recipient), lower, upper,
                           PrintInt(amount0), PrintInt(amount1)))
        case _ => None
  }

  /** The payload that shows every field of the event. */
  function Shown(e: PoolEvent): Payload {
    match e
    case Swap(sender, recipient, amount0, amount1, price, liquidity, tick) =>
      SwapData(Hex.Encode(sender), Hex.Encode(recipient), PrintInt(amount0), PrintInt(amount1),
               PrintInt(price), PrintInt(liquidity), tick)
    case Mint(sender, owner, lower, upper, amount, amount0, amount1) =>
      MintData(Hex.Encode(sender), Hex.Encode(owner), lower, upper,
               PrintInt(amount), PrintInt(amount0), PrintInt(amount1))
    case Burn(owner, lower, upper, amount, amount0, amount1) =>
      BurnData(Hex.Encode(owner), lower, upper, PrintInt(amount), PrintInt(amount0), PrintInt(amount1))
    case Collect(owner, recipient, lower, upper, amount0, amount1) =>
      CollectData(Hex.Encode(owner), Hex.Encode(recipient), lower, upper, PrintInt(amount0), PrintInt(amount1))
  }

  function DecodeAs(e: PoolEvent, r: LogRecord): Option<Payload> {
    match e
    case Swap(_, _, _, _, _, _, _) => DecodeSwap(r)
    case Mint(_, _, _, _, _, _, _) => DecodeMint(r)
    case Burn(_, _, _, _, _, _) => DecodeBurn(r)
    case Collect(_, _, _, _, _, _) => DecodeCollect(r)
  }

  lemma TypesOfInputs()
    ensures IndexedTypes(SwapInputs()) == [AddressType, AddressType]
    ensures DataTypes(SwapInputs()) == [IntType(256), IntType(256), UintType(160), UintType(128), IntType(24)]
    ensures IndexedTypes(MintInputs()) == IndexedTypes(BurnInputs()) == IndexedTypes(CollectInputs())
         == [AddressType, IntType(24), IntType(24)]
    ensures DataTypes(MintInputs()) == [AddressType, UintType(128), UintType(256), UintType(256)]
    ensures DataTypes(BurnInputs()) == [UintType(128), UintType(256), UintType(256)]
    ensures DataTypes(CollectInputs()) == [AddressType, UintType(128), UintType(128)]
  {
  }

  lemma TickFits(v: Val)
    ensures HasType(v, IntType(24)) <==> v.Num? && -8_388_608 <= v.value <= 8_388_607
  {
    assert Pow256(3) == 256 * Pow256(2) && Pow256(2) == 256 * Pow256(1) && Pow256(1) == 256 * Pow256(0);
  }

  /**
   * Round trip: every well-typed Swap, Mint, Burn or Collect, emitted as a log, written as a hex record and
   * decoded by its decode function, shows every field unchanged.
   */
  lemma LogRoundTrip(
    e: PoolEvent, topic0: seq<byte>, base: RawLog, chainId: uint64, timestamp: uint64, ingestedAt: string)
    requires WellTyped(e)
    ensures DecodeAs(e, RecordOf(chainId, EmittedLog(e, topic0, base), timestamp, ingestedAt)) == Some(Shown(e))
  {
    hide Hex.Encode;
    hide EncodeData;
    hide EncodeTopics;
    hide HasType;
    hide DecodeArgs;
    hide IndexedTypes;
    hide DataTypes;
    TypesOfInputs();
    var r := RecordOf(chainId, EmittedLog(e, topic0, base), timestamp, ingestedAt);
    ArgsRoundTrip(InputsOf(e), IndexedVals(e), DataVals(e), topic0, r);
    TicksFit(e);
  }

  lemma TicksFit(e: PoolEvent)
    requires WellTyped(e)
    ensures e.Swap? ==> INT24_MIN <= e.tick <= INT24_MAX
    ensures !e.Swap? ==> INT24_MIN <= e.tickLower <= INT24_MAX && INT24_MIN <= e.tickUpper <= INT24_MAX
  {
    hide HasType;
    TypesOfInputs();
    if e.Swap? {
      TickFits(DataVals(e)[4]);
    } else {
      TickFits(IndexedVals(e)[1]);
      TickFits(IndexedVals(e)[2]);
    }
  }

  /** What DecodeArgs makes of a raw log whose topics are whole words. */
  lemma ArgsOfWords(inputs: Inputs, chainId: uint64, log: RawLog, timestamp: uint64, ingestedAt: string)
    requires forall i :: 1 <= i < |log.topics| ==> |log.topics[i]| == 32
    ensures var args := DecodeArgs(inputs, RecordOf(chainId, log, timestamp, ingestedAt));
      var tys, others := IndexedTypes(inputs), DataTypes(inputs);
      && (args.Some? <==> |log.topics| == |tys| + 1 && |log.data| >= 32 * |others|)
      && (args.Some? ==>
            && |args.value.0| == |tys| && |args.value.1| == |others|
            && (forall i :: 0 <= i < |tys| ==> args.value.0[i] == DecodeWord(log.topics[i + 1], tys[i]))
            && forall i :: 0 <= i < |others| ==>
                 args.value.1[i] == DecodeWord(log.data[32 * i..32 * i + 32], others[i]))
  {
    hide Hex.Encode;
    hide Hex.Decode;
    hide DecodeWord;
    hide TopicHashes;
    hide DecodeData;
    hide IndexedTypes;
    hide DataTypes;
    if |log.topics| == |IndexedTypes(inputs)| + 1 {
      var words := log.topics[1..];
      var r := RecordOf(chainId, log, timestamp, ingestedAt);
      assert r.topics[1..] == TopicTexts(words);
      TopicsRoundTrip(words);
      Hex.RoundTrip(log.data);
      DecodeDataExact(log.data, DataTypes(inputs));
    }
  }

  /**
   * What a Swap payload shows of any log: it decodes exactly with two more topics, five words of data and a last
   * word that is a 24-bit number; sender and recipient are the last twenty bytes of the topics, then come two
   * signed amounts, two unsigned numbers and the tick.
   */
  lemma SwapFromWords(chainId: uint64, log: RawLog, timestamp: uint64, ingestedAt: string)
    requires forall i :: 1 <= i < |log.topics| ==> |log.topics[i]| == 32
    ensures var p, ts, ws := DecodeSwap(RecordOf(chainId, log, timestamp, ingestedAt)), log.topics, log.data;
      && (p.Some? <==> |ts| == 3 && |ws| >= 160 && -8_388_608 <= Signed(ws[128..160]) <= 8_388_607)
      && (p.Some? ==> p.value == SwapData(
            Hex.Encode(ts[1][12..]), Hex.Encode(ts[2][12..]),
            PrintInt(Signed(ws[0..32])), PrintInt(Signed(ws[32..64])),
            PrintInt(Value(ws[64..96])), PrintInt(Value(ws[96..128])), Signed(ws[128..160])))
  {
    hide RecordOf;
    hide DecodeArgs;
    hide Signed;
    hide Value;
    hide Hex.Encode;
    hide PrintInt;
    TypesOfInputs();
    ArgsOfWords(SwapInputs(), chainId, log, timestamp, ingestedAt);
    hide IndexedTypes;
    hide DataTypes;
    hide SwapInputs;
  }

  /** The same for Mint: owner and ticks are topics; sender, liquidity and the two amounts are data. */
  lemma MintFromWords(chainId: uint64, log: RawLog, timestamp: uint64, ingestedAt: string)
    requires forall i :: 1 <= i < |log.topics| ==> |log.topics[i]| == 32
    ensures var p, ts, ws := DecodeMint(RecordOf(chainId, log, timestamp, ingestedAt)), log.topics, log.data;
      && (p.Some? <==>
            && |ts| == 4 && |ws| >= 128
            && -8_388_608 <= Signed(ts[2]) <= 8_388_607 && -8_388_608 <= Signed(ts[3]) <= 8_388_607)
      && (p.Some? ==> p.value == MintData(
            Hex.Encode(ws[12..32]), Hex.Encode(ts[1][12..]), Signed(ts[2]), Signed(ts[3]),
            PrintInt(Value(ws[32..64])), PrintInt(Value(ws[64..96])), PrintInt(Value(ws[96..128]))))
  {
    hide RecordOf;
    hide DecodeArgs;
    hide Signed;
    hide Value;
    hide Hex.Encode;
    hide PrintInt;
    TypesOfInputs();
    ArgsOfWords(MintInputs(), chainId, log, timestamp, ingestedAt);
    hide IndexedTypes;
    hide DataTypes;
    hide MintInputs;
    if |log.data| >= 128 {
      assert log.data[0..32][12..] == log.data[12..32];
    }
  }

  /** Burn: owner and ticks are topics; liquidity and the two amounts are data. */
  lemma BurnFromWords(chainId: uint64, log: RawLog, timestamp: uint64, ingestedAt: string)
    requires forall i :: 1 <= i < |log.topics| ==> |log.topics[i]| == 32
    ensures var p, ts, ws := DecodeBurn(RecordOf(chainId, log, timestamp, ingestedAt)), log.topics, log.data;
      && (p.Some? <==>
            && |ts| == 4 && |ws| >= 96
            && -8_388_608 <= Signed(ts[2]) <= 8_388_607 && -8_388_608 <= Signed(ts[3]) <= 8_388_607)
      && (p.Some? ==> p.value == BurnData(
            Hex.Encode(ts[1][12..]), Signed(ts[2]), Signed(ts[3]),
            PrintInt(Value(ws[0..32])), PrintInt(Value(ws[32..64])), PrintInt(Value(ws[64..96]))))
  {
    hide RecordOf;
    hide DecodeArgs;
    hide Signed;
    hide Value;
    hide Hex.Encode;
    hide PrintInt;
    TypesOfInputs();
    ArgsOfWords(BurnInputs(), chainId, log, timestamp, ingestedAt);
    hide IndexedTypes;
    hide DataTypes;
    hide BurnInputs;
  }

  /** Collect: owner and ticks are topics; recipient and the two amounts are data. */
  lemma CollectFromWords(chainId: uint64, log: RawLog, timestamp: uint64, ingestedAt: string)
    requires forall i :: 1 <= i < |log.topics| ==> |log.topics[i]| == 32
    ensures var p, ts, ws := DecodeCollect(RecordOf(chainId, log, timestamp, ingestedAt)), log.topics, log.data;
      && (p.Some? <==>
            && |ts| == 4 && |ws| >= 96
            && -8_388_608 <= Signed(ts[2]) <= 8_388_607 && -8_388_608 <= Signed(ts[3]) <= 8_388_607)
      && (p.Some? ==> p.value == CollectData(
            Hex.Encode(ts[1][12..]), Hex.Encode(ws[12..32]), Signed(ts[2]), Signed(ts[3]),
            PrintInt(Value(ws[32..64])), PrintInt(Value(ws[64..96]))))
  {
    hide RecordOf;
    hide DecodeArgs;
    hide Signed;
    hide Value;
    hide Hex.Encode;
    hide PrintInt;
    TypesOfInputs();
    ArgsOfWords(CollectInputs(), chainId, log, timestamp, ingestedAt);
    hide IndexedTypes;
    hide DataTypes;
    hide CollectInputs;
    if |log.data| >= 96 {
      assert log.data[0..32][12..] == log.data[12..32];
    }
  }

  // ----- Choosing the decode function by topic0

  function DecodeByName(name: EventName, r: LogRecord): Option<Payload> {
    match name
    case SwapName => DecodeSwap(r)
    case MintName => DecodeMint(r)
    case BurnName => DecodeBurn(r)
    case CollectName => DecodeCollect(r)
  }

  function NameOf(e: PoolEvent): EventName {
    match e
    case Swap(_, _, _, _, _, _, _) => SwapName
    case Mint(_, _, _, _, _, _, _) => MintName
    case Burn(_, _, _, _, _, _) => BurnName
    case Collect(_, _, _, _, _, _) => CollectName
  }

  /** `Decode`, with the pool metadata left to the caller. */
  function Decode(topics: map<string, EventName>, r: LogRecord): Option<(EventName, Payload)> {
    if r.topics == [] || ToLower(r.topics[0]) !in topics || !Hex.IsHexAddress(r.address) then None
    else
      var name := topics[ToLower(r.topics[0])];
      match DecodeByName(name, r)
      case Some(payload) => Some((name, payload))
      case None => None
  }

  /** The round trip through the dispatch: a log whose topic0 is registered for its event decodes to that event. */
  lemma DispatchRoundTrip(
    topics: map<string, EventName>, e: PoolEvent, topic0: seq<byte>, base: RawLog,
    chainId: uint64, timestamp: uint64, ingestedAt: string)
    requires WellTyped(e) && |base.address| == 20
    requires ToLower(Hex.Encode(topic0)) in topics && topics[ToLower(Hex.Encode(topic0))] == NameOf(e)
    ensures Decode(topics, RecordOf(chainId, EmittedLog(e, topic0, base), timestamp, ingestedAt))
         == Some((NameOf(e), Shown(e)))
  {
    hide Hex.Encode;
    hide EncodeData;
    hide DecodeSwap;
    hide DecodeMint;
    hide DecodeBurn;
    hide DecodeCollect;
    hide Shown;
    hide WellTyped;
    Hex.EncodedAddress(base.address);
    LogRoundTrip(e, topic0, base, chainId, timestamp, ingestedAt);
    assert RecordOf(chainId, EmittedLog(e, topic0, base), timestamp, ingestedAt).topics[0] == Hex.Encode(topic0);
  }

  /** A log is decoded only with a topic of the map, an address of twenty bytes, and the fields of its event. */
  lemma DispatchExact(topics: map<string, EventName>, r: LogRecord)
    ensures Decode(topics, r).Some? ==>
      && r.topics != [] && ToLower(r.topics[0]) in topics && Hex.IsHexAddress(r.address)
      && var (name, payload) := Decode(topics, r).value;
         && name == topics[ToLower(r.topics[0])]
         && (name == SwapName ==> DecodeSwap(r) == Some(payload) && payload.SwapData?)
         && (name == MintName ==> DecodeMint(r) == Some(payload) && payload.MintData?)
         && (name == BurnName ==> DecodeBurn(r) == Some(payload) && payload.BurnData?)
         && (name == CollectName ==> DecodeCollect(r) == Some(payload) && payload.CollectData?)
  {
    hide DecodeArgs;
    hide Hex.Encode;
    hide ToLower;
    hide Hex.IsHexAddress;
  }

  /** The texts of different bytes differ in more than letter case. */
  lemma DifferentTexts(a: seq<Hex.byte>, b: seq<Hex.byte>)
    requires a != b
    ensures ToLower(Hex.Encode(a)) != ToLower(Hex.Encode(b))
  {
    hide ToLower;
    hide Hex.Encode;
    Hex.RoundTrip(a);
    Hex.RoundTrip(b);
    if ToLower(Hex.Encode(a)) == ToLower(Hex.Encode(b)) {
      Hex.DecodeIgnoresCase(Hex.Encode(a), Hex.Encode(b));
    }
  }

  /**
   * Without configured topics: every well-typed event, emitted with the id of its own kind as topic0, recorded and
   * dispatched, comes back under its own name with all its fields, if the four ids differ.
   */
  lemma BuiltInRoundTrip(
    swapId: seq<Hex.byte>, mintId: seq<Hex.byte>, burnId: seq<Hex.byte>, collectId: seq<Hex.byte>,
    e: PoolEvent, base: RawLog, chainId: uint64, timestamp: uint64, ingestedAt: string)
    requires swapId != mintId && swapId != burnId && swapId != collectId
    requires mintId != burnId && mintId != collectId && burnId != collectId
    requires WellTyped(e) && |base.address| == 20
    ensures var ids := Ids(Hex.Encode(swapId), Hex.Encode(mintId), Hex.Encode(burnId), Hex.Encode(collectId));
      var topic0 := if e.Swap? then swapId else if e.Mint? then mintId else if e.Burn? then burnId else collectId;
      var name :=
        if e.Swap? then SwapName else if e.Mint? then MintName else if e.Burn? then BurnName else CollectName;
      && TopicMap(ids, []).Some?
      && Decode(TopicMap(ids, []).value, RecordOf(chainId, EmittedLog(e, topic0, base), timestamp, ingestedAt))
           == Some((name, Shown(e)))
  {
    hide Hex.Encode;
    hide ToLower;
    hide Decode;
    hide EmittedLog;
    hide RecordOf;
    hide Shown;
    hide WellTyped;
    hide TopicMap;
    DifferentTexts(swapId, mintId);
    DifferentTexts(swapId, burnId);
    DifferentTexts(swapId, collectId);
    DifferentTexts(mintId, burnId);
    DifferentTexts(mintId, collectId);
    DifferentTexts(burnId, collectId);
    BuiltInTopics(Hex.Encode(swapId), Hex.Encode(mintId), Hex.Encode(burnId), Hex.Encode(collectId));
    var ids := Ids(Hex.Encode(swapId), Hex.Encode(mintId), Hex.Encode(burnId), Hex.Encode(collectId));
    var topic0 := if e.Swap? then swapId else if e.Mint? then mintId else if e.Burn? then burnId else collectId;
    DispatchRoundTrip(TopicMap(ids, []).value, e, topic0, base, chainId, timestamp, ingestedAt);
  }

  // ----- What the aggregator reads

  function NameText(name: EventName): string {
    match name
    case SwapName => "Swap"
    case MintName => "Mint"
    case BurnName => "Burn"
    case CollectName => "Collect"
  }

  /**
   * `buildTypedEvent`, as its JSON is read by the aggregator: every payload has the two amount fields, so each of
   * them unmarshals as swap data.
   */
  function TypedEvent(r: LogRecord, name: EventName, payload: Payload, meta: Events.PoolMeta): Events.Record {
    Events.Record(r.chainId, r.address, r.block, r.timestamp, NameText(name),
                  Some(Events.SwapAmounts(payload.amount0, payload.amount1)), meta)
  }

  lemma NameTexts()
    ensures ToLower("Swap") == "swap" && ToLower("Mint") == "mint"
    ensures ToLower("Burn") == "burn" && ToLower("Collect") == "collect"
  {
    LowerText("Swap", "swap");
    LowerText("Mint", "mint");
    LowerText("Burn", "burn");
    LowerText("Collect", "collect");
  }

  /**
   * From the chain to the sums: a well-typed event, emitted with a registered topic0, recorded, dispatched and
   * read by the aggregator, keeps its chain, block, time, address and pool metadata; a swap is a trade of the
   * emitted amounts, and a Mint, Burn or Collect is none and moves no sum, although its payload has amounts too.
   */
  lemma EventReachesAggregator(
    topics: map<string, EventName>, e: PoolEvent, topic0: seq<byte>, base: RawLog,
    chainId: uint64, timestamp: uint64, ingestedAt: string, meta: Events.PoolMeta, a: Acc)
    requires WellTyped(e) && |base.address| == 20
    requires ToLower(Hex.Encode(topic0)) in topics && topics[ToLower(Hex.Encode(topic0))] == NameOf(e)
    ensures var r := RecordOf(chainId, EmittedLog(e, topic0, base), timestamp, ingestedAt);
      var d := Decode(topics, r);
      && d.Some?
      && var read := TypedEvent(r, d.value.0, d.value.1, meta);
         && read.chainId == chainId && read.block == base.block && read.timestamp == timestamp && read.meta == meta
         && Hex.Decode(read.address) == Some(base.address)
         && (e.Swap? ==> Events.TradeOf(read) == Events.Traded(e.amount0, e.amount1))
         && (!e.Swap? ==> !Events.TradeOf(read).Rejected? && AddEventTo(a, read).totals == a.totals)
  {
    hide Hex.Encode;
    hide Hex.Decode;
    hide ToLower;
    hide Decode;
    hide WellTyped;
    hide EncodeTopics;
    hide EncodeData;
    hide PrintInt;
    hide ParseBigInt;
    DispatchRoundTrip(topics, e, topic0, base, chainId, timestamp, ingestedAt);
    Hex.RoundTrip(base.address);
    NameTexts();
    ParsePrintedInt(e.amount0);
    ParsePrintedInt(e.amount1);
    var r := RecordOf(chainId, EmittedLog(e, topic0, base), timestamp, ingestedAt);
    EventMeans(a, TypedEvent(r, NameOf(e), Shown(e), meta));
    hide AddEventTo;
  }
}
