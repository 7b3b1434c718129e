/** Encoding and decoding of event arguments of static types. */
module Abi {
  import opened Base
  import opened Words

  /** `bits` is the declared width; the decoder checks no width above 64 bits, and none of these is below 24. */
  datatype Type = AddressType | UintType(bits: nat) | IntType(bits: nat)

  /** The inputs of an event in declaration order. */
  datatype Inputs = End | Arg(ty: Type, indexed: bool, rest: Inputs)

  datatype Val = Addr(bytes: seq<byte>) | Num(value: int)

  /** The values of a Solidity type; a number of `bits` bits is bounded by powers of 256. */
  predicate HasType(v: Val, ty: Type) {
    match ty
    case AddressType => v.Addr? && |v.bytes| == 20
    case UintType(bits) => v.Num? && bits % 8 == 0 && bits <= 256 && 0 <= v.value < Pow256(bits / 8)
    case IntType(bits) =>
      v.Num? && bits % 8 == 0 && bits <= 256 && -(Pow256(bits / 8) as int) <= 2 * v.value < Pow256(bits / 8)
  }

  function EncodeWord(v: Val, ty: Type): (word: seq<byte>)
    requires HasType(v, ty)
    ensures |word| == 32
  {
    match ty
    case AddressType => PadLeft(v.bytes)
    case UintType(_) => Bytes(v.value, 32)
    case IntType(bits) =>
      Pow256Grows(bits / 8, 32);
      SignedBytes(v.value)
  }

  /** An address is the last 20 bytes, whatever comes before them; numbers are not checked against their width. */
  function DecodeWord(word: seq<byte>, ty: Type): Val
    requires |word| == 32
  {
    match ty
    case AddressType => Addr(word[12..])
    case UintType(_) => Num(Value(word))
    case IntType(_) => Num(Signed(word))
  }

  lemma WordRoundTrip(v: Val, ty: Type)
    requires HasType(v, ty)
    ensures DecodeWord(EncodeWord(v, ty), ty) == v
  {
    hide Bytes;
    hide Value;
    match ty
    case AddressType =>
    case UintType(bits) =>
      Pow256Grows(bits / 8, 32);
      hide Pow256;
      ValueOfBytes(v.value, 32);
    case IntType(bits) =>
      Pow256Grows(bits / 8, 32);
      hide Pow256;
      SignedRoundTrip(v.value);
  }

  predicate HaveTypes(vs: seq<Val>, tys: seq<Type>) {
    |vs| == |tys| && forall i :: 0 <= i < |vs| ==> HasType(vs[i], tys[i])
  }

  /** The topics of the indexed arguments. */
  function EncodeTopics(vs: seq<Val>, tys: seq<Type>): (words: seq<seq<byte>>)
    requires HaveTypes(vs, tys)
    ensures |words| == |vs| && forall i :: 0 <= i < |words| ==> |words[i]| == 32
  {
    seq(|vs|, i requires 0 <= i < |vs| => EncodeWord(vs[i], tys[i]))
  }

  /** The data of the other arguments: their words one after the other. */
  function EncodeData(vs: seq<Val>, tys: seq<Type>): (data: seq<byte>)
    requires HaveTypes(vs, tys)
    ensures |data| == 32 * |vs|
  {
    if vs == [] then [] else EncodeWord(vs[0], tys[0]) + EncodeData(vs[1..], tys[1..])
  }

  /** The values of the first words of `data`; bytes beyond them are not looked at. */
  function DecodeData(data: seq<byte>, tys: seq<Type>): Option<seq<Val>> {
    if tys == [] then Some([])
    else if |data| < 32 then None
    else
      match DecodeData(data[32..], tys[1..])
      case Some(rest) => Some([DecodeWord(data[..32], tys[0])] + rest)
      case None => None
  }

  lemma {:induction false} DataRoundTrip(vs: seq<Val>, tys: seq<Type>)
    requires HaveTypes(vs, tys)
    ensures DecodeData(EncodeData(vs, tys), tys) == Some(vs)
  {
    hide HasType;
    hide EncodeWord;
    hide DecodeWord;
    if vs != [] {
      var data := EncodeData(vs, tys);
      DataRoundTrip(vs[1..], tys[1..]);
      WordRoundTrip(vs[0], tys[0]);
      assert data[..32] == EncodeWord(vs[0], tys[0]) && data[32..] == EncodeData(vs[1..], tys[1..]);
      assert vs == [vs[0]] + vs[1..];
    }
  }

  /** Decoding fails exactly when the data is too short; otherwise value i is read from word i. */
  lemma {:induction false} DecodeDataExact(data: seq<byte>, tys: seq<Type>)
    ensures DecodeData(data, tys).Some? <==> |data| >= 32 * |tys|
    ensures DecodeData(data, tys).Some? ==>
      && |DecodeData(data, tys).value| == |tys|
      && forall i :: 0 <= i < |tys| ==> DecodeData(data, tys).value[i] == DecodeWord(data[32 * i..32 * i + 32], tys[i])
  {
    hide DecodeWord;
    if tys != [] && |data| >= 32 {
      DecodeDataExact(data[32..], tys[1..]);
      if |data| >= 32 * |tys| {
        forall i | 0 <= i < |tys|
          ensures DecodeData(data, tys).value[i] == DecodeWord(data[32 * i..32 * i + 32], tys[i])
        {
          if i > 0 {
            assert data[32..][32 * (i - 1)..32 * (i - 1) + 32] == data[32 * i..32 * i + 32];
          }
        }
      }
    }
  }

  /** `indexedArguments`. */
  function IndexedTypes(inputs: Inputs): seq<Type> {
    match inputs
    case End => []
    case Arg(ty, indexed, rest) => if indexed then [ty] + IndexedTypes(rest) else IndexedTypes(rest)
  }

  function DataTypes(inputs: Inputs): seq<Type> {
    match inputs
    case End => []
    case Arg(ty, indexed, rest) => if indexed then DataTypes(rest) else [ty] + DataTypes(rest)
  }

  /** The values of the types used by the pool events: addresses of 20 bytes, and the usual ranges. */
  lemma TypeRanges(v: Val)
    ensures HasType(v, AddressType) <==> v.Addr? && |v.bytes| == 20
    ensures HasType(v, UintType(128)) <==> v.Num? && 0 <= v.value < 0x1_0000_0000_0000_0000_0000_0000_0000_0000
    ensures HasType(v, UintType(160)) <==>
      v.Num? && 0 <= v.value < 0x1_0000_0000_0000_0000_0000_0000_0000_0000_0000_0000
    ensures HasType(v, UintType(256)) <==>
      v.Num? && 0 <= v.value < 0x1_0000_0000_0000_0000_0000_0000_0000_0000_0000_0000_0000_0000_0000_0000_0000_0000
    ensures HasType(v, IntType(256)) <==>
      && v.Num? && v.value >= -0x8000_0000_0000_0000_0000_0000_0000_0000_0000_0000_0000_0000_0000_0000_0000_0000
      && v.value < 0x8000_0000_0000_0000_0000_0000_0000_0000_0000_0000_0000_0000_0000_0000_0000_0000
    ensures HasType(v, IntType(24)) <==> v.Num? && -8_388_608 <= v.value <= 8_388_607
  {
    Pow256Of8();
    Pow256Sum(8, 8);
    Pow256Of4();
    Pow256Sum(16, 4);
    Pow256Of32();
    hide Pow256;
  }

  lemma Pow256Of4()
    ensures Pow256(3) == 0x100_0000 && Pow256(4) == 0x1_0000_0000
  {
  }
}
