/** Bytes and their `0x` text. */
module Hex {
  import opened Base

  type byte = x: int | 0 <= x < 256

  function HexDigit(n: nat): (c: char)
    requires n < 16
    ensures HexValue(c) == Some(n) && c != ':'
  {
    if n < 10 then (n + '0' as int) as char else (n - 10 + 'a' as int) as char
  }

  /** Both letter cases are read. */
  function HexValue(c: char): Option<nat> {
    if '0' <= c <= '9' then Some(c as int - '0' as int)
    else if 'a' <= c <= 'f' then Some(c as int - 'a' as int + 10)
    else if 'A' <= c <= 'F' then Some(c as int - 'A' as int + 10)
    else None
  }

  function HexPairs(bs: seq<byte>): (s: string)
    ensures |s| == 2 * |bs| && ':' !in s
  {
    if bs == [] then [] else [HexDigit(bs[0] / 16), HexDigit(bs[0] % 16)] + HexPairs(bs[1..])
  }

  lemma {:induction false} PairsAreHex(bs: seq<byte>)
    ensures forall i :: 0 <= i < 2 * |bs| ==> HexValue(HexPairs(bs)[i]).Some?
  {
    if bs != [] {
      PairsAreHex(bs[1..]);
      var s, rest := HexPairs(bs), HexPairs(bs[1..]);
      assert s == [HexDigit(bs[0] / 16), HexDigit(bs[0] % 16)] + rest;
    }
  }

  /** `hexutil.Encode`, and `Hex` of a hash. */
  function Encode(bs: seq<byte>): (s: string)
    ensures ':' !in s
  {
    "0x" + HexPairs(bs)
  }

  function PairsValue(s: string): Option<seq<byte>> {
    if s == [] then Some([])
    else if |s| == 1 then None
    else
      match (HexValue(s[0]), HexValue(s[1]), PairsValue(s[2..]))
      case (Some(hi), Some(lo), Some(rest)) => if hi < 16 && lo < 16 then Some([16 * hi + lo] + rest) else None
      case _ => None
  }

  /** `hexutil.Decode`: a `0x` prefix, then an even number of hex digits. */
  function Decode(s: string): Option<seq<byte>> {
    if |s| < 2 || s[0] != '0' || (s[1] != 'x' && s[1] != 'X') then None else PairsValue(s[2..])
  }

  lemma {:induction false} PairsRoundTrip(bs: seq<byte>)
    ensures PairsValue(HexPairs(bs)) == Some(bs)
  {
    if bs != [] {
      PairsRoundTrip(bs[1..]);
      var s := HexPairs(bs);
      assert s[0] == HexDigit(bs[0] / 16) && s[1] == HexDigit(bs[0] % 16);
      assert bs == [bs[0]] + bs[1..];
      assert HexPairs(bs)[2..] == HexPairs(bs[1..]);
    }
  }

  lemma RoundTrip(bs: seq<byte>)
    ensures Decode(Encode(bs)) == Some(bs)
  {
    PairsRoundTrip(bs);
    assert Encode(bs)[2..] == HexPairs(bs);
  }

  /** `common.IsHexAddress`: 40 hex digits, with or without the prefix. */
  predicate IsHexAddress(s: string) {
    |AfterPrefix(s)| == 40 && forall i :: 0 <= i < 40 ==> HexValue(AfterPrefix(s)[i]).Some?
  }

  function AfterPrefix(s: string): string {
    if |s| >= 2 && s[0] == '0' && (s[1] == 'x' || s[1] == 'X') then s[2..] else s
  }

  lemma EncodedAddress(bs: seq<byte>)
    requires |bs| == 20
    ensures IsHexAddress(Encode(bs))
  {
    PairsAreHex(bs);
    assert Encode(bs)[2..] == HexPairs(bs);
  }

  // ----- The digits, written out

  lemma DigitTexts(n: nat)
    requires n < 16
    ensures HexDigit(n) == "0123456789abcdef"[n]
    ensures HexValue("0123456789abcdef"[n]) == HexValue("0123456789ABCDEF"[n]) == Some(n)
  {
  }

  predicate IsHexChar(c: char) {
    c in "0123456789abcdefABCDEF"
  }

  lemma HexChars(c: char)
    ensures IsHexChar(c) <==> HexValue(c).Some?
  {
    var text := "0123456789abcdefABCDEF";
    assert forall i :: 0 <= i < 10 ==> text[i] as int == '0' as int + i;
    assert forall i :: 10 <= i < 16 ==> text[i] as int == 'a' as int + (i - 10);
    assert forall i :: 16 <= i < 22 ==> text[i] as int == 'A' as int + (i - 16);
    if '0' <= c <= '9' {
      assert text[c as int - '0' as int] == c;
    } else if 'a' <= c <= 'f' {
      assert text[c as int - 'a' as int + 10] == c;
    } else if 'A' <= c <= 'F' {
      assert text[c as int - 'A' as int + 16] == c;
    }
  }

  lemma LowerDigit(c: char)
    ensures HexValue(LowerChar(c)) == HexValue(c)
  {
  }

  /** The text of bytes: two small hex digits each, the high one first. */
  lemma {:induction false} EncodeDigits(bs: seq<byte>, i: nat)
    requires i < |bs|
    ensures var s := Encode(bs);
      && |s| == 2 + 2 * |bs| && s[..2] == "0x"
      && s[2 + 2 * i] == "0123456789abcdef"[bs[i] / 16] && s[3 + 2 * i] == "0123456789abcdef"[bs[i] % 16]
  {
    var s, rest := HexPairs(bs), HexPairs(bs[1..]);
    assert s == [HexDigit(bs[0] / 16), HexDigit(bs[0] % 16)] + rest;
    if i == 0 {
      DigitTexts(bs[0] / 16);
      DigitTexts(bs[0] % 16);
    } else {
      EncodeDigits(bs[1..], i - 1);
      assert Encode(bs)[2 + 2 * i] == Encode(bs[1..])[2 + 2 * (i - 1)];
      assert Encode(bs)[3 + 2 * i] == Encode(bs[1..])[3 + 2 * (i - 1)];
    }
  }

  lemma {:induction false} PairsExact(s: string)
    ensures PairsValue(s).Some? <==> |s| % 2 == 0 && forall c :: c in s ==> IsHexChar(c)
    ensures PairsValue(s).Some? ==> |PairsValue(s).value| == |s| / 2
  {
    hide IsHexChar;
    hide HexValue;
    if |s| == 1 {
      assert s[0] in s;
    } else if |s| > 1 {
      PairsExact(s[2..]);
      HexChars(s[0]);
      HexChars(s[1]);
      HexBelow16(s[0]);
      HexBelow16(s[1]);
      assert s == [s[0], s[1]] + s[2..];
      assert s[0] in s && s[1] in s;
    }
  }

  lemma HexBelow16(c: char)
    ensures HexValue(c).Some? ==> HexValue(c).value < 16
  {
  }

  /** What is read as bytes: a prefix of either case, then an even number of hex digits of either case. */
  lemma DecodeExact(s: string)
    ensures Decode(s).Some? <==>
      && |s| >= 2 && (s[..2] == "0x" || s[..2] == "0X") && |s| % 2 == 0
      && forall c :: c in s[2..] ==> c in "0123456789abcdefABCDEF"
  {
    PairsExact(if |s| >= 2 then s[2..] else "");
  }

  lemma SameDigit(c: char, d: char)
    requires LowerChar(c) == LowerChar(d)
    ensures HexValue(c) == HexValue(d)
  {
    LowerDigit(c);
    LowerDigit(d);
  }

  lemma {:induction false} PairsIgnoreCase(s: string, t: string)
    requires |s| == |t| && forall i :: 0 <= i < |s| ==> LowerChar(s[i]) == LowerChar(t[i])
    ensures PairsValue(s) == PairsValue(t)
  {
    hide LowerChar;
    hide HexValue;
    if |s| > 1 {
      SameDigit(s[0], t[0]);
      SameDigit(s[1], t[1]);
      PairsIgnoreCase(s[2..], t[2..]);
    }
  }

  lemma AllHex(s: string)
    ensures (forall i :: 0 <= i < |s| ==> HexValue(s[i]).Some?)
      <==> forall c :: c in s ==> IsHexChar(c)
  {
    forall c: char
      ensures HexValue(c).Some? <==> IsHexChar(c)
    {
      HexChars(c);
    }
    hide HexValue;
    hide IsHexChar;
    assert forall i :: 0 <= i < |s| ==> s[i] in s;
  }

  predicate HasPrefix(s: string) {
    |s| >= 2 && (s[..2] == "0x" || s[..2] == "0X")
  }

  lemma PrefixChars(s: string)
    ensures HasPrefix(s) <==> |s| >= 2 && s[0] == '0' && (s[1] == 'x' || s[1] == 'X')
  {
  }

  /** An address is the text of twenty bytes; its prefix may be left out. */
  lemma AddressIsTwentyBytes(s: string)
    ensures var text := if |s| >= 2 && (s[..2] == "0x" || s[..2] == "0X") then s else "0x" + s;
      IsHexAddress(s) <==> Decode(text).Some? && |Decode(text).value| == 20
  {
    hide HexValue;
    hide PairsValue;
    var text := if HasPrefix(s) then s else "0x" + s;
    var digits := if HasPrefix(s) then s[2..] else s;
    assert text[2..] == digits && |text| >= 2 && text[0] == '0' && (text[1] == 'x' || text[1] == 'X');
    assert Decode(text) == PairsValue(digits);
    hide Decode;
    PrefixChars(s);
    assert AfterPrefix(s) == digits;
    hide AfterPrefix;
    PairsExact(digits);
    AllHex(digits);
  }

  /** Letter case does not matter, neither for bytes nor for addresses. */
  lemma DecodeIgnoresCase(s: string, t: string)
    requires ToLower(s) == ToLower(t)
    ensures Decode(s) == Decode(t) && (IsHexAddress(s) <==> IsHexAddress(t))
  {
    hide ToLower;
    hide PairsValue;
    hide HexValue;
    hide IsHexAddress;
    assert |s| == |ToLower(s)| == |ToLower(t)| == |t|;
    forall i | 0 <= i < |s|
      ensures LowerChar(s[i]) == LowerChar(t[i])
      ensures s[i] == '0' <==> t[i] == '0'
      ensures s[i] == 'x' || s[i] == 'X' <==> t[i] == 'x' || t[i] == 'X'
    {
      assert LowerChar(s[i]) == ToLower(s)[i] == ToLower(t)[i] == LowerChar(t[i]);
    }
    AddressIsTwentyBytes(s);
    AddressIsTwentyBytes(t);
    hide LowerChar;
    PairsIgnoreCase(s, t);
    PrefixChars(s);
    PrefixChars(t);
    assert ("0x" + s)[2..] == s && ("0x" + t)[2..] == t;
    if |s| >= 2 {
      PairsIgnoreCase(s[2..], t[2..]);
    }
  }
}
