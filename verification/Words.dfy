/** 32-byte words of the Solidity contract ABI: big-endian numbers, two's complement, padded addresses. */
module Words {
  import Hex

  type byte = Hex.byte

  function Pow256(n: nat): (p: nat)
    ensures p > 0
  {
    if n == 0 then 1 else 256 * Pow256(n - 1)
  }

  lemma {:induction false} Pow256Grows(m: nat, n: nat)
    requires m <= n
    ensures Pow256(m) <= Pow256(n)
  {
    if m < n {
      Pow256Grows(m, n - 1);
    }
  }

  /** The big-endian value of a byte string. */
  function Value(bs: seq<byte>): nat {
    if bs == [] then 0 else 256 * Value(bs[..|bs| - 1]) + bs[|bs| - 1]
  }

  /** The last `n` bytes of the big-endian form of `v`. */
  function Bytes(v: nat, n: nat): (bs: seq<byte>)
    ensures |bs| == n
  {
    if n == 0 then [] else Bytes(v / 256, n - 1) + [v % 256]
  }

  lemma {:induction false} ValueOfBytes(v: nat, n: nat)
    requires v < Pow256(n)
    ensures Value(Bytes(v, n)) == v
  {
    if n > 0 {
      ValueOfBytes(v / 256, n - 1);
      assert Bytes(v, n)[..n - 1] == Bytes(v / 256, n - 1);
    }
  }

  /** A word with its top bit set stands for a negative number. */
  function Signed(word: seq<byte>): int
    requires |word| == 32
  {
    if 2 * Value(word) >= Pow256(32) then Value(word) - Pow256(32) else Value(word)
  }

  /** Two's complement. */
  function SignedBytes(v: int): seq<byte>
    requires -(Pow256(32) as int) <= 2 * v < Pow256(32)
  {
    Bytes(if v < 0 then v + Pow256(32) else v, 32)
  }

  lemma SignedRoundTrip(v: int)
    requires -(Pow256(32) as int) <= 2 * v < Pow256(32)
    ensures |SignedBytes(v)| == 32 && Signed(SignedBytes(v)) == v
  {
    hide Pow256;
    hide Bytes;
    hide Value;
    ValueOfBytes(if v < 0 then v + Pow256(32) else v, 32);
  }

  function ZeroBytes(n: nat): (bs: seq<byte>)
    ensures |bs| == n && forall i :: 0 <= i < n ==> bs[i] == 0
  {
    if n == 0 then [] else ZeroBytes(n - 1) + [0]
  }

  /** `common.BytesToHash` on at most 32 bytes: padded on the left. */
  function PadLeft(bs: seq<byte>): (word: seq<byte>)
    requires |bs| <= 32
    ensures |word| == 32
    ensures word[32 - |bs|..] == bs && forall i :: 0 <= i < 32 - |bs| ==> word[i] == 0
  {
    ZeroBytes(32 - |bs|) + bs
  }

  /** Words are big-endian: what comes first counts more. */
  lemma {:induction false} ValueOfConcat(a: seq<byte>, b: seq<byte>)
    ensures Value(a + b) == Value(a) * Pow256(|b|) + Value(b)
    ensures |b| == 1 ==> Value(b) == b[0]
  {
    if b == [] {
      assert a + b == a;
    } else {
      var init, last := b[..|b| - 1], b[|b| - 1];
      ValueOfConcat(a, init);
      assert (a + b)[..|a + b| - 1] == a + init;
      assert 256 * (Value(a) * Pow256(|init|)) == Value(a) * Pow256(|b|);
      if |b| == 1 {
        assert init == [];
      }
    }
  }

  /** Two's complement: words from 2^255 on stand for their value minus 2^256. */
  lemma SignedIs(word: seq<byte>)
    requires |word| == 32
    ensures var half := 0x8000_0000_0000_0000_0000_0000_0000_0000_0000_0000_0000_0000_0000_0000_0000_0000;
      Signed(word) == if Value(word) < half then Value(word) else Value(word) - 2 * half
  {
    Pow256Of32();
    hide Pow256;
    hide Value;
  }

  lemma Pow256Of8()
    ensures Pow256(8) == 0x1_0000_0000_0000_0000
  {
    assert Pow256(4) == 0x1_0000_0000;
  }

  lemma Pow256Of32()
    ensures Pow256(32) == 0x1_0000_0000_0000_0000_0000_0000_0000_0000_0000_0000_0000_0000_0000_0000_0000_0000
  {
    Pow256Of8();
    Pow256Sum(8, 8);
    Pow256Sum(16, 16);
    hide Pow256;
  }

  lemma {:induction false} Pow256Sum(m: nat, n: nat)
    ensures Pow256(m + n) == Pow256(m) * Pow256(n)
  {
    if m > 0 {
      Pow256Sum(m - 1, n);
    }
  }
}
