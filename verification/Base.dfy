/** Small shared vocabulary: options, results, machine words and ASCII lower-casing. */
module Base {

  datatype Option<+T> = None | Some(value: T) {
    function GetOr(default: T): T {
      if Some? then value else default
    }
  }

  datatype Result<+T> = Ok(value: T) | Err

  const TWO_64: int := 0x1_0000_0000_0000_0000

  type uint64 = x: int | 0 <= x < TWO_64
  type uint32 = x: int | 0 <= x < 0x1_0000_0000

  /** The value a 64-bit unsigned register holds after an operation whose exact result is `x`. */
  function Wrap64(x: int): uint64 {
    x % TWO_64
  }

  /** What is left of a sequence of statements when the process is lost after `budget` of them. */
  function Survives<T>(t: seq<T>, budget: nat): seq<T> {
    if budget < |t| then t[..budget] else t
  }

  function Abs(x: int): nat {
    if x < 0 then -x else x
  }

  function LowerChar(c: char): char {
    if 'A' <= c <= 'Z' then ((c as int) + 32) as char else c
  }

  /** `strings.ToLower` on ASCII text. */
  function ToLower(s: string): (r: string)
    ensures |r| == |s|
    ensures forall i :: 0 <= i < |s| ==> r[i] == LowerChar(s[i])
  {
    if s == [] then [] else [LowerChar(s[0])] + ToLower(s[1..])
  }

  /** A 64-bit register counts up to 2^64 - 1 and then starts again at 0. */
  lemma RegisterWraps(x: int)
    ensures 0 <= x <= 18_446_744_073_709_551_615 ==> Wrap64(x) == x
    ensures 18_446_744_073_709_551_616 <= x < 36_893_488_147_419_103_232 ==>
      Wrap64(x) == x - 18_446_744_073_709_551_616
    ensures -18_446_744_073_709_551_616 <= x < 0 ==> Wrap64(x) == x + 18_446_744_073_709_551_616
  {
  }

  /** Each of the 26 capital letters becomes its small one, and no other character changes. */
  lemma LowerLetters(c: char, i: nat)
    requires i < 26
    ensures LowerChar("ABCDEFGHIJKLMNOPQRSTUVWXYZ"[i]) == "abcdefghijklmnopqrstuvwxyz"[i]
    ensures c !in "ABCDEFGHIJKLMNOPQRSTUVWXYZ" ==> LowerChar(c) == c
  {
    var capitals := "ABCDEFGHIJKLMNOPQRSTUVWXYZ";
    assert forall j :: 0 <= j < 26 ==> capitals[j] as int == 'A' as int + j;
    if 'A' <= c <= 'Z' {
      assert capitals[c as int - 'A' as int] == c;
    }
  }
}
