/** The typed events the aggregator reads, one per input line. */
module Events {
  import opened Base
  import opened Numerals

  datatype PoolMeta = PoolMeta(token0: string, token1: string, fee: uint32, tickSpacing: int) {
    predicate Present() {
      token0 != "" && token1 != ""
    }
  }

  /** The two amount fields of a decoded payload, as text. */
  datatype SwapAmounts = SwapAmounts(amount0: string, amount1: string)

  /** `swap` is None when the payload does not unmarshal as swap data. */
  datatype Record = Record(
    chainId: uint64, address: string, block: uint64, timestamp: uint64,
    eventName: string, swap: Option<SwapAmounts>, meta: PoolMeta)

  /** An input line: blank, not a JSON record, or a record. */
  datatype Line = Blank | Malformed | Event(record: Record)

  /** What an event contributes: nothing, a rejected swap, or two signed amounts. */
  datatype Trade = NoTrade | Rejected | Traded(amount0: int, amount1: int)

  function TradeOf(r: Record): Trade {
    if ToLower(r.eventName) != "swap" then NoTrade
    else if r.swap.None? then Rejected
    else
      match (ParseBigInt(r.swap.value.amount0), ParseBigInt(r.swap.value.amount1))
      case (Some(a0), Some(a1)) => Traded(a0, a1)
      case _ => Rejected
  }

  function PoolKey(address: string): string {
    ToLower(address)
  }

  /** Two spellings share an accumulator exactly when they differ in letter case only. */
  lemma PoolKeyIgnoresCase(a: string, b: string)
    ensures PoolKey(a) == PoolKey(b) <==>
      |a| == |b| && forall i :: 0 <= i < |a| ==> LowerChar(a[i]) == LowerChar(b[i])
  {
    hide ToLower;
    hide LowerChar;
    if PoolKey(a) == PoolKey(b) {
      assert |a| == |ToLower(a)| == |ToLower(b)| == |b|;
      assert forall i :: 0 <= i < |a| ==> LowerChar(a[i]) == ToLower(a)[i] == ToLower(b)[i];
    }
  }

  /** The records a run reads: every record whose timestamp lies after `start`, in input order. */
  function Accepted(lines: seq<Line>, start: nat): (es: seq<Record>)
    ensures forall r :: r in es ==> r.timestamp > start
  {
    if lines == [] then []
    else
      var rest := Accepted(lines[..|lines| - 1], start);
      match lines[|lines| - 1]
      case Event(r) => if r.timestamp > start then rest + [r] else rest
      case _ => rest
  }

  lemma {:induction false} AcceptedMembers(lines: seq<Line>, start: nat, r: Record)
    ensures r in Accepted(lines, start) <==> Event(r) in lines && r.timestamp > start
  {
    if lines != [] {
      var init := lines[..|lines| - 1];
      AcceptedMembers(init, start, r);
      assert lines == init + [lines[|lines| - 1]];
    }
  }

  lemma {:induction false} AcceptedConcat(a: seq<Line>, b: seq<Line>, start: nat)
    ensures Accepted(a + b, start) == Accepted(a, start) + Accepted(b, start)
  {
    if b == [] {
      assert a + b == a;
    } else {
      AcceptedConcat(a, b[..|b| - 1], start);
      assert (a + b)[..|a + b| - 1] == a + b[..|b| - 1];
    }
  }

  /** Starting later reads a filtered version of what an earlier start reads. */
  lemma {:induction false} AcceptedLater(lines: seq<Line>, start: nat, later: nat)
    requires start <= later
    ensures Accepted(lines, later) == After(Accepted(lines, start), later)
  {
    if lines != [] {
      AcceptedLater(lines[..|lines| - 1], start, later);
      var rest := Accepted(lines[..|lines| - 1], start);
      match lines[|lines| - 1]
      case Event(r) =>
        if r.timestamp > start {
          assert (rest + [r])[..|rest|] == rest;
        }
      case _ =>
    }
  }

  /** The records with a timestamp after `start`. */
  function After(es: seq<Record>, start: nat): seq<Record> {
    if es == [] then []
    else
      var rest := After(es[..|es| - 1], start);
      if es[|es| - 1].timestamp > start then rest + [es[|es| - 1]] else rest
  }
}
