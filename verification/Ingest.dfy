/**
 * The log ingester as a function: what one run appends and saves, and what any history of lost and completed
 * runs leaves behind.  The chain is a fixed function from blocks to the logs that match the filters.
 */
module Ingest {
  import opened Base
  import opened Numerals
  import opened Ranges
  import Hex

  /** `payload` stands for the fields that take no part in the identity of a log. */
  datatype Log = Log(block: uint64, txHash: seq<Hex.byte>, index: nat, payload: string)

  /** The key of the seen-set. */
  function IdKey(l: Log): string {
    Digits(l.block) + ":" + Hex.Encode(l.txHash) + ":" + Digits(l.index)
  }

  lemma {:induction false} ColonSplit(a: string, b: string, x: string, y: string)
    requires ':' !in a && ':' !in b && a + ":" + x == b + ":" + y
    ensures a == b && x == y
  {
    var s, t := a + ":" + x, b + ":" + y;
    assert s[|a|] == ':' && t[|b|] == ':';
    assert forall i :: 0 <= i < |a| ==> s[i] == a[i] && a[i] != ':';
    assert forall i :: 0 <= i < |b| ==> t[i] == b[i] && b[i] != ':';
    assert |a| == |b|;
    assert s[..|a|] == a && t[..|b|] == b;
    assert s[|a| + 1..] == x && t[|b| + 1..] == y;
  }

  /** The key determines block, transaction and index. */
  lemma IdKeyInjective(l: Log, m: Log)
    requires IdKey(l) == IdKey(m)
    ensures l.block == m.block && l.txHash == m.txHash && l.index == m.index
  {
    hide Hex.Encode;
    var x, y := Hex.Encode(l.txHash) + ":" + Digits(l.index), Hex.Encode(m.txHash) + ":" + Digits(m.index);
    assert IdKey(l) == Digits(l.block) + ":" + x && IdKey(m) == Digits(m.block) + ":" + y;
    ColonSplit(Digits(l.block), Digits(m.block), x, y);
    ColonSplit(Hex.Encode(l.txHash), Hex.Encode(m.txHash), Digits(l.index), Digits(m.index));
    DigitsInjective(l.block, m.block);
    DigitsInjective(l.index, m.index);
    Hex.RoundTrip(l.txHash);
    Hex.RoundTrip(m.txHash);
  }

  type Chain = nat -> seq<Log>

  /** A block's logs carry its number, and block, transaction and index identify a log. */
  ghost predicate IsChain(chain: Chain) {
    && (forall b: nat, l :: l in chain(b) ==> l.block == b)
    && (forall b: nat, l, m :: l in chain(b) && m in chain(b) && l.txHash == m.txHash && l.index == m.index ==> l == m)
  }

  /** The logs of the blocks a <= b < end, as the node answers for them in block order. */
  function Fetch(chain: Chain, a: nat, end: nat): seq<Log> {
    if end <= a then [] else Fetch(chain, a, end - 1) + chain(end - 1)
  }

  function KeysOf(logs: seq<Log>): set<string> {
    set l | l in logs :: IdKey(l)
  }

  /** The logs the seen-set lets through. */
  function Unseen(seen: set<string>, logs: seq<Log>): seq<Log> {
    if logs == [] then []
    else
      var init, l := logs[..|logs| - 1], logs[|logs| - 1];
      if IdKey(l) in seen + KeysOf(init) then Unseen(seen, init) else Unseen(seen, init) + [l]
  }

  /** Each log of the blocks a <= b < end once, in order. */
  function Distinct(chain: Chain, a: nat, end: nat): seq<Log> {
    Unseen({}, Fetch(chain, a, end))
  }

  lemma {:induction false} FetchMembers(chain: Chain, a: nat, end: nat, l: Log)
    requires IsChain(chain)
    ensures l in Fetch(chain, a, end) <==> a <= l.block < end && l in chain(l.block)
  {
    if end > a {
      FetchMembers(chain, a, end - 1, l);
    }
  }

  lemma {:induction false} FetchConcat(chain: Chain, a: nat, mid: nat, end: nat)
    requires a <= mid <= end
    ensures Fetch(chain, a, end) == Fetch(chain, a, mid) + Fetch(chain, mid, end)
    decreases end
  {
    if end > mid {
      FetchConcat(chain, a, mid, end - 1);
    }
  }

  lemma KeysConcat(s: seq<Log>, t: seq<Log>)
    ensures KeysOf(s + t) == KeysOf(s) + KeysOf(t)
  {
    hide IdKey;
  }

  lemma UnseenSnoc(seen: set<string>, logs: seq<Log>, l: Log)
    ensures Unseen(seen, logs + [l]) ==
      if IdKey(l) in seen + KeysOf(logs) then Unseen(seen, logs) else Unseen(seen, logs) + [l]
  {
    hide IdKey;
    hide KeysOf;
    assert (logs + [l])[..|logs|] == logs;
  }

  lemma UnseenNone(seen: set<string>, s: seq<Log>)
    ensures Unseen(seen, []) == [] && Unseen(seen, s + []) == Unseen(seen, s) + []
  {
    assert s + [] == s;
  }

  lemma {:induction false} UnseenConcat(seen: set<string>, s: seq<Log>, t: seq<Log>)
    ensures Unseen(seen, s + t) == Unseen(seen, s) + Unseen(seen + KeysOf(s), t)
  {
    hide IdKey;
    hide KeysOf;
    hide Unseen;
    if t == [] {
      UnseenNone(seen, s);
      UnseenNone(seen + KeysOf(s), s);
    } else {
      var init, l := t[..|t| - 1], t[|t| - 1];
      UnseenConcat(seen, s, init);
      KeysConcat(s, init);
      assert t == init + [l] && s + t == (s + init) + [l];
      UnseenSnoc(seen, s + init, l);
      UnseenSnoc(seen + KeysOf(s), init, l);
      assert seen + KeysOf(s + init) == (seen + KeysOf(s)) + KeysOf(init);
    }
  }

  /** Keys of other logs do not matter. */
  lemma {:induction false} UnseenIrrelevant(seen: set<string>, t: seq<Log>)
    requires seen !! KeysOf(t)
    ensures Unseen(seen, t) == Unseen({}, t)
  {
    hide IdKey;
    if t != [] {
      var init, l := t[..|t| - 1], t[|t| - 1];
      assert t == init + [l];
      UnseenIrrelevant(seen, init);
      assert IdKey(l) in KeysOf(t);
    }
  }

  /** The seen-set drops repeats and never a distinct log; what it keeps has no repeats. */
  lemma {:induction false} UnseenExact(logs: seq<Log>)
    requires forall l, m :: l in logs && m in logs && IdKey(l) == IdKey(m) ==> l == m
    ensures var kept := Unseen({}, logs);
      && (forall l :: l in kept <==> l in logs)
      && (forall i, j :: 0 <= i < j < |kept| ==> kept[i] != kept[j])
  {
    hide IdKey;
    if logs != [] {
      var init, l := logs[..|logs| - 1], logs[|logs| - 1];
      assert logs == init + [l];
      UnseenExact(init);
    }
  }

  /** Logs without repeats are all kept, in the order the node gave them. */
  lemma {:induction false} NothingDropped(logs: seq<Log>)
    requires forall i, j :: 0 <= i < j < |logs| ==> IdKey(logs[i]) != IdKey(logs[j])
    ensures Unseen({}, logs) == logs
  {
    hide IdKey;
    if logs != [] {
      var init, l := logs[..|logs| - 1], logs[|logs| - 1];
      NothingDropped(init);
      assert logs == init + [l];
      assert forall i :: 0 <= i < |init| ==> init[i] == logs[i];
    }
  }

  /** A block's logs are appended in the order of the block, if none is repeated. */
  lemma BlockInOrder(chain: Chain, b: nat)
    requires forall i, j :: 0 <= i < j < |chain(b)| ==> IdKey(chain(b)[i]) != IdKey(chain(b)[j])
    ensures Distinct(chain, b, b + 1) == chain(b)
  {
    hide IdKey;
    NothingDropped(chain(b));
    assert Fetch(chain, b, b) == [];
    assert [] + chain(b) == chain(b);
  }

  lemma ChainKeys(chain: Chain, a: nat, end: nat, l: Log, m: Log)
    requires IsChain(chain) && l in Fetch(chain, a, end) && m in Fetch(chain, a, end) && IdKey(l) == IdKey(m)
    ensures l == m
  {
    IdKeyInjective(l, m);
    FetchMembers(chain, a, end, l);
    FetchMembers(chain, a, end, m);
  }

  /** The distinct logs of an interval: exactly its logs, each once, in block order. */
  lemma DistinctExact(chain: Chain, a: nat, end: nat)
    requires IsChain(chain)
    ensures var kept := Distinct(chain, a, end);
      && (forall l :: l in kept <==> a <= l.block < end && l in chain(l.block))
      && (forall i, j :: 0 <= i < j < |kept| ==> kept[i] != kept[j] && kept[i].block <= kept[j].block)
  {
    hide IdKey;
    forall l, m | l in Fetch(chain, a, end) && m in Fetch(chain, a, end) && IdKey(l) == IdKey(m)
      ensures l == m
    {
      ChainKeys(chain, a, end, l, m);
    }
    UnseenExact(Fetch(chain, a, end));
    forall l
      ensures l in Fetch(chain, a, end) <==> a <= l.block < end && l in chain(l.block)
    {
      FetchMembers(chain, a, end, l);
    }
    FetchSorted(chain, a, end);
    UnseenSorted(Fetch(chain, a, end));
  }

  lemma {:induction false} FetchSorted(chain: Chain, a: nat, end: nat)
    requires IsChain(chain)
    ensures BlockSorted(Fetch(chain, a, end))
  {
    if end > a {
      FetchSorted(chain, a, end - 1);
      var head, tail := Fetch(chain, a, end - 1), chain(end - 1);
      forall i | 0 <= i < |head|
        ensures head[i].block < end - 1
      {
        FetchMembers(chain, a, end - 1, head[i]);
      }
      forall i | 0 <= i < |tail|
        ensures tail[i].block == end - 1
      {
        assert tail[i] in chain(end - 1);
      }
    }
  }

  predicate BlockSorted(s: seq<Log>) {
    forall i, j :: 0 <= i < j < |s| ==> s[i].block <= s[j].block
  }

  lemma {:induction false} UnseenSorted(logs: seq<Log>)
    requires BlockSorted(logs)
    ensures BlockSorted(Unseen({}, logs))
    ensures forall l :: l in Unseen({}, logs) ==> l in logs
  {
    hide IdKey;
    if logs != [] {
      var init, l := logs[..|logs| - 1], logs[|logs| - 1];
      assert logs == init + [l];
      UnseenSorted(init);
      var kept := Unseen({}, init);
      forall i | 0 <= i < |kept|
        ensures kept[i].block <= l.block
      {
        assert kept[i] in init;
      }
    }
  }

  /** Batches do not repeat each other's logs, so batching does not change what is kept. */
  lemma DistinctConcat(chain: Chain, a: nat, mid: nat, end: nat)
    requires IsChain(chain) && a <= mid <= end
    ensures Distinct(chain, a, end) == Distinct(chain, a, mid) + Distinct(chain, mid, end)
    ensures Unseen(KeysOf(Fetch(chain, a, mid)), Fetch(chain, mid, end)) == Distinct(chain, mid, end)
  {
    hide IdKey;
    var s, t := Fetch(chain, a, mid), Fetch(chain, mid, end);
    FetchConcat(chain, a, mid, end);
    UnseenConcat({}, s, t);
    forall l, m | l in s && m in t
      ensures IdKey(l) != IdKey(m)
    {
      FetchMembers(chain, a, mid, l);
      FetchMembers(chain, mid, end, m);
      if IdKey(l) == IdKey(m) {
        IdKeyInjective(l, m);
      }
    }
    assert {} + KeysOf(s) == KeysOf(s);
    UnseenIrrelevant(KeysOf(s), t);
  }

  // ----- What a run sends

  /** A record appended to the output, or a checkpoint saved. */
  datatype Write = Put(log: Log) | Mark(block: uint64)

  /** `mark` is the checkpoint file. */
  datatype Durable = Durable(out: seq<Log>, mark: Option<uint64>)

  function Puts(logs: seq<Log>): seq<Write> {
    seq(|logs|, i requires 0 <= i < |logs| => Put(logs[i]))
  }

  function ApplyOne(d: Durable, w: Write): Durable {
    match w
    case Put(l) => d.(out := d.out + [l])
    case Mark(b) => d.(mark := Some(b))
  }

  function Apply(d: Durable, t: seq<Write>): Durable {
    if t == [] then d else ApplyOne(Apply(d, t[..|t| - 1]), t[|t| - 1])
  }

  /** The block a run starts from: the one after the checkpoint, if that is not before `fromBlock`. */
  function StartFrom(fromBlock: uint64, mark: Option<uint64>): uint64 {
    match mark
    case Some(c) => if c >= fromBlock then Wrap64(c + 1) else fromBlock
    case None => fromBlock
  }

  /** The checkpoint of a batch, if checkpoints are enabled. */
  function Marks(block: uint64, enabled: bool): seq<Write> {
    if enabled then [Mark(block)] else []
  }

  /** One batch: append its unseen logs, then save its last block. */
  function BatchTrace(chain: Chain, r: BlockRange, seen: set<string>, enabled: bool): seq<Write> {
    Puts(Unseen(seen, Fetch(chain, r.from, r.to + 1))) + Marks(r.to, enabled)
  }

  function RangesTrace(chain: Chain, ranges: seq<BlockRange>, seen: set<string>, enabled: bool): seq<Write> {
    if ranges == [] then []
    else
      var r := ranges[0];
      BatchTrace(chain, r, seen, enabled)
        + RangesTrace(chain, ranges[1..], seen + KeysOf(Fetch(chain, r.from, r.to + 1)), enabled)
  }

  /** Everything a run with a fresh seen-set sends. */
  function RunTrace(chain: Chain, from: uint64, to: uint64, batchSize: uint64, enabled: bool): seq<Write>
    requires batchSize > 0
  {
    if from > to then [] else RangesTrace(chain, Split(from, to, batchSize), {}, enabled)
  }

  /** The same, batch by batch, without a seen-set. */
  function CleanTrace(chain: Chain, ranges: seq<BlockRange>, enabled: bool): seq<Write> {
    if ranges == [] then []
    else
      var r := ranges[0];
      Puts(Distinct(chain, r.from, r.to + 1)) + Marks(r.to, enabled) + CleanTrace(chain, ranges[1..], enabled)
  }

  /** After the blocks before `from`, the seen-set lets the next batch through as if it were empty. */
  lemma NextBatch(chain: Chain, first: nat, from: nat, next: nat)
    requires IsChain(chain) && first <= from <= next
    ensures var seen := KeysOf(Fetch(chain, first, from));
      && Unseen(seen, Fetch(chain, from, next)) == Distinct(chain, from, next)
      && seen + KeysOf(Fetch(chain, from, next)) == KeysOf(Fetch(chain, first, next))
  {
    hide IdKey;
    hide Fetch;
    hide Unseen;
    DistinctConcat(chain, first, from, next);
    FetchConcat(chain, first, from, next);
  }

  /** The seen-set acts inside one batch only. */
  lemma {:induction false} SeenIsLocal(
    chain: Chain, first: uint64, from: uint64, to: uint64, batchSize: uint64, enabled: bool)
    requires IsChain(chain) && first <= from <= to && batchSize > 0
    ensures RangesTrace(chain, Split(from, to, batchSize), KeysOf(Fetch(chain, first, from)), enabled)
         == CleanTrace(chain, Split(from, to, batchSize), enabled)
    decreases TWO_64 - from
  {
    hide BatchEnd;
    hide Split;
    hide Fetch;
    hide KeysOf;
    hide Unseen;
    hide Distinct;
    hide IsChain;
    var end := BatchEnd(from, to, batchSize);
    SplitUnfold(from, to, batchSize);
    var next: int := end;
    NextBatch(chain, first, from, next + 1);
    if end != to {
      SeenIsLocal(chain, first, end + 1, to, batchSize, enabled);
    }
  }

  lemma RunIsClean(chain: Chain, from: uint64, to: uint64, batchSize: uint64, enabled: bool)
    requires IsChain(chain) && from <= to && batchSize > 0
    ensures RunTrace(chain, from, to, batchSize, enabled) == CleanTrace(chain, Split(from, to, batchSize), enabled)
  {
    SeenIsLocal(chain, from, from, to, batchSize, enabled);
    assert KeysOf(Fetch(chain, from, from)) == {};
  }

  /** Batches of appended logs, one after the other, append the logs of both. */
  lemma PutsJoin(chain: Chain, a: nat, mid: nat, end: nat)
    requires IsChain(chain) && a <= mid <= end
    ensures Puts(Distinct(chain, a, mid)) + [] + Puts(Distinct(chain, mid, end)) == Puts(Distinct(chain, a, end))
  {
    hide Distinct;
    hide IsChain;
    DistinctConcat(chain, a, mid, end);
  }

  lemma {:induction false} CleanWithoutCheckpoints(chain: Chain, from: uint64, to: uint64, batchSize: uint64)
    requires IsChain(chain) && from <= to && batchSize > 0
    ensures CleanTrace(chain, Split(from, to, batchSize), false) == Puts(Distinct(chain, from, to + 1))
    decreases TWO_64 - from
  {
    hide BatchEnd;
    hide Split;
    hide Distinct;
    hide IsChain;
    hide Puts;
    var end := BatchEnd(from, to, batchSize);
    var next: int := end;
    SplitUnfold(from, to, batchSize);
    var ranges := Split(from, to, batchSize);
    var rest := CleanTrace(chain, ranges[1..], false);
    assert CleanTrace(chain, ranges, false) == Puts(Distinct(chain, from, next + 1)) + [] + rest;
    if end != to {
      CleanWithoutCheckpoints(chain, end + 1, to, batchSize);
      PutsJoin(chain, from, next + 1, to + 1);
    } else {
      assert CleanTrace(chain, ranges[1..], false) == [];
      assert Puts(Distinct(chain, from, next + 1)) + [] + [] == Puts(Distinct(chain, from, next + 1));
    }
  }

  /** Without checkpoints a run appends the logs of its interval, each once, and sends nothing else. */
  lemma WithoutCheckpoints(chain: Chain, from: uint64, to: uint64, batchSize: uint64)
    requires IsChain(chain) && from <= to && batchSize > 0
    ensures RunTrace(chain, from, to, batchSize, false) == Puts(Distinct(chain, from, to + 1))
  {
    hide Split;
    hide RunTrace;
    hide CleanTrace;
    hide Distinct;
    hide IsChain;
    RunIsClean(chain, from, to, batchSize, false);
    CleanWithoutCheckpoints(chain, from, to, batchSize);
  }
}
