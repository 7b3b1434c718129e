/** The ingester object: resume, fetch, drop repeats, append, and only then save the checkpoint. */
module Runners {
  import opened Base
  import opened Ranges
  import opened Ingest
  import opened IngestHistory

  /** The output file and the checkpoint file; `writesLeft` is the number of statements that still take effect. */
  class Sink {
    var out: seq<Log>
    var mark: Option<uint64>
    var writesLeft: nat

    ghost function Value(): Durable
      reads this
    {
      Durable(out, mark)
    }

    method PutLogBatch(records: seq<Log>) returns (ok: bool)
      modifies this
      ensures Value() == Apply(old(Value()), Survives(Puts(records), old(writesLeft)))
      ensures ok == (|records| <= old(writesLeft))
      ensures ok ==> writesLeft == old(writesLeft) - |records|
    {
      for i := 0 to |records|
        invariant i <= old(writesLeft) && writesLeft == old(writesLeft) - i
        invariant Value() == Apply(old(Value()), Puts(records)[..i])
      {
        if writesLeft == 0 {
          return false;
        }
        out := out + [records[i]];
        writesLeft := writesLeft - 1;
        assert Puts(records)[..i + 1][..i] == Puts(records)[..i];
      }
      assert Puts(records)[..|records|] == Puts(records);
      ok := true;
    }

    method SaveCheckpoint(block: uint64) returns (ok: bool)
      modifies this
      ensures Value() == Apply(old(Value()), Survives([Mark(block)], old(writesLeft)))
      ensures ok == (1 <= old(writesLeft))
      ensures ok ==> writesLeft == old(writesLeft) - 1
    {
      if writesLeft == 0 {
        return false;
      }
      mark := Some(block);
      writesLeft := writesLeft - 1;
      assert [Mark(block)][..0] == [];
      ok := true;
    }
  }

  lemma {:induction false} ApplyConcat(d: Durable, s: seq<Write>, t: seq<Write>)
    ensures Apply(d, s + t) == Apply(Apply(d, s), t)
  {
    if t == [] {
      assert s + t == s;
    } else {
      ApplyConcat(d, s, t[..|t| - 1]);
      assert (s + t)[..|s + t| - 1] == s + t[..|t| - 1];
    }
  }

  /** Two stretches of statements, one after the other, survive like one. */
  lemma SurvivesConcat(d: Durable, s: seq<Write>, t: seq<Write>, budget: nat)
    ensures |s| > budget ==> Apply(d, Survives(s + t, budget)) == Apply(d, Survives(s, budget))
    ensures |s| <= budget ==>
      && Survives(s, budget) == s
      && Apply(d, Survives(s + t, budget)) == Apply(Apply(d, s), Survives(t, budget - |s|))
  {
    if |s| > budget {
      assert (s + t)[..budget] == s[..budget];
    } else {
      ApplyConcat(d, s, Survives(t, budget - |s|));
      assert Survives(s + t, budget) == s + Survives(t, budget - |s|);
    }
  }

  class Runner {
    const fromBlock: uint64
    const toBlock: uint64
    const addresses: seq<string>
    const batchSize: uint64
    const checkpointEnabled: bool
    const chain: Chain
    const sink: Sink
    var seen: set<string>

    constructor (
      fromBlock: uint64, toBlock: uint64, addresses: seq<string>, batchSize: uint64, checkpointEnabled: bool,
      chain: Chain, sink: Sink)
      ensures this.fromBlock == fromBlock && this.toBlock == toBlock && this.addresses == addresses
      ensures this.batchSize == batchSize && this.checkpointEnabled == checkpointEnabled
      ensures this.chain == chain && this.sink == sink && seen == {}
    {
      this.fromBlock, this.toBlock, this.addresses, this.batchSize := fromBlock, toBlock, addresses, batchSize;
      this.checkpointEnabled, this.chain, this.sink, seen := checkpointEnabled, chain, sink, {};
    }

    method IsDuplicate(l: Log) returns (duplicate: bool)
      modifies this`seen
      ensures duplicate == (IdKey(l) in old(seen))
      ensures seen == old(seen) + {IdKey(l)}
    {
      var id := IdKey(l);
      if id in seen {
        return true;
      }
      seen := seen + {id};
      duplicate := false;
    }

    /** The logs not seen before; they are marked before anything is written. */
    method DropDuplicates(logs: seq<Log>) returns (records: seq<Log>)
      modifies this`seen
      ensures records == Unseen(old(seen), logs)
      ensures seen == old(seen) + KeysOf(logs)
    {
      hide IdKey;
      records := [];
      for i := 0 to |logs|
        invariant records == Unseen(old(seen), logs[..i])
        invariant seen == old(seen) + KeysOf(logs[..i])
      {
        assert logs[..i + 1][..i] == logs[..i];
        assert logs[..i + 1] == logs[..i] + [logs[i]];
        var duplicate := IsDuplicate(logs[i]);
        if !duplicate {
          records := records + [logs[i]];
        }
      }
      assert logs[..|logs|] == logs;
    }

    method RunBatch(r: BlockRange) returns (ok: bool)
      modifies this`seen, sink
      ensures var t := BatchTrace(chain, r, old(seen), checkpointEnabled);
        && sink.Value() == Apply(old(sink.Value()), Survives(t, old(sink.writesLeft)))
        && ok == (|t| <= old(sink.writesLeft))
        && (ok ==> sink.writesLeft == old(sink.writesLeft) - |t|)
      ensures seen == old(seen) + KeysOf(Fetch(chain, r.from, r.to + 1))
    {
      hide Apply;
      hide Unseen;
      hide Fetch;
      hide KeysOf;
      ghost var d, budget := sink.Value(), sink.writesLeft;
      var logs := Fetch(chain, r.from, r.to + 1);
      var records := DropDuplicates(logs);
      SurvivesConcat(d, Puts(records), Marks(r.to, checkpointEnabled), budget);
      NothingApplied(Apply(d, Puts(records)));
      ok := sink.PutLogBatch(records);
      if ok && checkpointEnabled {
        ok := sink.SaveCheckpoint(r.to);
      }
    }

    /** The batches one after the other; a failed one ends the run. */
    method RunBatches(ranges: seq<BlockRange>) returns (ok: bool)
      modifies this`seen, sink
      ensures var t := RangesTrace(chain, ranges, old(seen), checkpointEnabled);
        && sink.Value() == Apply(old(sink.Value()), Survives(t, old(sink.writesLeft)))
        && ok == (|t| <= old(sink.writesLeft))
    {
      hide Apply;
      hide BatchTrace;
      hide Fetch;
      hide KeysOf;
      hide Survives;
      ghost var d, budget := sink.Value(), sink.writesLeft;
      NothingApplied(d);
      ghost var t: seq<Write> := [];
      ghost var whole := RangesTrace(chain, ranges, seen, checkpointEnabled);
      assert ranges[0..] == ranges;
      ok := true;
      for i := 0 to |ranges|
        invariant ok && |t| <= budget && sink.writesLeft == budget - |t|
        invariant sink.Value() == Apply(d, t)
        invariant t + RangesTrace(chain, ranges[i..], seen, checkpointEnabled) == whole
      {
        ghost var batch := BatchTrace(chain, ranges[i], seen, checkpointEnabled);
        ghost var keys := KeysOf(Fetch(chain, ranges[i].from, ranges[i].to + 1));
        ghost var rest := RangesTrace(chain, ranges[i + 1..], seen + keys, checkpointEnabled);
        assert ranges[i..][1..] == ranges[i + 1..];
        Grouped(t, batch, rest);
        SurvivesConcat(d, t, batch, budget);
        SurvivesConcat(d, t + batch, rest, budget);
        ok := RunBatch(ranges[i]);
        if !ok {
          return;
        }
        t := t + batch;
        WholeSurvives(t, budget);
      }
      assert t + [] == t;
      WholeSurvives(t, budget);
    }

    /**
     * A run whose sink takes `writesLeft` more statements: the sink receives exactly the first `writesLeft`
     * statements of the run's trace, and the run succeeds when that is all of them.  A disabled checkpoint is
     * neither read nor written.
     */
    method Run(latest: uint64) returns (ok: bool)
      modifies this`seen, sink
      ensures batchSize == 0 || addresses == [] ==> !ok && sink.Value() == old(sink.Value())
      ensures batchSize > 0 && addresses != [] ==>
        var from := StartFrom(fromBlock, if checkpointEnabled then old(sink.mark) else None);
        var to := if toBlock == 0 then latest else toBlock;
        var t := if from > to then [] else RangesTrace(chain, Split(from, to, batchSize), old(seen), checkpointEnabled);
        && sink.Value() == Apply(old(sink.Value()), Survives(t, old(sink.writesLeft)))
        && ok == (|t| <= old(sink.writesLeft))
    {
      hide RangesTrace;
      hide Split;
      ok := false;
      if batchSize == 0 {
        return;
      }
      if |addresses| == 0 {
        return;
      }
      var from, to := fromBlock, toBlock;
      if to == 0 {
        to := latest;
      }
      var cp: Option<uint64> := if checkpointEnabled then sink.mark else None;
      if cp.Some? && cp.value >= from {
        from := Wrap64(cp.value + 1);
      }
      if from > to {
        return true;
      }
      var ranges := SplitRange(from, to, batchSize);
      ok := RunBatches(ranges.value);
    }
  }

  /** One more run: a new Runner against the output and the checkpoint the last one left. */
  method RunAgain(
    fromBlock: uint64, toBlock: uint64, addresses: seq<string>, batchSize: uint64, chain: Chain, sink: Sink,
    latest: uint64)
    returns (ok: bool, ghost a: Attempt)
    requires batchSize > 0 && addresses != []
    modifies sink
    ensures a == Attempt(if toBlock == 0 then latest else toBlock, batchSize, old(sink.writesLeft))
    ensures sink.Value() == After(chain, fromBlock, old(sink.Value()), a)
    ensures ok == (|AttemptTrace(chain, fromBlock, old(sink.Value()), a)| <= a.survives)
  {
    hide Apply;
    hide RangesTrace;
    a := Attempt(if toBlock == 0 then latest else toBlock, batchSize, sink.writesLeft);
    var runner := new Runner(fromBlock, toBlock, addresses, batchSize, true, chain, sink);
    ok := runner.Run(latest);
  }

  /**
   * A history of runs from an empty output, run i up to block `tos[i]` (0 stands for the latest block then)
   * against a sink that takes `budgets[i]` more statements.  Every log up to the checkpoint is in the output,
   * and nothing but logs of the chain; none of them lies before the first block, unless a run started from a
   * checkpoint at the last 64-bit block.
   */
  method RunHistory(
    fromBlock: uint64, tos: seq<uint64>, latests: seq<uint64>, addresses: seq<string>, batchSize: uint64,
    budgets: seq<nat>, chain: Chain, sink: Sink)
    returns (ghost history: seq<Attempt>)
    requires batchSize > 0 && addresses != [] && |tos| == |latests| == |budgets| && IsChain(chain)
    requires sink.Value() == Durable([], None)
    modifies sink
    ensures AllValid(history) && sink.Value() == Final(chain, fromBlock, history) && |history| == |tos|
    ensures forall i :: 0 <= i < |tos| ==>
      history[i] == Attempt(if tos[i] == 0 then latests[i] else tos[i], batchSize, budgets[i])
    ensures forall l: Log :: sink.mark.Some? && fromBlock <= l.block <= sink.mark.value && l in chain(l.block) ==>
      l in sink.out
    ensures forall l: Log :: l in sink.out ==> l in chain(l.block)
    ensures Resumable(chain, fromBlock, history) ==> forall l: Log :: l in sink.out ==> fromBlock <= l.block
  {
    hide After;
    hide IsChain;
    hide Final;
    hide AttemptTrace;
    hide AllValid;
    hide Resumable;
    history := [];
    FinalOfNone(chain, fromBlock);
    for i := 0 to |tos|
      invariant |history| == i && AllValid(history) && sink.Value() == Final(chain, fromBlock, history)
      invariant forall j :: 0 <= j < i ==>
        history[j] == Attempt(if tos[j] == 0 then latests[j] else tos[j], batchSize, budgets[j])
    {
      sink.writesLeft := budgets[i];
      var ok;
      ghost var a;
      ok, a := RunAgain(fromBlock, tos[i], addresses, batchSize, chain, sink, latests[i]);
      FinalSnoc(chain, fromBlock, history, a);
      history := history + [a];
    }
    HistoryIsBacked(chain, fromBlock, history);
  }

  lemma HistoryIsBacked(chain: Chain, fromBlock: uint64, history: seq<Attempt>)
    requires IsChain(chain) && AllValid(history)
    ensures var d := Final(chain, fromBlock, history);
      && (forall l: Log :: d.mark.Some? && fromBlock <= l.block <= d.mark.value && l in chain(l.block) ==> l in d.out)
      && (forall l: Log :: l in d.out ==> l in chain(l.block))
      && (Resumable(chain, fromBlock, history) ==> forall l: Log :: l in d.out ==> fromBlock <= l.block)
  {
    hide Final;
    hide IsChain;
    hide AllValid;
    hide Resumable;
    var d := Final(chain, fromBlock, history);
    forall l: Log | d.mark.Some? && fromBlock <= l.block <= d.mark.value && l in chain(l.block)
      ensures l in d.out
    {
      CheckpointIsBacked(chain, fromBlock, history, l);
    }
    forall l: Log | l in d.out
      ensures l in chain(l.block)
      ensures Resumable(chain, fromBlock, history) ==> fromBlock <= l.block
    {
      OutputIsFromChain(chain, fromBlock, history, l);
    }
  }

  lemma Grouped(s: seq<Write>, t: seq<Write>, u: seq<Write>)
    ensures s + (t + u) == s + t + u
  {
  }

  lemma WholeSurvives(t: seq<Write>, budget: nat)
    ensures |t| <= budget ==> Survives(t, budget) == t
    ensures |t| > budget ==> Survives(t, budget) == t[..budget]
  {
  }

  lemma NothingApplied(d: Durable)
    ensures Apply(d, []) == d
  {
  }
}
