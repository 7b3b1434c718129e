/** Histories of ingest runs: each run may be lost after any statement, and the next one resumes. */
module IngestHistory {
  import opened Base
  import opened Ranges
  import opened Ingest

  /** `survives` is the number of statements that take effect; a run with enough of them completes. */
  datatype Attempt = Attempt(to: uint64, batchSize: uint64, survives: nat)

  function AttemptTrace(chain: Chain, fromBlock: uint64, d: Durable, a: Attempt): seq<Write>
    requires a.batchSize > 0
  {
    RunTrace(chain, StartFrom(fromBlock, d.mark), a.to, a.batchSize, true)
  }

  function After(chain: Chain, fromBlock: uint64, d: Durable, a: Attempt): Durable
    requires a.batchSize > 0
  {
    Apply(d, Survives(AttemptTrace(chain, fromBlock, d, a), a.survives))
  }

  predicate AllValid(history: seq<Attempt>) {
    forall i :: 0 <= i < |history| ==> history[i].batchSize > 0
  }

  /** The durable state after a history of runs, starting with no output and no checkpoint. */
  function Final(chain: Chain, fromBlock: uint64, history: seq<Attempt>): Durable
    requires AllValid(history)
  {
    if history == [] then Durable([], None)
    else
      After(chain, fromBlock, Final(chain, fromBlock, history[..|history| - 1]), history[|history| - 1])
  }

  lemma FinalOfNone(chain: Chain, fromBlock: uint64)
    ensures AllValid([])
    ensures Final(chain, fromBlock, []) == Durable([], None) && Resumable(chain, fromBlock, [])
  {
  }

  lemma FinalSnoc(chain: Chain, fromBlock: uint64, history: seq<Attempt>, a: Attempt)
    requires AllValid(history) && a.batchSize > 0
    ensures AllValid(history + [a])
    ensures Final(chain, fromBlock, history + [a]) == After(chain, fromBlock, Final(chain, fromBlock, history), a)
    ensures Resumable(chain, fromBlock, history + [a]) <==>
      Resumable(chain, fromBlock, history) && CanResume(Final(chain, fromBlock, history).mark)
  {
    hide After;
    hide CanResume;
    assert (history + [a])[..|history|] == history;
  }

  /** The first block not covered by the checkpoint. */
  function Next(fromBlock: uint64, mark: Option<uint64>): nat {
    match mark
    case Some(c) => if c >= fromBlock then c + 1 else fromBlock
    case None => fromBlock
  }

  /** The block after the checkpoint exists. */
  predicate CanResume(mark: Option<uint64>) {
    mark != Some(TWO_64 - 1)
  }

  /** No run of the history starts from a checkpoint at the last 64-bit block. */
  predicate Resumable(chain: Chain, fromBlock: uint64, history: seq<Attempt>)
    requires AllValid(history)
  {
    history != [] ==>
      && Resumable(chain, fromBlock, history[..|history| - 1])
      && CanResume(Final(chain, fromBlock, history[..|history| - 1]).mark)
  }

  /**
   * The resume block is the one after the checkpoint exactly when the checkpoint is not the last 64-bit block;
   * there the addition wraps and the run starts again at block 0.
   */
  lemma ResumeBlock(fromBlock: uint64, mark: Option<uint64>)
    ensures StartFrom(fromBlock, mark) == Next(fromBlock, mark) <==> CanResume(mark)
    ensures !CanResume(mark) ==> StartFrom(fromBlock, mark) == 0
  {
    WrapFits(Next(fromBlock, mark));
  }

  function LogsOf(t: seq<Write>): seq<Log> {
    if t == [] then []
    else if t[|t| - 1].Put? then LogsOf(t[..|t| - 1]) + [t[|t| - 1].log]
    else LogsOf(t[..|t| - 1])
  }

  function LastMark(t: seq<Write>, mark: Option<uint64>): Option<uint64> {
    if t == [] then mark
    else if t[|t| - 1].Mark? then Some(t[|t| - 1].block)
    else LastMark(t[..|t| - 1], mark)
  }

  lemma {:induction false} ApplyParts(d: Durable, t: seq<Write>)
    ensures Apply(d, t).out == d.out + LogsOf(t) && Apply(d, t).mark == LastMark(t, d.mark)
  {
    if t != [] {
      ApplyParts(d, t[..|t| - 1]);
    }
  }

  lemma {:induction false} PartsConcat(s: seq<Write>, t: seq<Write>, mark: Option<uint64>)
    ensures LogsOf(s + t) == LogsOf(s) + LogsOf(t)
    ensures LastMark(s + t, mark) == LastMark(t, LastMark(s, mark))
  {
    if t == [] {
      assert s + t == s;
    } else {
      PartsConcat(s, t[..|t| - 1], mark);
      assert (s + t)[..|s + t| - 1] == s + t[..|t| - 1];
    }
  }

  lemma {:induction false} PartsOfPuts(logs: seq<Log>, mark: Option<uint64>)
    ensures LogsOf(Puts(logs)) == logs && LastMark(Puts(logs), mark) == mark
  {
    if logs != [] {
      PartsOfPuts(logs[..|logs| - 1], mark);
      assert Puts(logs)[..|logs| - 1] == Puts(logs[..|logs| - 1]);
    }
  }

  /** The end (exclusive) of the batch that starts at `next`; the whole 64-bit range is always one batch. */
  function BatchLimit(next: nat, to: uint64, batchSize: uint64): nat {
    if next + batchSize <= to + 1 && !(next == 0 && to == TWO_64 - 1) then next + batchSize else to + 1
  }

  /**
   * What a run that starts at `from` has done after some of its statements: whole batches up to block `next`
   * (exclusive), their checkpoint, and `tail`, the first logs of the batch in flight.
   */
  ghost predicate HasDone(
    chain: Chain, from: nat, to: uint64, batchSize: uint64, t: seq<Write>, mark: Option<uint64>,
    next: nat, tail: seq<Log>)
  {
    && from <= next <= to + 1
    && LogsOf(t) == Distinct(chain, from, next) + tail
    && LastMark(t, mark) == (if next == from then mark else Some(next - 1))
    && PrefixOf(tail, Distinct(chain, next, BatchLimit(next, to, batchSize)))
  }

  predicate PrefixOf(s: seq<Log>, t: seq<Log>) {
    s <= t
  }

  lemma {:induction false} PrefixShape(
    chain: Chain, from: uint64, to: uint64, batchSize: uint64, k: nat, mark: Option<uint64>)
    returns (next: nat, tail: seq<Log>)
    requires IsChain(chain) && from <= to && batchSize > 0
    requires k <= |CleanTrace(chain, Split(from, to, batchSize), true)|
    ensures var t := CleanTrace(chain, Split(from, to, batchSize), true);
      HasDone(chain, from, to, batchSize, t[..k], mark, next, tail)
    ensures k == |CleanTrace(chain, Split(from, to, batchSize), true)| ==> next == to + 1 && tail == []
    decreases TWO_64 - from
  {
    hide Split;
    hide Distinct;
    hide IsChain;
    hide HasDone;
    hide BatchEnd;
    var end: int := BatchEnd(from, to, batchSize);
    BatchEndValue(from, to, batchSize);
    SplitUnfold(from, to, batchSize);
    var t := CleanTrace(chain, Split(from, to, batchSize), true);
    var logs := Distinct(chain, from, end + 1);
    var first := Puts(logs) + [Mark(end)];
    var rest := CleanTrace(chain, Split(from, to, batchSize)[1..], true);
    assert t == first + rest;
    if k <= |logs| {
      next, tail := from, logs[..k];
      assert t[..k] == Puts(tail);
      TornBatch(chain, from, to, batchSize, end, logs, k, mark);
    } else {
      FullBatch(logs, end, mark);
      if end == to {
        next, tail := to + 1, [];
        assert t[..k] == first;
        WholeRun(chain, from, to, batchSize, first, mark);
      } else {
        next, tail := PrefixShape(chain, end + 1, to, batchSize, k - |first|, Some(end));
        assert t[..k] == first + rest[..k - |first|];
        Resume(chain, from, to, batchSize, end, first, rest[..k - |first|], mark, next, tail);
      }
    }
  }

  lemma BatchEndValue(from: uint64, to: uint64, batchSize: uint64)
    requires from <= to && batchSize > 0
    ensures BatchEnd(from, to, batchSize) as int + 1 == BatchLimit(from, to, batchSize)
  {
  }

  lemma EmptyDistinct(chain: Chain, a: nat)
    ensures Distinct(chain, a, a) == []
  {
  }

  lemma TornBatch(
    chain: Chain, from: uint64, to: uint64, batchSize: uint64, end: nat, logs: seq<Log>, k: nat, mark: Option<uint64>)
    requires from <= end <= to && logs == Distinct(chain, from, end + 1) && k <= |logs|
    requires end + 1 == BatchLimit(from, to, batchSize)
    ensures HasDone(chain, from, to, batchSize, Puts(logs[..k]), mark, from, logs[..k])
  {
    hide Distinct;
    EmptyDistinct(chain, from);
    PartsOfPuts(logs[..k], mark);
  }

  lemma FullBatch(logs: seq<Log>, end: uint64, mark: Option<uint64>)
    ensures LogsOf(Puts(logs) + [Mark(end)]) == logs
    ensures LastMark(Puts(logs) + [Mark(end)], mark) == Some(end)
  {
    PartsOfPuts(logs, mark);
    PartsConcat(Puts(logs), [Mark(end)], mark);
  }

  lemma WholeRun(chain: Chain, from: uint64, to: uint64, batchSize: uint64, t: seq<Write>, mark: Option<uint64>)
    requires from <= to
    requires LogsOf(t) == Distinct(chain, from, to + 1) && LastMark(t, mark) == Some(to)
    ensures HasDone(chain, from, to, batchSize, t, mark, to + 1, [])
  {
    hide Distinct;
  }

  lemma Resume(
    chain: Chain, from: uint64, to: uint64, batchSize: uint64, end: nat, first: seq<Write>, rest: seq<Write>,
    mark: Option<uint64>, next: nat, tail: seq<Log>)
    requires IsChain(chain) && from <= end < to
    requires LogsOf(first) == Distinct(chain, from, end + 1) && LastMark(first, mark) == Some(end)
    requires HasDone(chain, end + 1, to, batchSize, rest, Some(end), next, tail)
    ensures HasDone(chain, from, to, batchSize, first + rest, mark, next, tail)
  {
    hide Distinct;
    hide IsChain;
    hide LogsOf;
    hide LastMark;
    hide PrefixOf;
    PartsConcat(first, rest, mark);
    DistinctConcat(chain, from, end + 1, next);
    Associate(Distinct(chain, from, end + 1), Distinct(chain, end + 1, next), tail);
  }

  lemma Associate(a: seq<Log>, b: seq<Log>, c: seq<Log>)
    ensures a + (b + c) == a + b + c
  {
  }

  // ----- The checkpoints themselves

  /** The checkpoints among a sequence of statements, in order. */
  function MarksOf(t: seq<Write>): seq<uint64> {
    if t == [] then []
    else if t[|t| - 1].Mark? then MarksOf(t[..|t| - 1]) + [t[|t| - 1].block]
    else MarksOf(t[..|t| - 1])
  }

  predicate Increasing(s: seq<uint64>) {
    forall i, j :: 0 <= i < j < |s| ==> s[i] < s[j]
  }

  predicate Within(s: seq<uint64>, lo: nat, hi: nat) {
    forall i :: 0 <= i < |s| ==> lo <= s[i] <= hi
  }

  lemma {:induction false} MarksConcat(s: seq<Write>, t: seq<Write>)
    ensures MarksOf(s + t) == MarksOf(s) + MarksOf(t)
  {
    if t == [] {
      assert s + t == s;
    } else {
      MarksConcat(s, t[..|t| - 1]);
      assert (s + t)[..|s + t| - 1] == s + t[..|t| - 1];
    }
  }

  lemma {:induction false} MarksOfPuts(logs: seq<Log>)
    ensures MarksOf(Puts(logs)) == []
  {
    if logs != [] {
      MarksOfPuts(logs[..|logs| - 1]);
      assert Puts(logs)[..|logs| - 1] == Puts(logs[..|logs| - 1]);
    }
  }

  lemma {:induction false} LastOfMarks(t: seq<Write>, mark: Option<uint64>)
    ensures LastMark(t, mark) == if MarksOf(t) == [] then mark else Some(MarksOf(t)[|MarksOf(t)| - 1])
  {
    if t != [] {
      LastOfMarks(t[..|t| - 1], mark);
    }
  }

  /** The checkpoints in the first `k` statements of a batch and what follows it. */
  lemma MarksOfBatch(logs: seq<Log>, end: uint64, rest: seq<Write>, k: nat)
    requires k <= |logs| + 1 + |rest|
    ensures var t := Puts(logs) + [Mark(end)] + rest;
      MarksOf(t[..k]) == if k <= |logs| then [] else [end] + MarksOf(rest[..k - |logs| - 1])
  {
    hide MarksOf;
    var t := Puts(logs) + [Mark(end)] + rest;
    if k <= |logs| {
      assert t[..k] == Puts(logs[..k]);
      MarksOfPuts(logs[..k]);
    } else {
      var more := rest[..k - |logs| - 1];
      assert t[..k] == Puts(logs) + [Mark(end)] + more;
      MarksOfPuts(logs);
      MarksConcat(Puts(logs), [Mark(end)]);
      MarksConcat(Puts(logs) + [Mark(end)], more);
      OneMark(end);
    }
  }

  lemma OneMark(end: uint64)
    ensures MarksOf([Mark(end)]) == [end]
  {
    assert [Mark(end)][..0] == [];
  }

  lemma OneMore(from: nat, end: uint64, to: nat, rest: seq<uint64>)
    requires from <= end <= to && Increasing(rest) && Within(rest, end + 1, to)
    ensures Increasing([end] + rest) && Within([end] + rest, from, to)
  {
  }

  /** The checkpoints one run saves, lost after any number of statements, increase and lie in its interval. */
  lemma {:induction false} MarksIncrease(chain: Chain, from: uint64, to: uint64, batchSize: uint64, k: nat)
    requires from <= to && batchSize > 0
    requires k <= |CleanTrace(chain, Split(from, to, batchSize), true)|
    ensures var marks := MarksOf(CleanTrace(chain, Split(from, to, batchSize), true)[..k]);
      Increasing(marks) && Within(marks, from, to)
    decreases TWO_64 - from
  {
    hide Split;
    hide Distinct;
    hide BatchEnd;
    hide MarksOf;
    hide Puts;
    SplitUnfold(from, to, batchSize);
    var end := BatchEnd(from, to, batchSize);
    BatchEndBounds(from, to, batchSize);
    var logs := Distinct(chain, from, end as int + 1);
    var n, ranges := |logs| + 1, Split(from, to, batchSize);
    var rest := CleanTrace(chain, ranges[1..], true);
    PutsLength(logs);
    assert CleanTrace(chain, ranges, true) == Puts(logs) + [Mark(end)] + rest;
    MarksOfBatch(logs, end, rest, k);
    if k >= n {
      hide Increasing;
      hide Within;
      if end < to {
        MarksIncrease(chain, end + 1, to, batchSize, k - n);
      } else {
        NoMarks(end + 1, to);
      }
      OneMore(from, end, to, MarksOf(rest[..k - n]));
    }
  }

  lemma PutsLength(logs: seq<Log>)
    ensures |Puts(logs)| == |logs|
  {
  }

  lemma NoMarks(lo: nat, hi: nat)
    ensures MarksOf([]) == [] && Increasing([]) && Within([], lo, hi)
  {
  }

  lemma BatchEndBounds(from: uint64, to: uint64, batchSize: uint64)
    requires from <= to && batchSize > 0
    ensures from <= BatchEnd(from, to, batchSize) <= to
  {
  }

  /** The checkpoints that took effect in one run. */
  function SavedMarks(chain: Chain, fromBlock: uint64, d: Durable, a: Attempt): seq<uint64>
    requires a.batchSize > 0
  {
    MarksOf(Survives(AttemptTrace(chain, fromBlock, d, a), a.survives))
  }

  /** The first block a run has not covered when it ends or is lost. */
  function NextBlock(chain: Chain, fromBlock: uint64, d: Durable, a: Attempt): nat
    requires a.batchSize > 0
  {
    var marks := SavedMarks(chain, fromBlock, d, a);
    if marks == [] then StartFrom(fromBlock, d.mark) as int else marks[|marks| - 1] as int + 1
  }

  // ----- What a run leaves

  /**
   * One run, lost or not: it appends the distinct logs of whole batches from the resume block on, then at most
   * the first logs of one more batch, and the checkpoint covers exactly the whole batches.
   */
  lemma RunShape(chain: Chain, fromBlock: uint64, d: Durable, a: Attempt) returns (next: nat, tail: seq<Log>)
    requires IsChain(chain) && a.batchSize > 0
    ensures var d', start := After(chain, fromBlock, d, a), StartFrom(fromBlock, d.mark);
      && next == NextBlock(chain, fromBlock, d, a)
      && start <= next && (start < next ==> next <= a.to + 1)
      && d'.out == d.out + Distinct(chain, start, next) + tail
      && d'.mark == (if next == start then d.mark else Some(next - 1))
      && tail <= Distinct(chain, next, BatchLimit(next, a.to, a.batchSize))
      && (a.survives >= |AttemptTrace(chain, fromBlock, d, a)| ==> tail == [] && next > a.to)
  {
    hide Distinct;
    hide IsChain;
    hide Apply;
    hide LogsOf;
    hide LastMark;
    hide RunTrace;
    hide CleanTrace;
    hide Split;
    hide StartFrom;
    hide MarksOf;
    var from := StartFrom(fromBlock, d.mark);
    var t := AttemptTrace(chain, fromBlock, d, a);
    var k := if a.survives < |t| then a.survives else |t|;
    assert Survives(t, a.survives) == t[..k];
    ApplyParts(d, t[..k]);
    next, tail := from, [];
    if from > a.to {
      NothingSent(chain, from, a);
      NothingDone(chain, d, from);
    } else {
      RunIsClean(chain, from, a.to, a.batchSize, true);
      next, tail := PrefixShape(chain, from, a.to, a.batchSize, k, None);
      LastOfMarks(t[..k], None);
      LastOfMarks(t[..k], d.mark);
      Associate(d.out, Distinct(chain, from, next), tail);
    }
  }

  lemma NothingSent(chain: Chain, from: uint64, a: Attempt)
    requires a.batchSize > 0 && from > a.to
    ensures RunTrace(chain, from, a.to, a.batchSize, true) == []
  {
  }

  lemma NothingDone(chain: Chain, d: Durable, from: nat)
    ensures d.out + LogsOf([]) == d.out + Distinct(chain, from, from) + [] && LastMark([], d.mark) == d.mark
    ensures MarksOf([]) == []
  {
    EmptyDistinct(chain, from);
  }

  lemma PrefixMembers(s: seq<Log>, t: seq<Log>)
    requires s <= t
    ensures forall l :: l in s ==> l in t
  {
  }

  /** The logs of a whole interval followed by the first logs of the next one are the first logs of both. */
  lemma JoinedPrefix(chain: Chain, a: nat, mid: nat, end: nat, tail: seq<Log>)
    requires IsChain(chain) && a <= mid && tail <= Distinct(chain, mid, end)
    ensures Distinct(chain, a, mid) + tail <= Distinct(chain, a, if mid <= end then end else mid)
  {
    hide IsChain;
    hide Distinct;
    if mid <= end {
      DistinctConcat(chain, a, mid, end);
    } else {
      NoBlocks(chain, mid, end);
    }
  }

  lemma NoBlocks(chain: Chain, a: nat, end: nat)
    requires end <= a
    ensures Distinct(chain, a, end) == []
  {
  }

  /**
   * What one run appends, lost or not, resumed or started again at block 0: logs of the chain from its first
   * block on, none of them twice, in block order.
   */
  lemma RunOutput(chain: Chain, fromBlock: uint64, d: Durable, a: Attempt)
    requires IsChain(chain) && a.batchSize > 0
    ensures var d' := After(chain, fromBlock, d, a);
      && d.out <= d'.out
      && var added := d'.out[|d.out|..];
         && (forall i, j :: 0 <= i < j < |added| ==> added[i] != added[j])
         && BlockSorted(added)
         && (forall l :: l in added ==> StartFrom(fromBlock, d.mark) <= l.block && l in chain(l.block))
  {
    hide Distinct;
    hide IsChain;
    hide After;
    hide StartFrom;
    hide AttemptTrace;
    var start := StartFrom(fromBlock, d.mark);
    var next, tail := RunShape(chain, fromBlock, d, a);
    var end := BatchLimit(next, a.to, a.batchSize);
    var last: nat := if next <= end then end else next;
    JoinedPrefix(chain, start, next, end, tail);
    DistinctExact(chain, start, last);
    var added := After(chain, fromBlock, d, a).out[|d.out|..];
    assert added == Distinct(chain, start, next) + tail;
    PrefixMembers(added, Distinct(chain, start, last));
  }

  /** A run that starts from a checkpoint at the last 64-bit block appends every block again, from block 0 on. */
  lemma WrapRepeats(chain: Chain, fromBlock: uint64, d: Durable, a: Attempt)
    requires IsChain(chain) && a.batchSize > 0 && !CanResume(d.mark)
    requires a.survives >= |AttemptTrace(chain, fromBlock, d, a)|
    ensures After(chain, fromBlock, d, a).out == d.out + Distinct(chain, 0, a.to + 1)
  {
    hide Distinct;
    hide IsChain;
    hide After;
    hide AttemptTrace;
    ResumeBlock(fromBlock, d.mark);
    var next, tail := RunShape(chain, fromBlock, d, a);
    assert Distinct(chain, 0, next) + [] == Distinct(chain, 0, next);
  }

  /** The logs a lost run appended after its last checkpoint. */
  function Tail(chain: Chain, fromBlock: uint64, d: Durable, a: Attempt): seq<Log>
    requires IsChain(chain) && a.batchSize > 0
  {
    var whole := d.out + Distinct(chain, StartFrom(fromBlock, d.mark), NextBlock(chain, fromBlock, d, a));
    TailExists(chain, fromBlock, d, a);
    After(chain, fromBlock, d, a).out[|whole|..]
  }

  lemma TailExists(chain: Chain, fromBlock: uint64, d: Durable, a: Attempt)
    requires IsChain(chain) && a.batchSize > 0
    ensures d.out + Distinct(chain, StartFrom(fromBlock, d.mark), NextBlock(chain, fromBlock, d, a))
      <= After(chain, fromBlock, d, a).out
  {
    hide Distinct;
    hide IsChain;
    hide After;
    hide NextBlock;
    var next, tail := RunShape(chain, fromBlock, d, a);
  }

  /** The torn tails of a history, in order. */
  function Tails(chain: Chain, fromBlock: uint64, history: seq<Attempt>): seq<Log>
    requires IsChain(chain) && AllValid(history)
  {
    if history == [] then []
    else
      var init := history[..|history| - 1];
      Tails(chain, fromBlock, init) + Tail(chain, fromBlock, Final(chain, fromBlock, init), history[|history| - 1])
  }

  /** No run that starts from a checkpoint at the last 64-bit block, and so from block 0, saves a checkpoint. */
  predicate NoWrappedSave(chain: Chain, fromBlock: uint64, history: seq<Attempt>)
    requires AllValid(history)
  {
    history != [] ==>
      var init := history[..|history| - 1];
      var d := Final(chain, fromBlock, init);
      && NoWrappedSave(chain, fromBlock, init)
      && (CanResume(d.mark) || SavedMarks(chain, fromBlock, d, history[|history| - 1]) == [])
  }

  /**
   * The output of any history is each log up to the checkpoint exactly once, plus the torn tails: nothing is
   * missed, and nothing but a batch in flight is ever repeated.
   */
  lemma {:induction false} HistoryOutput(chain: Chain, fromBlock: uint64, history: seq<Attempt>)
    requires IsChain(chain) && AllValid(history) && NoWrappedSave(chain, fromBlock, history)
    ensures var d := Final(chain, fromBlock, history);
      multiset(d.out) ==
        multiset(Distinct(chain, fromBlock, Next(fromBlock, d.mark))) + multiset(Tails(chain, fromBlock, history))
  {
    hide Distinct;
    hide IsChain;
    hide After;
    hide CanResume;
    hide SavedMarks;
    hide Next;
    hide StartFrom;
    if history == [] {
      EmptyDistinct(chain, fromBlock);
      NoCheckpoint(fromBlock);
    } else {
      var init, a := history[..|history| - 1], history[|history| - 1];
      var d := Final(chain, fromBlock, init);
      HistoryOutput(chain, fromBlock, init);
      StepOutput(chain, fromBlock, d, a);
      var d' := After(chain, fromBlock, d, a);
      hide Tail;
      Accumulate(d.out, d'.out, Distinct(chain, fromBlock, Next(fromBlock, d.mark)),
                 Distinct(chain, fromBlock, Next(fromBlock, d'.mark)), Tails(chain, fromBlock, init),
                 Tail(chain, fromBlock, d, a));
    }
  }

  lemma NoCheckpoint(fromBlock: uint64)
    ensures Next(fromBlock, None) == fromBlock
  {
  }

  lemma Accumulate(out: seq<Log>, out': seq<Log>, all: seq<Log>, all': seq<Log>, tails: seq<Log>, tail: seq<Log>)
    requires multiset(out) == multiset(all) + multiset(tails)
    requires multiset(out') + multiset(all) == multiset(out) + multiset(all') + multiset(tail)
    ensures multiset(out') == multiset(all') + multiset(tails + tail)
  {
    var a, b := multiset(out') + multiset(all), multiset(all') + multiset(tails + tail) + multiset(all);
    assert a == b;
    assert multiset(out') == a - multiset(all);
    assert multiset(all') + multiset(tails + tail) == b - multiset(all);
  }

  lemma Appended(out: seq<Log>, all: seq<Log>, batches: seq<Log>, tail: seq<Log>)
    ensures multiset(out + batches + tail) + multiset(all) ==
      multiset(out) + multiset(all + batches) + multiset(tail)
  {
  }

  /** One run adds the logs between the old and the new checkpoint, and its torn tail. */
  lemma StepOutput(chain: Chain, fromBlock: uint64, d: Durable, a: Attempt)
    requires IsChain(chain) && a.batchSize > 0
    requires CanResume(d.mark) || SavedMarks(chain, fromBlock, d, a) == []
    ensures var d' := After(chain, fromBlock, d, a);
      multiset(d'.out) + multiset(Distinct(chain, fromBlock, Next(fromBlock, d.mark))) ==
        multiset(d.out) + multiset(Distinct(chain, fromBlock, Next(fromBlock, d'.mark)))
          + multiset(Tail(chain, fromBlock, d, a))
  {
    hide Distinct;
    hide IsChain;
    hide After;
    hide SavedMarks;
    hide NextBlock;
    var next, tail := RunShape(chain, fromBlock, d, a);
    var d', start := After(chain, fromBlock, d, a), StartFrom(fromBlock, d.mark);
    assert tail == Tail(chain, fromBlock, d, a);
    StepCovers(chain, fromBlock, d, a, next);
    Appended(d.out, Distinct(chain, fromBlock, Next(fromBlock, d.mark)), Distinct(chain, start, next), tail);
  }

  lemma StepCovers(chain: Chain, fromBlock: uint64, d: Durable, a: Attempt, next: nat)
    requires IsChain(chain) && a.batchSize > 0 && next == NextBlock(chain, fromBlock, d, a)
    requires CanResume(d.mark) || SavedMarks(chain, fromBlock, d, a) == []
    requires StartFrom(fromBlock, d.mark) <= next <= TWO_64
    requires After(chain, fromBlock, d, a).mark ==
      if next == StartFrom(fromBlock, d.mark) then d.mark else Some(next - 1)
    ensures Distinct(chain, fromBlock, Next(fromBlock, d.mark)) + Distinct(chain, StartFrom(fromBlock, d.mark), next)
         == Distinct(chain, fromBlock, Next(fromBlock, After(chain, fromBlock, d, a).mark))
  {
    hide Distinct;
    hide IsChain;
    hide After;
    hide SavedMarks;
    hide NextBlock;
    hide StartFrom;
    hide Next;
    var start := StartFrom(fromBlock, d.mark);
    if CanResume(d.mark) {
      NextOfSaved(fromBlock, d.mark, next);
      DistinctConcat(chain, fromBlock, start, next);
    } else {
      var all := Distinct(chain, fromBlock, Next(fromBlock, d.mark));
      assert next == start by {
        NoMarksNoMove(chain, fromBlock, d, a);
      }
      EmptyDistinct(chain, start);
      assert all + [] == all;
    }
  }

  lemma NoMarksNoMove(chain: Chain, fromBlock: uint64, d: Durable, a: Attempt)
    requires a.batchSize > 0 && SavedMarks(chain, fromBlock, d, a) == []
    ensures NextBlock(chain, fromBlock, d, a) == StartFrom(fromBlock, d.mark)
  {
    hide SavedMarks;
  }

  /** The first uncovered block, before a run that can resume and after it. */
  lemma NextOfSaved(fromBlock: uint64, mark: Option<uint64>, next: nat)
    requires CanResume(mark) && StartFrom(fromBlock, mark) <= next <= TWO_64
    ensures fromBlock <= StartFrom(fromBlock, mark) == Next(fromBlock, mark)
    ensures Next(fromBlock, if next == StartFrom(fromBlock, mark) then mark else Some(next - 1)) == next
  {
    ResumeBlock(fromBlock, mark);
  }

  /** Every checkpoint is backed by the output, over any history of runs and crashes. */
  lemma {:induction false} CheckpointIsBacked(chain: Chain, fromBlock: uint64, history: seq<Attempt>, l: Log)
    requires IsChain(chain) && AllValid(history)
    ensures var d := Final(chain, fromBlock, history);
      d.mark.Some? && fromBlock <= l.block <= d.mark.value && l in chain(l.block) ==> l in d.out
  {
    hide Distinct;
    hide IsChain;
    hide After;
    hide NextBlock;
    if history != [] {
      var init, a := history[..|history| - 1], history[|history| - 1];
      var d := Final(chain, fromBlock, init);
      CheckpointIsBacked(chain, fromBlock, init, l);
      var next, tail := RunShape(chain, fromBlock, d, a);
      ResumeBlock(fromBlock, d.mark);
      DistinctExact(chain, StartFrom(fromBlock, d.mark), next);
    }
  }

  /**
   * The output holds only logs of the chain; none of them lies before the first block, unless a run started
   * from a checkpoint at the last 64-bit block.
   */
  lemma {:induction false} OutputIsFromChain(chain: Chain, fromBlock: uint64, history: seq<Attempt>, l: Log)
    requires IsChain(chain) && AllValid(history) && l in Final(chain, fromBlock, history).out
    ensures l in chain(l.block)
    ensures Resumable(chain, fromBlock, history) ==> fromBlock <= l.block
  {
    hide IsChain;
    hide After;
    var init, a := history[..|history| - 1], history[|history| - 1];
    var d := Final(chain, fromBlock, init);
    RunOutput(chain, fromBlock, d, a);
    ResumeBlock(fromBlock, d.mark);
    if l in d.out {
      OutputIsFromChain(chain, fromBlock, init, l);
    } else {
      var d' := After(chain, fromBlock, d, a);
      assert d'.out == d.out + d'.out[|d.out|..];
    }
  }

  /** What one lost run may repeat later: the first distinct logs of the one batch after what it covered. */
  lemma TailIsOneBatch(chain: Chain, fromBlock: uint64, d: Durable, a: Attempt, l: Log)
    requires IsChain(chain) && a.batchSize > 0
    ensures var next := NextBlock(chain, fromBlock, d, a);
      var end := BatchLimit(next, a.to, a.batchSize);
      && Tail(chain, fromBlock, d, a) <= Distinct(chain, next, end)
      && (l in Tail(chain, fromBlock, d, a) ==> next <= l.block < end && l in chain(l.block))
      && (a.survives >= |AttemptTrace(chain, fromBlock, d, a)| ==> Tail(chain, fromBlock, d, a) == [])
  {
    hide Distinct;
    hide After;
    hide AttemptTrace;
    hide IsChain;
    hide NextBlock;
    var next, tail := RunShape(chain, fromBlock, d, a);
    assert Tail(chain, fromBlock, d, a) == tail;
    DistinctExact(chain, next, BatchLimit(next, a.to, a.batchSize));
    PrefixMembers(tail, Distinct(chain, next, BatchLimit(next, a.to, a.batchSize)));
  }

  // ----- The checkpoints of a history

  /** The checkpoints that took effect over a history, in order. */
  function HistoryMarks(chain: Chain, fromBlock: uint64, history: seq<Attempt>): seq<uint64>
    requires AllValid(history)
  {
    if history == [] then []
    else
      var init := history[..|history| - 1];
      HistoryMarks(chain, fromBlock, init)
        + SavedMarks(chain, fromBlock, Final(chain, fromBlock, init), history[|history| - 1])
  }

  /** One run saves increasing checkpoints at or after its first block, and the last one is the durable one. */
  lemma RunMarks(chain: Chain, fromBlock: uint64, d: Durable, a: Attempt)
    requires IsChain(chain) && a.batchSize > 0
    ensures var marks := SavedMarks(chain, fromBlock, d, a);
      && Increasing(marks) && Within(marks, StartFrom(fromBlock, d.mark), a.to)
      && After(chain, fromBlock, d, a).mark == if marks == [] then d.mark else Some(marks[|marks| - 1])
  {
    hide Apply;
    hide CleanTrace;
    hide RunTrace;
    hide Split;
    hide IsChain;
    hide StartFrom;
    hide LastMark;
    var from, t := StartFrom(fromBlock, d.mark), AttemptTrace(chain, fromBlock, d, a);
    var k := if a.survives < |t| then a.survives else |t|;
    assert Survives(t, a.survives) == t[..k];
    ApplyParts(d, t[..k]);
    LastOfMarks(t[..k], d.mark);
    if from > a.to {
      NothingSent(chain, from, a);
    } else {
      RunIsClean(chain, from, a.to, a.batchSize, true);
      MarksIncrease(chain, from, a.to, a.batchSize, k);
    }
  }

  lemma JoinIncreasing(s: seq<uint64>, t: seq<uint64>, lo: nat, mid: nat, hi: nat)
    requires Increasing(s) && Within(s, lo, hi) && (s != [] ==> s[|s| - 1] < mid)
    requires Increasing(t) && Within(t, mid, hi) && lo <= mid
    ensures Increasing(s + t) && Within(s + t, lo, hi)
  {
    forall i | 0 <= i < |s|
      ensures s[i] < mid
    {
      assert s[i] <= s[|s| - 1];
    }
  }

  lemma PartIncreases(s: seq<uint64>, t: seq<uint64>)
    ensures Increasing(s + t) ==> Increasing(s)
    ensures s != [] && t != [] && t[0] <= s[|s| - 1] ==> !Increasing(s + t)
  {
    if Increasing(s + t) {
      forall i, j | 0 <= i < j < |s|
        ensures s[i] < s[j]
      {
        assert (s + t)[i] < (s + t)[j];
      }
      if s != [] && t != [] {
        assert (s + t)[|s| - 1] < (s + t)[|s|];
      }
    }
  }

  /** Whether the checkpoints of one more run continue an increasing sequence. */
  lemma MarksStep(s: seq<uint64>, t: seq<uint64>, fromBlock: uint64, mark: Option<uint64>, hi: uint64)
    requires mark == if s == [] then None else Some(s[|s| - 1])
    requires Increasing(t) && Within(t, StartFrom(fromBlock, mark), hi)
    ensures Increasing(s + t) <==> Increasing(s) && (CanResume(mark) || t == [])
    ensures Increasing(s + t) && Within(s, fromBlock, TWO_64 - 1) ==> Within(s + t, fromBlock, TWO_64 - 1)
  {
    ResumeBlock(fromBlock, mark);
    PartIncreases(s, t);
    if t == [] {
      assert s + t == s;
    } else if CanResume(mark) && Increasing(s) {
      assert Within(s, 0, TWO_64 - 1) && Within(t, Next(fromBlock, mark), TWO_64 - 1);
      JoinIncreasing(s, t, 0, Next(fromBlock, mark), TWO_64 - 1);
    }
  }

  /**
   * Over any history of runs and crashes the durable checkpoint is the last one saved.  The checkpoints that
   * take effect strictly increase exactly when no run that starts from a checkpoint at the last 64-bit block
   * saves one.
   */
  lemma {:induction false} HistoryMarksIncrease(chain: Chain, fromBlock: uint64, history: seq<Attempt>)
    requires IsChain(chain) && AllValid(history)
    ensures var marks, d := HistoryMarks(chain, fromBlock, history), Final(chain, fromBlock, history);
      && d.mark == (if marks == [] then None else Some(marks[|marks| - 1]))
      && (Increasing(marks) <==> NoWrappedSave(chain, fromBlock, history))
      && (Increasing(marks) ==> Within(marks, fromBlock, TWO_64 - 1))
  {
    hide IsChain;
    hide After;
    hide SavedMarks;
    hide StartFrom;
    hide CanResume;
    hide Increasing;
    hide Within;
    if history == [] {
      NoMarks(fromBlock, TWO_64 - 1);
    } else {
      var init, a := history[..|history| - 1], history[|history| - 1];
      var d := Final(chain, fromBlock, init);
      HistoryMarksIncrease(chain, fromBlock, init);
      RunMarks(chain, fromBlock, d, a);
      MarksStep(HistoryMarks(chain, fromBlock, init), SavedMarks(chain, fromBlock, d, a), fromBlock, d.mark, a.to);
    }
  }
}
