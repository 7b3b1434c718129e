/**
 * The output file as text.  A lost run may leave the first characters of a line; the next run appends its first
 * record to them, and a reader finds no record in the joined line.
 */
module TornLines {
  import opened Base
  import opened Ranges
  import opened Ingest
  import opened TextLines
  import opened IngestHistory

  // ----- What a run appends

  /** `chars` characters of the record after the last whole one are written too. */
  datatype TextAttempt = TextAttempt(run: Attempt, chars: nat, stamp: Log -> string)

  function LineOf(line: Format, a: TextAttempt, l: Log): string {
    line(l, a.stamp(l))
  }

  function Render(line: Format, a: TextAttempt, logs: seq<Log>): string {
    if logs == [] then ""
    else Render(line, a, logs[..|logs| - 1]) + LineOf(line, a, logs[|logs| - 1]) + "\n"
  }

  /** The logs whose records a run appends as a whole. */
  function Added(chain: Chain, fromBlock: uint64, d: Durable, a: Attempt): seq<Log>
    requires a.batchSize > 0
  {
    LogsOf(Survives(AttemptTrace(chain, fromBlock, d, a), a.survives))
  }

  /** The part of a line a lost run leaves at the end, possibly all of it but the newline. */
  function Torn(line: Format, chain: Chain, fromBlock: uint64, d: Durable, a: TextAttempt): string
    requires a.run.batchSize > 0
  {
    var t, k := AttemptTrace(chain, fromBlock, d, a.run), a.run.survives;
    if k < |t| && t[k].Put? then Survives(LineOf(line, a, t[k].log), a.chars) else ""
  }

  function TextAfter(line: Format, chain: Chain, fromBlock: uint64, text: string, d: Durable, a: TextAttempt): string
    requires a.run.batchSize > 0
  {
    text + Render(line, a, Added(chain, fromBlock, d, a.run)) + Torn(line, chain, fromBlock, d, a)
  }

  predicate AllRun(history: seq<TextAttempt>) {
    forall i :: 0 <= i < |history| ==> history[i].run.batchSize > 0
  }

  function Runs(history: seq<TextAttempt>): seq<Attempt> {
    seq(|history|, i requires 0 <= i < |history| => history[i].run)
  }

  /** Checkpoint and whole records after a history. */
  function State(chain: Chain, fromBlock: uint64, history: seq<TextAttempt>): Durable
    requires AllRun(history)
  {
    Final(chain, fromBlock, Runs(history))
  }

  /** The text of the output file after a history. */
  function FileText(line: Format, chain: Chain, fromBlock: uint64, history: seq<TextAttempt>): string
    requires AllRun(history)
  {
    if history == [] then ""
    else
      var init := history[..|history| - 1];
      TextAfter(line, chain, fromBlock, FileText(line, chain, fromBlock, init), State(chain, fromBlock, init),
                history[|history| - 1])
  }

  // ----- Which records can be read

  ghost predicate Readable(line: Format, text: string, l: Log) {
    exists t :: line(l, t) in Lines(text)
  }

  /** A whole line holds the record. */
  ghost predicate Kept(line: Format, text: string, l: Log) {
    exists t :: line(l, t) in Closed(text)
  }

  /** Every log from the first block up to the checkpoint can be read from the file. */
  ghost predicate Backed(line: Format, chain: Chain, fromBlock: uint64, text: string, mark: Option<uint64>) {
    mark.Some? ==>
      forall l: Log :: fromBlock <= l.block <= mark.value && l in chain(l.block) ==> Readable(line, text, l)
  }

  ghost predicate KeptUpTo(line: Format, chain: Chain, fromBlock: uint64, text: string, mark: Option<uint64>) {
    mark.Some? ==>
      forall l: Log :: fromBlock <= l.block <= mark.value && l in chain(l.block) ==> Kept(line, text, l)
  }

  /**
   * A run starts on a file with a torn last line, and saves a checkpoint over its first record, which no whole
   * line of the file holds.
   */
  ghost predicate Loses(
    line: Format, chain: Chain, fromBlock: uint64, text: string, d: Durable, a: TextAttempt)
    requires a.run.batchSize > 0
  {
    var added := Added(chain, fromBlock, d, a.run);
    && Open(text) != "" && added != []
    && fromBlock <= added[0].block < NextBlock(chain, fromBlock, d, a.run)
    && !Kept(line, text, added[0])
  }

  /** The lines of logs appended after `open`, which stays at the front of the first. */
  function Joined(line: Format, a: TextAttempt, open: string, logs: seq<Log>): seq<string>
    requires logs != []
  {
    if |logs| == 1 then [open + LineOf(line, a, logs[0])]
    else Joined(line, a, open, logs[..|logs| - 1]) + [LineOf(line, a, logs[|logs| - 1])]
  }

  lemma {:induction false} JoinedAt(line: Format, a: TextAttempt, open: string, logs: seq<Log>)
    requires logs != []
    ensures var s := Joined(line, a, open, logs);
      && |s| == |logs| && s[0] == open + LineOf(line, a, logs[0])
      && forall i :: 0 < i < |logs| ==> s[i] == LineOf(line, a, logs[i])
  {
    if |logs| > 1 {
      JoinedAt(line, a, open, logs[..|logs| - 1]);
    }
  }

  lemma OneLine(line: Format, a: TextAttempt, l: Log)
    requires IsFormat(line)
    ensures '\n' !in LineOf(line, a, l)
  {
    assert OneObject(LineOf(line, a, l));
  }

  lemma {:induction false} RenderedLines(line: Format, a: TextAttempt, text: string, logs: seq<Log>)
    requires IsFormat(line) && logs != []
    ensures Open(text + Render(line, a, logs)) == ""
    ensures Closed(text + Render(line, a, logs)) == Closed(text) + Joined(line, a, Open(text), logs)
  {
    hide Open;
    hide Closed;
    hide IsFormat;
    hide LineOf;
    var init, l := logs[..|logs| - 1], logs[|logs| - 1];
    var before, s := text + Render(line, a, init), LineOf(line, a, l);
    OneLine(line, a, l);
    assert text + Render(line, a, logs) == before + s + "\n";
    EndLine(before, s);
    if |logs| == 1 {
      assert before == text;
    } else {
      RenderedLines(line, a, text, init);
      assert "" + s == s;
    }
  }

  lemma TornIsOpen(line: Format, chain: Chain, fromBlock: uint64, d: Durable, a: TextAttempt)
    requires IsFormat(line) && a.run.batchSize > 0
    ensures var s := Torn(line, chain, fromBlock, d, a);
      '\n' !in s && (s != "" ==> s[0] == '{')
  {
    hide AttemptTrace;
    var t, k := AttemptTrace(chain, fromBlock, d, a.run), a.run.survives;
    if k < |t| && t[k].Put? {
      assert OneObject(LineOf(line, a, t[k].log));
    }
  }

  /** The whole lines and the torn end after a run. */
  lemma TextShape(line: Format, chain: Chain, fromBlock: uint64, text: string, d: Durable, a: TextAttempt)
    requires IsFormat(line) && a.run.batchSize > 0
    ensures var added := Added(chain, fromBlock, d, a.run);
      var text' := TextAfter(line, chain, fromBlock, text, d, a);
      && Closed(text') == Closed(text) + (if added == [] then [] else Joined(line, a, Open(text), added))
      && Open(text') == (if added == [] then Open(text) else "") + Torn(line, chain, fromBlock, d, a)
  {
    hide Open;
    hide Closed;
    hide Joined;
    hide Added;
    hide Torn;
    hide IsFormat;
    var added, torn := Added(chain, fromBlock, d, a.run), Torn(line, chain, fromBlock, d, a);
    TornIsOpen(line, chain, fromBlock, d, a);
    MoreOpen(text + Render(line, a, added), torn);
    if added == [] {
      assert text + Render(line, a, added) == text;
      assert Closed(text) + [] == Closed(text);
    } else {
      RenderedLines(line, a, text, added);
    }
  }

  // ----- One run

  lemma AddedIsNew(chain: Chain, fromBlock: uint64, d: Durable, a: Attempt)
    requires a.batchSize > 0
    ensures After(chain, fromBlock, d, a).out == d.out + Added(chain, fromBlock, d, a)
    ensures Added(chain, fromBlock, d, a) == After(chain, fromBlock, d, a).out[|d.out|..]
  {
    hide AttemptTrace;
    ApplyParts(d, Survives(AttemptTrace(chain, fromBlock, d, a), a.survives));
  }

  /** A run appends the logs of whole batches and the first ones of one more. */
  lemma AddedShape(chain: Chain, fromBlock: uint64, d: Durable, a: Attempt) returns (next: nat, tail: seq<Log>)
    requires IsChain(chain) && a.batchSize > 0
    ensures var start := StartFrom(fromBlock, d.mark);
      && next == NextBlock(chain, fromBlock, d, a) && start <= next && (start < next ==> next <= a.to + 1)
      && Added(chain, fromBlock, d, a) == Distinct(chain, start, next) + tail
      && After(chain, fromBlock, d, a).mark == (if next == start then d.mark else Some(next - 1))
      && tail <= Distinct(chain, next, BatchLimit(next, a.to, a.batchSize))
      && tail == Tail(chain, fromBlock, d, a)
      && (a.survives >= |AttemptTrace(chain, fromBlock, d, a)| ==> tail == [] && next > a.to)
  {
    hide IsChain;
    hide Distinct;
    hide After;
    hide AttemptTrace;
    hide NextBlock;
    hide Added;
    hide StartFrom;
    hide BatchLimit;
    next, tail := RunShape(chain, fromBlock, d, a);
    var whole := Distinct(chain, StartFrom(fromBlock, d.mark), next);
    AddedIsNew(chain, fromBlock, d, a);
    assert d.out + whole + tail == d.out + (whole + tail);
  }

  /** A run that has put a block at or after its start under a checkpoint ends with a checkpoint that covers it. */
  lemma SavedOver(chain: Chain, fromBlock: uint64, d: Durable, a: Attempt, block: nat)
    requires IsChain(chain) && a.batchSize > 0
    requires StartFrom(fromBlock, d.mark) <= block < NextBlock(chain, fromBlock, d, a)
    ensures var mark := After(chain, fromBlock, d, a).mark; mark.Some? && block <= mark.value
  {
    hide IsChain;
    hide Distinct;
    hide After;
    hide NextBlock;
    hide Added;
    hide StartFrom;
    hide Tail;
    hide BatchLimit;
    hide AttemptTrace;
    var next, tail := AddedShape(chain, fromBlock, d, a);
  }

  /** The torn record is none of those appended as a whole by its run. */
  lemma TornIsNext(line: Format, chain: Chain, fromBlock: uint64, d: Durable, a: TextAttempt, l: Log, t: string)
    requires IsFormat(line) && IsChain(chain) && a.run.batchSize > 0
    requires Torn(line, chain, fromBlock, d, a) == line(l, t)
    ensures l !in Added(chain, fromBlock, d, a.run)
  {
    hide RunTrace;
    hide IsChain;
    hide BlockSorted;
    hide After;
    assert OneObject(line(l, t));
    var w, k := AttemptTrace(chain, fromBlock, d, a.run), a.run.survives;
    BeginningIsWhole(line, l, t, w[k].log, a.stamp(w[k].log), a.chars);
    var more := a.run.(survives := k + 1);
    assert AttemptTrace(chain, fromBlock, d, more) == w;
    var added := Added(chain, fromBlock, d, a.run);
    assert Survives(w, k + 1)[..k] == w[..k];
    var all := Added(chain, fromBlock, d, more);
    assert all == added + [l];
    AddedIsNew(chain, fromBlock, d, more);
    RunOutput(chain, fromBlock, d, more);
    forall i | 0 <= i < |added|
      ensures added[i] != l
    {
      assert all[i] != all[|added|];
    }
  }

  /** A run that loses a record saves a checkpoint the file does not back. */
  lemma LossIsNotBacked(line: Format, chain: Chain, fromBlock: uint64, text: string, d: Durable, a: TextAttempt)
    requires IsFormat(line) && IsChain(chain) && a.run.batchSize > 0 && OpensRecord(Open(text))
    requires Loses(line, chain, fromBlock, text, d, a)
    ensures var text' := TextAfter(line, chain, fromBlock, text, d, a);
      !Backed(line, chain, fromBlock, text', After(chain, fromBlock, d, a.run).mark)
  {
    hide IsChain;
    hide BlockSorted;
    hide After;
    hide Added;
    hide Torn;
    hide Open;
    hide Closed;
    hide Joined;
    hide StartFrom;
    hide NextBlock;
    hide Tail;
    hide OneObject;
    hide Render;
    var text' := TextAfter(line, chain, fromBlock, text, d, a);
    var added := Added(chain, fromBlock, d, a.run);
    var l := added[0];
    AddedIsNew(chain, fromBlock, d, a.run);
    RunOutput(chain, fromBlock, d, a.run);
    SavedOver(chain, fromBlock, d, a.run, l.block);
    TextShape(line, chain, fromBlock, text, d, a);
    JoinedAt(line, a, Open(text), added);
    forall t
      ensures line(l, t) !in Lines(text')
    {
      if line(l, t) == Torn(line, chain, fromBlock, d, a) {
        TornIsNext(line, chain, fromBlock, d, a, l, t);
      }
      JoinedIsNoRecord(line, Open(text), LineOf(line, a, l), l, t);
    }
    assert !Readable(line, text', l);
  }

  /** Otherwise whole lines up to the checkpoint stay complete. */
  lemma RunKeeps(line: Format, chain: Chain, fromBlock: uint64, text: string, d: Durable, a: TextAttempt)
    requires IsFormat(line) && IsChain(chain) && a.run.batchSize > 0
    requires !Loses(line, chain, fromBlock, text, d, a) && KeptUpTo(line, chain, fromBlock, text, d.mark)
    ensures var text' := TextAfter(line, chain, fromBlock, text, d, a);
      KeptUpTo(line, chain, fromBlock, text', After(chain, fromBlock, d, a.run).mark)
  {
    hide IsChain;
    hide After;
    hide Added;
    hide Open;
    hide Closed;
    hide Joined;
    hide Kept;
    hide TextAfter;
    var text', mark := TextAfter(line, chain, fromBlock, text, d, a), After(chain, fromBlock, d, a.run).mark;
    if mark.Some? {
      forall l: Log | fromBlock <= l.block <= mark.value && l in chain(l.block)
        ensures Kept(line, text', l)
      {
        if d.mark.Some? && l.block <= d.mark.value {
          StaysKept(line, chain, fromBlock, text, d, a, l);
        } else {
          NewlyCovered(chain, fromBlock, d, a.run, l);
          AddedIsKept(line, chain, fromBlock, text, d, a, l);
        }
      }
    }
  }

  lemma StaysKept(line: Format, chain: Chain, fromBlock: uint64, text: string, d: Durable, a: TextAttempt, l: Log)
    requires IsFormat(line) && a.run.batchSize > 0 && Kept(line, text, l)
    ensures Kept(line, TextAfter(line, chain, fromBlock, text, d, a), l)
  {
    hide IsFormat;
    hide Closed;
    hide TextAfter;
    hide Joined;
    TextShape(line, chain, fromBlock, text, d, a);
  }

  lemma StartsBefore(fromBlock: uint64, mark: Option<uint64>, block: uint64)
    requires fromBlock <= block && (mark.Some? ==> mark.value < block)
    ensures StartFrom(fromBlock, mark) <= block
  {
  }

  /** A log the run has put under the checkpoint has been appended by it. */
  lemma NewlyCovered(chain: Chain, fromBlock: uint64, d: Durable, a: Attempt, l: Log)
    requires IsChain(chain) && a.batchSize > 0 && fromBlock <= l.block && l in chain(l.block)
    requires var mark := After(chain, fromBlock, d, a).mark; mark.Some? && l.block <= mark.value
    requires d.mark.Some? ==> d.mark.value < l.block
    ensures l in Added(chain, fromBlock, d, a) && l.block < NextBlock(chain, fromBlock, d, a)
  {
    hide IsChain;
    hide Distinct;
    hide After;
    hide NextBlock;
    hide Added;
    hide StartFrom;
    hide Tail;
    hide BatchLimit;
    hide AttemptTrace;
    var next, tail := AddedShape(chain, fromBlock, d, a);
    StartsBefore(fromBlock, d.mark, l.block);
    DistinctExact(chain, StartFrom(fromBlock, d.mark), next);
  }

  lemma AddedIsKept(line: Format, chain: Chain, fromBlock: uint64, text: string, d: Durable, a: TextAttempt, l: Log)
    requires IsFormat(line) && a.run.batchSize > 0 && l in Added(chain, fromBlock, d, a.run)
    requires fromBlock <= l.block < NextBlock(chain, fromBlock, d, a.run)
    requires !Loses(line, chain, fromBlock, text, d, a)
    ensures Kept(line, TextAfter(line, chain, fromBlock, text, d, a), l)
  {
    hide IsFormat;
    hide Closed;
    hide Open;
    hide TextAfter;
    hide Joined;
    hide Added;
    hide NextBlock;
    var added := Added(chain, fromBlock, d, a.run);
    TextShape(line, chain, fromBlock, text, d, a);
    JoinedAt(line, a, Open(text), added);
    var i :| 0 <= i < |added| && added[i] == l;
    if i == 0 && Open(text) != "" {
      StaysKept(line, chain, fromBlock, text, d, a, l);
    } else {
      var s := LineOf(line, a, l);
      assert "" + s == s;
      assert Joined(line, a, Open(text), added)[i] == s;
    }
  }

  // ----- Histories

  lemma StateSnoc(chain: Chain, fromBlock: uint64, history: seq<TextAttempt>, a: TextAttempt)
    requires AllRun(history) && a.run.batchSize > 0
    ensures State(chain, fromBlock, history + [a]) == After(chain, fromBlock, State(chain, fromBlock, history), a.run)
  {
    hide After;
    assert Runs(history + [a]) == Runs(history) + [a.run];
    FinalSnoc(chain, fromBlock, Runs(history), a.run);
  }

  lemma LastRun(chain: Chain, fromBlock: uint64, history: seq<TextAttempt>)
    requires AllRun(history) && history != []
    ensures var init := history[..|history| - 1];
      State(chain, fromBlock, history) ==
        After(chain, fromBlock, State(chain, fromBlock, init), history[|history| - 1].run)
  {
    hide After;
    hide State;
    var init := history[..|history| - 1];
    assert history == init + [history[|history| - 1]];
    StateSnoc(chain, fromBlock, init, history[|history| - 1]);
  }

  /** The torn end of the file is always the beginning of a record. */
  lemma {:induction false} EndOpensRecord(
    line: Format, chain: Chain, fromBlock: uint64, history: seq<TextAttempt>)
    requires IsFormat(line) && AllRun(history)
    ensures OpensRecord(Open(FileText(line, chain, fromBlock, history)))
  {
    if history != [] {
      hide IsFormat;
      hide Open;
      hide Closed;
      hide Joined;
      hide TextAfter;
      hide Torn;
      hide State;
      var init, a := history[..|history| - 1], history[|history| - 1];
      EndOpensRecord(line, chain, fromBlock, init);
      TextShape(line, chain, fromBlock, FileText(line, chain, fromBlock, init), State(chain, fromBlock, init), a);
      TornIsOpen(line, chain, fromBlock, State(chain, fromBlock, init), a);
    }
  }

  /** The file backs its checkpoint. */
  ghost predicate IsBacked(line: Format, chain: Chain, fromBlock: uint64, history: seq<TextAttempt>)
    requires AllRun(history)
  {
    Backed(line, chain, fromBlock, FileText(line, chain, fromBlock, history), State(chain, fromBlock, history).mark)
  }

  /** The last run of the history loses a record. */
  ghost predicate LastLoses(line: Format, chain: Chain, fromBlock: uint64, history: seq<TextAttempt>)
    requires AllRun(history) && history != []
  {
    var init := history[..|history| - 1];
    Loses(line, chain, fromBlock, FileText(line, chain, fromBlock, init), State(chain, fromBlock, init),
          history[|history| - 1])
  }

  lemma LastLossIsNotBacked(line: Format, chain: Chain, fromBlock: uint64, history: seq<TextAttempt>)
    requires IsFormat(line) && IsChain(chain) && AllRun(history) && history != []
    requires LastLoses(line, chain, fromBlock, history)
    ensures !IsBacked(line, chain, fromBlock, history)
  {
    hide IsFormat;
    hide IsChain;
    hide Backed;
    hide Loses;
    hide Open;
    hide TextAfter;
    hide State;
    hide After;
    var init := history[..|history| - 1];
    EndOpensRecord(line, chain, fromBlock, init);
    LastRun(chain, fromBlock, history);
    LossIsNotBacked(line, chain, fromBlock, FileText(line, chain, fromBlock, init), State(chain, fromBlock, init),
                    history[|history| - 1]);
  }

  lemma {:induction false} NoLossKeeps(line: Format, chain: Chain, fromBlock: uint64, history: seq<TextAttempt>)
    requires IsFormat(line) && IsChain(chain) && AllRun(history)
    requires forall n :: 0 < n <= |history| ==> !LastLoses(line, chain, fromBlock, history[..n])
    ensures KeptUpTo(line, chain, fromBlock, FileText(line, chain, fromBlock, history),
                     State(chain, fromBlock, history).mark)
  {
    hide IsFormat;
    hide IsChain;
    hide Loses;
    hide TextAfter;
    hide After;
    if history == [] {
      FinalOfNone(chain, fromBlock);
      assert Runs(history) == [];
    } else {
      hide KeptUpTo;
      hide State;
      var init := history[..|history| - 1];
      assert history[..|history|] == history;
      assert !LastLoses(line, chain, fromBlock, history);
      forall n | 0 < n <= |init|
        ensures !LastLoses(line, chain, fromBlock, init[..n])
      {
        assert init[..n] == history[..n];
      }
      NoLossKeeps(line, chain, fromBlock, init);
      LastRun(chain, fromBlock, history);
      RunKeeps(line, chain, fromBlock, FileText(line, chain, fromBlock, init), State(chain, fromBlock, init),
               history[|history| - 1]);
    }
  }

  lemma KeptIsBacked(line: Format, chain: Chain, fromBlock: uint64, text: string, mark: Option<uint64>)
    requires KeptUpTo(line, chain, fromBlock, text, mark)
    ensures Backed(line, chain, fromBlock, text, mark)
  {
    hide Open;
    hide Closed;
    if mark.Some? {
      forall l: Log | fromBlock <= l.block <= mark.value && l in chain(l.block)
        ensures Readable(line, text, l)
      {
        var t :| line(l, t) in Closed(text);
        assert line(l, t) in Lines(text);
      }
    }
  }

  /**
   * Torn lines: over any history of runs lost in the middle of a record or anywhere else, the file backs every
   * durable checkpoint if and only if no run starts behind a torn line and saves a checkpoint over its first
   * record while no whole line holds that record.
   */
  lemma BackedUnlessLost(line: Format, chain: Chain, fromBlock: uint64, history: seq<TextAttempt>)
    requires IsFormat(line) && IsChain(chain) && AllRun(history)
    ensures (forall n :: 0 <= n <= |history| ==> IsBacked(line, chain, fromBlock, history[..n])) <==>
      (forall n :: 0 < n <= |history| ==> !LastLoses(line, chain, fromBlock, history[..n]))
  {
    hide IsFormat;
    hide IsChain;
    hide LastLoses;
    hide FileText;
    hide State;
    hide Backed;
    if forall n :: 0 < n <= |history| ==> !LastLoses(line, chain, fromBlock, history[..n]) {
      forall n | 0 <= n <= |history|
        ensures IsBacked(line, chain, fromBlock, history[..n])
      {
        assert forall k :: 0 < k <= n ==> history[..n][..k] == history[..k];
        NoLossKeeps(line, chain, fromBlock, history[..n]);
        KeptIsBacked(line, chain, fromBlock, FileText(line, chain, fromBlock, history[..n]),
                     State(chain, fromBlock, history[..n]).mark);
      }
    } else {
      var n :| 0 < n <= |history| && LastLoses(line, chain, fromBlock, history[..n]);
      LastLossIsNotBacked(line, chain, fromBlock, history[..n]);
    }
  }

  // ----- Which crashes lose a record

  /** The first log a run appends is the first one of the chain from its resume block on. */
  lemma FirstAdded(chain: Chain, fromBlock: uint64, d: Durable, a: Attempt) returns (end: nat)
    requires IsChain(chain) && a.batchSize > 0
    ensures Added(chain, fromBlock, d, a) <= Distinct(chain, StartFrom(fromBlock, d.mark), end)
  {
    hide IsChain;
    hide Distinct;
    hide After;
    hide AttemptTrace;
    hide NextBlock;
    hide Added;
    hide StartFrom;
    hide BatchLimit;
    hide Tail;
    var next, tail := AddedShape(chain, fromBlock, d, a);
    var limit: nat := BatchLimit(next, a.to, a.batchSize);
    end := if next <= limit then limit else next;
    JoinedPrefix(chain, StartFrom(fromBlock, d.mark), next, limit, tail);
  }

  /** The first log of the chain from block `start` on. */
  ghost predicate IsFirstLog(chain: Chain, start: nat, l: Log) {
    && start <= l.block && chain(l.block) != [] && chain(l.block)[0] == l
    && forall b: nat :: start <= b < l.block ==> chain(b) == []
  }

  lemma OneFirstLog(chain: Chain, start: nat, l: Log, m: Log)
    requires IsFirstLog(chain, start, l) && IsFirstLog(chain, start, m)
    ensures l == m
  {
  }

  lemma {:induction false} NothingFetched(chain: Chain, a: nat, end: nat)
    requires Fetch(chain, a, end) == []
    ensures forall b: nat :: a <= b < end ==> chain(b) == []
  {
    if end > a {
      NothingFetched(chain, a, end - 1);
    }
  }

  lemma {:induction false} FirstFetched(chain: Chain, a: nat, end: nat)
    requires IsChain(chain) && Fetch(chain, a, end) != []
    ensures IsFirstLog(chain, a, Fetch(chain, a, end)[0])
  {
    hide IsChain;
    if Fetch(chain, a, end - 1) != [] {
      FirstFetched(chain, a, end - 1);
    } else {
      NothingFetched(chain, a, end - 1);
      ChainBlock(chain, end - 1, chain(end - 1)[0]);
    }
  }

  /** The seen-set lets the first log through. */
  lemma {:induction false} FirstUnseen(logs: seq<Log>)
    ensures logs != [] ==> Unseen({}, logs) != [] && Unseen({}, logs)[0] == logs[0]
    ensures logs == [] ==> Unseen({}, logs) == []
  {
    hide IdKey;
    if logs != [] {
      FirstUnseen(logs[..|logs| - 1]);
    }
  }

  lemma FirstOfDistinct(chain: Chain, start: nat, end: nat, s: seq<Log>)
    requires IsChain(chain) && s != [] && s <= Distinct(chain, start, end)
    ensures IsFirstLog(chain, start, s[0])
  {
    hide IsChain;
    hide Fetch;
    hide Unseen;
    FirstUnseen(Fetch(chain, start, end));
    FirstFetched(chain, start, end);
  }

  /**
   * What can be checked before a run: the file ends in a torn line, and no whole line holds the first log from the
   * resume block on.
   */
  ghost predicate AtRisk(line: Format, chain: Chain, fromBlock: uint64, text: string, d: Durable, l: Log) {
    && Open(text) != "" && IsFirstLog(chain, StartFrom(fromBlock, d.mark), l) && fromBlock <= l.block
    && !Kept(line, text, l)
  }

  /** A run loses a record exactly when some log is at risk before it, and it saves a checkpoint over that log. */
  lemma LossIsForeseen(line: Format, chain: Chain, fromBlock: uint64, text: string, d: Durable, a: TextAttempt)
    requires IsChain(chain) && a.run.batchSize > 0
    ensures Loses(line, chain, fromBlock, text, d, a) <==>
      exists l :: AtRisk(line, chain, fromBlock, text, d, l) && l.block < NextBlock(chain, fromBlock, d, a.run)
  {
    hide IsChain;
    hide Distinct;
    hide Added;
    hide After;
    hide AttemptTrace;
    hide NextBlock;
    hide StartFrom;
    hide BatchLimit;
    hide Tail;
    hide Open;
    hide Kept;
    hide IsFirstLog;
    var start, added := StartFrom(fromBlock, d.mark), Added(chain, fromBlock, d, a.run);
    var end := FirstAdded(chain, fromBlock, d, a.run);
    if added != [] {
      FirstOfDistinct(chain, start, end, added);
      if Loses(line, chain, fromBlock, text, d, a) {
        assert AtRisk(line, chain, fromBlock, text, d, added[0]);
      }
    }
    if l :| AtRisk(line, chain, fromBlock, text, d, l) && l.block < NextBlock(chain, fromBlock, d, a.run) {
      FirstIsAdded(chain, fromBlock, d, a.run, l);
      OneFirstLog(chain, start, l, added[0]);
    }
  }

  lemma FirstIsAdded(chain: Chain, fromBlock: uint64, d: Durable, a: Attempt, l: Log)
    requires IsChain(chain) && a.batchSize > 0
    requires IsFirstLog(chain, StartFrom(fromBlock, d.mark), l) && l.block < NextBlock(chain, fromBlock, d, a)
    ensures Added(chain, fromBlock, d, a) != []
  {
    hide IsChain;
    hide Distinct;
    hide Added;
    hide After;
    hide AttemptTrace;
    hide NextBlock;
    hide StartFrom;
    hide BatchLimit;
    hide Tail;
    var next, tail := AddedShape(chain, fromBlock, d, a);
    DistinctExact(chain, StartFrom(fromBlock, d.mark), next);
  }

  /**
   * A run that starts on whole lines and is lost inside a record does no harm, whatever the next run is, if it
   * has appended some other record after its last checkpoint.
   */
  lemma LaterTearIsHarmless(
    line: Format, chain: Chain, fromBlock: uint64, text: string, d: Durable, a: TextAttempt, b: TextAttempt)
    requires IsFormat(line) && IsChain(chain) && a.run.batchSize > 0 && b.run.batchSize > 0
    requires Open(text) == "" && CanResume(d.mark) && Tail(chain, fromBlock, d, a.run) != []
    ensures var text' := TextAfter(line, chain, fromBlock, text, d, a);
      !Loses(line, chain, fromBlock, text', After(chain, fromBlock, d, a.run), b)
  {
    hide IsFormat;
    hide IsChain;
    hide Distinct;
    hide After;
    hide NextBlock;
    hide Added;
    hide TextAfter;
    hide Kept;
    hide Tail;
    hide Open;
    hide StartFrom;
    hide BatchLimit;
    hide AttemptTrace;
    hide IsFirstLog;
    var d' := After(chain, fromBlock, d, a.run);
    var added := Added(chain, fromBlock, d', b.run);
    if added != [] {
      var next, tail := AddedShape(chain, fromBlock, d, a.run);
      ResumesAtTail(chain, fromBlock, d, a.run, next);
      var end := FirstAdded(chain, fromBlock, d', b.run);
      FirstOfDistinct(chain, next, BatchLimit(next, a.run.to, a.run.batchSize), tail);
      FirstOfDistinct(chain, next, end, added);
      OneFirstLog(chain, next, tail[0], added[0]);
      WholeAddedIsKept(line, chain, fromBlock, text, d, a, tail[0]);
    }
  }

  lemma ResumesAtTail(chain: Chain, fromBlock: uint64, d: Durable, a: Attempt, next: nat)
    requires IsChain(chain) && a.batchSize > 0 && CanResume(d.mark) && Tail(chain, fromBlock, d, a) != []
    requires next == NextBlock(chain, fromBlock, d, a)
    ensures StartFrom(fromBlock, After(chain, fromBlock, d, a).mark) == next
  {
    hide IsChain;
    hide Distinct;
    hide After;
    hide AttemptTrace;
    hide NextBlock;
    hide StartFrom;
    hide Tail;
    var next', tail := RunShape(chain, fromBlock, d, a);
    var l := Tail(chain, fromBlock, d, a)[0];
    TailIsOneBatch(chain, fromBlock, d, a, l);
    NextOfSaved(fromBlock, d.mark, next);
    ResumeBlock(fromBlock, After(chain, fromBlock, d, a).mark);
  }

  /** Every record appended as a whole to whole lines is kept. */
  lemma WholeAddedIsKept(
    line: Format, chain: Chain, fromBlock: uint64, text: string, d: Durable, a: TextAttempt, l: Log)
    requires IsFormat(line) && a.run.batchSize > 0 && Open(text) == "" && l in Added(chain, fromBlock, d, a.run)
    ensures Kept(line, TextAfter(line, chain, fromBlock, text, d, a), l)
  {
    hide IsFormat;
    hide Closed;
    hide TextAfter;
    hide Joined;
    hide Added;
    var added := Added(chain, fromBlock, d, a.run);
    TextShape(line, chain, fromBlock, text, d, a);
    JoinedAt(line, a, "", added);
    var i :| 0 <= i < |added| && added[i] == l;
    var s := LineOf(line, a, l);
    assert "" + s == s;
    assert Joined(line, a, "", added)[i] == s;
  }

  lemma FirstStatement(chain: Chain, from: uint64, to: uint64, batchSize: uint64)
    requires IsChain(chain) && chain(from) != [] && from <= to && batchSize > 0
    ensures RunTrace(chain, from, to, batchSize, true) != [] && RunTrace(chain, from, to, batchSize, true)[0].Put?
  {
    hide IsChain;
    hide Fetch;
    hide Unseen;
    hide Split;
    hide BatchEnd;
    SplitUnfold(from, to, batchSize);
    BatchEndBounds(from, to, batchSize);
    var l := chain(from)[0];
    ChainBlock(chain, from, l);
    DistinctExact(chain, from, BatchEnd(from, to, batchSize) as int + 1);
  }

  lemma ChainBlock(chain: Chain, b: nat, l: Log)
    requires IsChain(chain) && l in chain(b)
    ensures l.block == b
  {
  }

  /** What a lost run leaves of its very first record. */
  lemma FirstTear(line: Format, chain: Chain, fromBlock: uint64, a: TextAttempt)
    requires IsFormat(line) && IsChain(chain) && chain(fromBlock) != []
    requires a.run.batchSize > 0 && fromBlock <= a.run.to && a.run.survives == 0 && a.chars > 0
    ensures State(chain, fromBlock, [a]) == Durable([], None)
    ensures Open(FileText(line, chain, fromBlock, [a])) != "" && Closed(FileText(line, chain, fromBlock, [a])) == []
  {
    hide IsChain;
    hide RunTrace;
    var d := Durable([], None);
    FirstStatement(chain, fromBlock, a.run.to, a.run.batchSize);
    FinalOfNone(chain, fromBlock);
    assert [a][..0] == [] && Runs([]) == [];
    LastRun(chain, fromBlock, [a]);
    var t := AttemptTrace(chain, fromBlock, d, a.run);
    assert OneObject(LineOf(line, a, t[0].log));
    assert Survives(t, 0) == [];
    hide IsFormat;
    TextShape(line, chain, fromBlock, "", d, a);
  }

  /** What a completed first run has done. */
  lemma CompletedFirst(chain: Chain, fromBlock: uint64, a: Attempt)
    requires IsChain(chain) && chain(fromBlock) != [] && a.batchSize > 0 && fromBlock <= a.to
    requires a.survives >= |AttemptTrace(chain, fromBlock, Durable([], None), a)|
    ensures var d := Durable([], None);
      var added := Added(chain, fromBlock, d, a);
      && added != [] && fromBlock <= added[0].block && added[0] in chain(added[0].block)
      && added[0].block < NextBlock(chain, fromBlock, d, a)
  {
    hide IsChain;
    hide Distinct;
    hide After;
    hide AttemptTrace;
    hide NextBlock;
    hide Added;
    hide Tail;
    hide BatchLimit;
    var d := Durable([], None);
    var next, tail := AddedShape(chain, fromBlock, d, a);
    DistinctExact(chain, fromBlock, next);
    ChainBlock(chain, fromBlock, chain(fromBlock)[0]);
  }

  /**
   * A run lost inside its very first record, and a run that completes: the file misses that record for good, and
   * the checkpoint covers it.
   */
  lemma FirstTearLosesRecord(line: Format, chain: Chain, fromBlock: uint64, a: TextAttempt, b: TextAttempt)
    requires IsFormat(line) && IsChain(chain) && chain(fromBlock) != []
    requires a.run.batchSize > 0 && b.run.batchSize > 0 && fromBlock <= a.run.to && fromBlock <= b.run.to
    requires a.run.survives == 0 && a.chars > 0
    requires b.run.survives >= |AttemptTrace(chain, fromBlock, Durable([], None), b.run)|
    ensures LastLoses(line, chain, fromBlock, [a, b]) && !IsBacked(line, chain, fromBlock, [a, b])
  {
    hide IsFormat;
    hide IsChain;
    hide State;
    hide FileText;
    hide Open;
    hide Closed;
    hide Added;
    hide After;
    hide NextBlock;
    hide AttemptTrace;
    FirstTear(line, chain, fromBlock, a);
    CompletedFirst(chain, fromBlock, b.run);
    assert [a, b][..1] == [a];
    LastLossIsNotBacked(line, chain, fromBlock, [a, b]);
  }
}
