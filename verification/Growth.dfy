/**
 * An input file that grows between runs: a run may be lost, lines may be appended, the next run may be lost too,
 * and so on until one completes.  Appended events may fall into windows that earlier runs have already flushed;
 * only the order of windows matters.
 */
module Growth {
  import opened Base
  import opened Events
  import opened Windows
  import opened Accumulators
  import opened Stores
  import opened Stream
  import opened GroupBy
  import opened Refinement
  import opened Checkpoints
  import opened Crash
  import opened ReRun

  /** A window that a run from the checkpoint reads as a whole. */
  ghost predicate IsOpenKey(job: Job, d0: Durable, d: Durable, key: RowKey)
    requires job.windowSecs > 0
  {
    key in Target(job, d0) && (job.recomputeFrom > 0 || key.windowStart > StartOf(job, d))
  }

  /** The rows that no later run will write: those of the start, and the final ones the checkpoint covers. */
  ghost function SettledRows(job: Job, d0: Durable, d: Durable): map<RowKey, Row>
    requires job.windowSecs > 0
  {
    d0.rows + map key | key in Target(job, d0) && !IsOpenKey(job, d0, d, key) :: Target(job, d0)[key]
  }

  ghost function Settled(job: Job, d0: Durable, d: Durable): Durable
    requires job.windowSecs > 0
  {
    d.(rows := SettledRows(job, d0, d))
  }

  predicate SameAt(rows: map<RowKey, Row>, rows': map<RowKey, Row>, key: RowKey) {
    (key in rows <==> key in rows') && (key in rows ==> rows[key] == rows'[key])
  }

  /** Outside the open windows the table is settled. */
  ghost predicate RowsSettled(job: Job, d0: Durable, d: Durable)
    requires job.windowSecs > 0
  {
    forall key: RowKey :: !IsOpenKey(job, d0, d, key) ==> SameAt(d.rows, SettledRows(job, d0, d), key)
  }

  /** The checkpoint is that of the start, or lies before some window read. */
  ghost predicate AtBoundary(job: Job, d0: Durable, d: Durable)
    requires job.windowSecs > 0
  {
    StartOf(job, d) == StartOf(job, d0) ||
    exists r :: r in InputOf(job, d0) && WindowStart(r.timestamp, job.windowSecs) > StartOf(job, d)
  }

  /** The invariant: it allows any row for an open window, also one of a group that has grown since. */
  ghost predicate SafeToGrow(job: Job, d0: Durable, d: Durable)
    requires job.windowSecs > 0
  {
    Safe(job, d0, Settled(job, d0, d)) && AtBoundary(job, d0, d) && RowsSettled(job, d0, d)
  }

  lemma SettledLookup(job: Job, d0: Durable, d: Durable, key: RowKey)
    requires job.windowSecs > 0
    ensures key in Target(job, d0) && !IsOpenKey(job, d0, d, key) ==>
      key in SettledRows(job, d0, d) && SettledRows(job, d0, d)[key] == Target(job, d0)[key]
    ensures key !in Target(job, d0) ==> SameAt(SettledRows(job, d0, d), d0.rows, key)
  {
    hide GroupTable;
  }

  /** Settled rows are old or final by construction, so only the checkpoint matters for safety. */
  lemma SettledIsSafe(job: Job, d0: Durable, d: Durable)
    requires job.windowSecs > 0
    requires StartOf(job, d0) <= StartOf(job, d) <= MaxTsAfter(StartOf(job, d0), InputOf(job, d0))
    requires job.recomputeFrom == 0 ==> CutsNoWindow(job.windowSecs, InputOf(job, d0), StartOf(job, d))
    ensures Safe(job, d0, Settled(job, d0, d))
  {
    hide GroupTable;
    hide CutsNoWindow;
    hide MaxTsAfter;
    hide InputOf;
  }

  lemma StartMayGrow(job: Job, d0: Durable)
    requires job.windowSecs > 0 && Sound(job, d0)
    ensures SafeToGrow(job, d0, d0)
  {
    hide GroupTable;
    hide CutsNoWindow;
    hide OneSpelling;
    hide WindowSorted;
    hide MaxTsAfter;
    hide InputOf;
    MaxTsAtLeast(StartOf(job, d0), InputOf(job, d0));
    SettledIsSafe(job, d0, d0);
    hide Safe;
    forall key: RowKey | !IsOpenKey(job, d0, d0, key)
      ensures SameAt(d0.rows, SettledRows(job, d0, d0), key)
    {
      if key in Target(job, d0) {
        KeyWindow(job.windowSecs, InputOf(job, d0), key);
        StartsLater(job, d0, key);
      }
      SettledLookup(job, d0, d0, key);
    }
  }

  lemma StartsLater(job: Job, d0: Durable, key: RowKey)
    requires job.windowSecs > 0 && Sound(job, d0) && key in Target(job, d0)
    ensures IsOpenKey(job, d0, d0, key)
  {
    hide GroupTable;
    hide OneSpelling;
    hide WindowSorted;
    KeyWindow(job.windowSecs, InputOf(job, d0), key);
  }

  // ----- A crash

  /** A lost run from `d` and the same run from the settled state. */
  lemma TwinCrash(job: Job, d0: Durable, d: Durable, a: Attempt, d': Durable) returns (e': Durable)
    requires job.windowSecs > 0 && Crashes(job, d, a, d')
    ensures Crashes(job, Settled(job, d0, d), a, e') && e'.state == d'.state
    ensures Fits(job, Settled(job, d0, d), a)
    ensures AttemptTrace(job, Settled(job, d0, d), a) == AttemptTrace(job, d, a)
  {
    hide Trace;
    hide Accepted;
    hide AccsAfter;
    hide Apply;
    hide SettledRows;
    var e, t := Settled(job, d0, d), AttemptTrace(job, d, a)[..a.survives];
    e' := Apply(e, t);
    ApplyByTable(d, t);
    ApplyByTable(e, t);
  }

  lemma CrashKeepsBoundary(job: Job, d0: Durable, d: Durable, a: Attempt, d': Durable)
    requires job.windowSecs > 0 && Sound(job, d0) && SafeToGrow(job, d0, d) && Crashes(job, d, a, d')
    ensures Safe(job, d0, Settled(job, d0, d')) && AtBoundary(job, d0, d')
  {
    hide GroupTable;
    hide Sound;
    hide Crashes;
    hide RowsSettled;
    hide SettledRows;
    hide CutsNoWindow;
    hide MaxTsAfter;
    hide InputOf;
    var e := Settled(job, d0, d);
    var e' := TwinCrash(job, d0, d, a, d');
    CrashKeepsSafe(job, d0, e, a, e');
    SettledIsSafe(job, d0, d');
    hide Safe;
    if StartOf(job, d') != StartOf(job, d) {
      var i := SavedBefore(job, d, a, d');
      SavedIsSafe(job, d0, e, a, i);
    }
  }

  /** The statement that set the checkpoint. */
  lemma SavedBefore(job: Job, d: Durable, a: Attempt, d': Durable) returns (i: nat)
    requires job.windowSecs > 0 && Crashes(job, d, a, d') && StartOf(job, d') != StartOf(job, d)
    ensures job.recomputeFrom == 0 && i < a.survives < |AttemptTrace(job, d, a)|
    ensures AttemptTrace(job, d, a)[i].Save? && d'.state == Some(AttemptTrace(job, d, a)[i].ts)
  {
    hide AttemptTrace;
    hide Apply;
    hide LastSave;
    var t := AttemptTrace(job, d, a);
    ApplyByTable(d, t[..a.survives]);
    LastSaveAt(t[..a.survives], d.state);
    i :| 0 <= i < a.survives && t[i].Save? && d'.state == Some(t[i].ts);
  }

  /** Every row of a window between the old and the new checkpoint has been written. */
  lemma NewlyCoveredWritten(job: Job, d0: Durable, d: Durable, a: Attempt, d': Durable, key: RowKey)
    requires job.windowSecs > 0 && Sound(job, d0) && SafeToGrow(job, d0, d) && Crashes(job, d, a, d')
    requires IsOpenKey(job, d0, d, key) && !IsOpenKey(job, d0, d', key)
    ensures exists m :: m in RowsOf(AttemptTrace(job, d, a)[..a.survives]) && m.key == key
  {
    hide GroupTable;
    hide Sound;
    hide Safe;
    hide Crashes;
    hide RowsSettled;
    hide SettledRows;
    hide RowsOf;
    hide AttemptTrace;
    var e' := TwinCrash(job, d0, d, a, d');
    var i := SavedBefore(job, d, a, d');
    SavedIsSafe(job, d0, Settled(job, d0, d), a, i);
    SavedRowsWritten(AttemptTrace(job, d, a), a.survives, i, Target(job, d0), StartOf(job, d));
  }

  lemma CrashWrites(job: Job, d0: Durable, d: Durable, a: Attempt, d': Durable)
    requires job.windowSecs > 0 && Sound(job, d0) && SafeToGrow(job, d0, d) && Crashes(job, d, a, d')
    ensures var ms := RowsOf(AttemptTrace(job, d, a)[..a.survives]);
      && d'.rows == UpsertRows(d.rows, ms)
      && forall m :: m in ms ==> m.key in Target(job, d0) && Target(job, d0)[m.key] == m.row
  {
    hide GroupTable;
    hide Sound;
    hide Safe;
    hide RowsSettled;
    hide SettledRows;
    hide RowsOf;
    hide AttemptTrace;
    hide Apply;
    hide UpsertRows;
    var e' := TwinCrash(job, d0, d, a, d');
    ApplyByTable(d, AttemptTrace(job, d, a)[..a.survives]);
    AttemptWritesTarget(job, d0, Settled(job, d0, d), a, a.survives);
  }

  lemma CrashKeepsSafeToGrow(job: Job, d0: Durable, d: Durable, a: Attempt, d': Durable)
    requires job.windowSecs > 0 && Sound(job, d0) && SafeToGrow(job, d0, d) && Crashes(job, d, a, d')
    ensures SafeToGrow(job, d0, d')
  {
    hide GroupTable;
    hide Sound;
    hide Safe;
    hide IsOpenKey;
    hide SettledRows;
    hide RowsOf;
    hide AttemptTrace;
    hide UpsertRows;
    CrashKeepsBoundary(job, d0, d, a, d');
    CrashWrites(job, d0, d, a, d');
    var ms := RowsOf(AttemptTrace(job, d, a)[..a.survives]);
    forall key: RowKey | !IsOpenKey(job, d0, d', key)
      ensures SameAt(d'.rows, SettledRows(job, d0, d'), key)
    {
      WritesTarget(d.rows, ms, Target(job, d0), key);
      SettledLookup(job, d0, d, key);
      SettledLookup(job, d0, d', key);
      OpenIsTarget(job, d0, d, key);
      if IsOpenKey(job, d0, d, key) {
        NewlyCoveredWritten(job, d0, d, a, d', key);
      }
    }
  }

  lemma OpenIsTarget(job: Job, d0: Durable, d: Durable, key: RowKey)
    requires job.windowSecs > 0
    ensures IsOpenKey(job, d0, d, key) ==> key in Target(job, d0)
  {
    hide GroupTable;
  }

  // ----- Growth

  function Longer(job: Job, more: seq<Line>): Job {
    job.(lines := job.lines + more)
  }

  /** Groups only grow at their end. */
  lemma {:induction false} GroupGrows(w: nat, es: seq<Record>, added: seq<Record>, key: RowKey)
    requires w > 0
    ensures Group(w, es, key) <= Group(w, es + added, key)
  {
    if added == [] {
      assert es + added == es;
    } else {
      var init, e := added[..|added| - 1], added[|added| - 1];
      GroupGrows(w, es, init, key);
      assert es + added == (es + init) + [e];
      GroupSnoc(w, es + init, e, key);
    }
  }

  lemma TargetGrows(job: Job, more: seq<Line>, d0: Durable, key: RowKey)
    requires job.windowSecs > 0 && key in Target(job, d0)
    ensures key in Target(Longer(job, more), d0)
  {
    hide Fold;
    hide Group;
    var w, es, added := job.windowSecs, InputOf(job, d0), Accepted(more, StartOf(job, d0));
    LongerInput(job, more, d0);
    GroupGrows(w, es, added, key);
    GroupKeys(w, es + added, key);
  }

  /** What is appended lies in windows after the checkpoint. */
  lemma AddedAfter(job: Job, more: seq<Line>, d0: Durable, d: Durable, r: Record)
    requires job.windowSecs > 0 && job.recomputeFrom == 0
    requires Sound(Longer(job, more), d0) && AtBoundary(job, d0, d) && r in Accepted(more, StartOf(job, d0))
    ensures WindowStart(r.timestamp, job.windowSecs) > StartOf(job, d)
  {
    hide OneSpelling;
    hide WindowStart;
    var w, es, added := job.windowSecs, InputOf(job, d0), Accepted(more, StartOf(job, d0));
    LongerInput(job, more, d0);
    assert r in es + added;
    if StartOf(job, d) != StartOf(job, d0) {
      var e :| e in es && WindowStart(e.timestamp, w) > StartOf(job, d);
      var i :| 0 <= i < |es| && es[i] == e;
      var j :| 0 <= j < |added| && added[j] == r;
      assert (es + added)[i] == e && (es + added)[|es| + j] == r;
    }
  }

  lemma GrowthKeepsBoundary(job: Job, more: seq<Line>, d0: Durable, d: Durable)
    requires job.windowSecs > 0 && Sound(Longer(job, more), d0) && SafeToGrow(job, d0, d)
    ensures Safe(Longer(job, more), d0, Settled(Longer(job, more), d0, d)) && AtBoundary(Longer(job, more), d0, d)
  {
    hide GroupTable;
    hide Sound;
    hide RowsSettled;
    hide SettledRows;
    hide MaxTsAfter;
    hide InputOf;
    hide WindowStart;
    var es, added := InputOf(job, d0), Accepted(more, StartOf(job, d0));
    LongerInput(job, more, d0);
    MaxTsOfMore(StartOf(job, d0), es, added);
    if job.recomputeFrom == 0 {
      forall r | r in added
        ensures WindowStart(r.timestamp, job.windowSecs) > StartOf(job, d)
      {
        AddedAfter(job, more, d0, d, r);
      }
    }
    SettledIsSafe(Longer(job, more), d0, d);
  }

  /** Appending lines keeps the invariant. */
  lemma GrowthKeepsSafeToGrow(job: Job, more: seq<Line>, d0: Durable, d: Durable)
    requires job.windowSecs > 0 && Sound(Longer(job, more), d0) && SafeToGrow(job, d0, d)
    ensures SafeToGrow(Longer(job, more), d0, d)
  {
    hide GroupTable;
    hide Sound;
    hide Safe;
    hide IsOpenKey;
    hide SettledRows;
    hide InputOf;
    hide WindowStart;
    GrowthKeepsBoundary(job, more, d0, d);
    forall key: RowKey | !IsOpenKey(Longer(job, more), d0, d, key)
      ensures SameAt(d.rows, SettledRows(Longer(job, more), d0, d), key)
    {
      OpenIsTarget(job, d0, d, key);
      SettledLookup(job, d0, d, key);
      SettledLookup(Longer(job, more), d0, d, key);
      if key in Target(job, d0) {
        TargetGrows(job, more, d0, key);
      }
      if key in Target(Longer(job, more), d0) {
        SettledGroup(job, more, d0, d, key);
      }
    }
  }

  lemma SettledGroup(job: Job, more: seq<Line>, d0: Durable, d: Durable, key: RowKey)
    requires job.windowSecs > 0 && Sound(Longer(job, more), d0) && AtBoundary(job, d0, d)
    requires key in Target(Longer(job, more), d0) && !IsOpenKey(Longer(job, more), d0, d, key)
    ensures key in Target(job, d0) && !IsOpenKey(job, d0, d, key)
    ensures Target(job, d0)[key] == Target(Longer(job, more), d0)[key]
  {
    hide GroupTable;
    hide Sound;
    hide AtBoundary;
    hide InputOf;
    hide WindowStart;
    var es, added := InputOf(job, d0), Accepted(more, StartOf(job, d0));
    forall r | r in added
      ensures WindowStart(r.timestamp, job.windowSecs) > StartOf(job, d)
    {
      AddedAfter(job, more, d0, d, r);
    }
    LongerInput(job, more, d0);
    SameRows(job.windowSecs, es, added, StartOf(job, d));
  }

  // ----- Completion

  /** From a state that may grow one completed run makes every row final. */
  lemma CompletionAfterGrowth(job: Job, d0: Durable, d: Durable, a: Attempt, d': Durable)
    requires job.windowSecs > 0 && Sound(job, d0) && SafeToGrow(job, d0, d) && Completes(job, d, a, d')
    ensures d'.rows == d0.rows + Target(job, d0)
    ensures d'.state == Some(MaxTsAfter(StartOf(job, d0), InputOf(job, d0)))
  {
    hide GroupTable;
    hide Sound;
    hide Safe;
    hide SettledRows;
    hide Trace;
    hide Apply;
    hide AccsAfter;
    hide OneSpelling;
    hide WindowSorted;
    hide Contiguous;
    hide MaxTsAfter;
    hide Accepted;
    var e, es := Settled(job, d0, d), InputOf(job, d);
    var e' := Apply(e, AttemptTrace(job, e, a));
    CompletionFromSafe(job, d0, e, a, e');
    RestOfInput(job, d0, e);
    RestOfTable(job, d0, e);
    SortedIsContiguous(job.windowSecs, es);
    RunLeaves(ConfigOf(job, a), StartOf(job, d), es, a.order, d);
    RunLeaves(ConfigOf(job, a), StartOf(job, d), es, a.order, e);
    SameOverridden(d.rows, e.rows, GroupTable(job.windowSecs, es));
  }

  /** Tables that agree outside `rest` agree once overridden by it. */
  lemma SameOverridden(rows: map<RowKey, Row>, rows': map<RowKey, Row>, rest: map<RowKey, Row>)
    requires forall key: RowKey :: key !in rest ==> SameAt(rows, rows', key)
    ensures rows + rest == rows' + rest
  {
    forall key: RowKey
      ensures key in rows + rest <==> key in rows' + rest
      ensures key in rows + rest ==> (rows + rest)[key] == (rows' + rest)[key]
    {
      if key !in rest {
        assert SameAt(rows, rows', key);
      }
    }
  }

  // ----- Histories

  /** `longer` is the same job on an input file that may have grown. */
  predicate Extends(job: Job, longer: Job) {
    longer == job.(lines := longer.lines) && job.lines <= longer.lines
  }

  /** Run i reads the input as it is then and is lost; the input may grow before the next one. */
  ghost predicate GrowingHistory(jobs: seq<Job>, ds: seq<Durable>, attempts: seq<Attempt>) {
    && |jobs| == |ds| == |attempts| + 1
    && (forall i :: 0 <= i < |jobs| ==> jobs[i].windowSecs > 0)
    && (forall i :: 0 <= i < |attempts| ==>
          Crashes(jobs[i], ds[i], attempts[i], ds[i + 1]) && Extends(jobs[i], jobs[i + 1]))
  }

  /** The assumptions about the whole input hold for what was there before. */
  lemma SoundBefore(job: Job, longer: Job, d0: Durable)
    requires job.windowSecs > 0 && Extends(job, longer) && Sound(longer, d0)
    ensures Sound(job, d0)
  {
    hide PoolKey;
    hide WindowStart;
    var more := longer.lines[|job.lines|..];
    assert longer == Longer(job, more);
    LongerInput(job, more, d0);
    var es, all := InputOf(job, d0), InputOf(longer, d0);
    assert forall i :: 0 <= i < |es| ==> es[i] == all[i];
    assert forall r :: r in es ==> r in all;
  }

  lemma {:induction false} SoundAt(jobs: seq<Job>, ds: seq<Durable>, attempts: seq<Attempt>, n: nat)
    requires GrowingHistory(jobs, ds, attempts) && Sound(jobs[|attempts|], ds[0]) && n <= |attempts|
    ensures Sound(jobs[n], ds[0])
    decreases |attempts| - n
  {
    hide Sound;
    hide Crashes;
    if n < |attempts| {
      SoundAt(jobs, ds, attempts, n + 1);
      SoundBefore(jobs[n], jobs[n + 1], ds[0]);
    }
  }

  lemma {:induction false} HistoryMayGrow(jobs: seq<Job>, ds: seq<Durable>, attempts: seq<Attempt>, n: nat)
    requires GrowingHistory(jobs, ds, attempts) && Sound(jobs[|attempts|], ds[0]) && n <= |attempts|
    ensures SafeToGrow(jobs[n], ds[0], ds[n])
  {
    hide Sound;
    hide Crashes;
    hide SafeToGrow;
    SoundAt(jobs, ds, attempts, n);
    if n == 0 {
      StartMayGrow(jobs[0], ds[0]);
    } else {
      var job, longer := jobs[n - 1], jobs[n];
      SoundAt(jobs, ds, attempts, n - 1);
      HistoryMayGrow(jobs, ds, attempts, n - 1);
      CrashKeepsSafeToGrow(job, ds[0], ds[n - 1], attempts[n - 1], ds[n]);
      var more := longer.lines[|job.lines|..];
      assert longer == Longer(job, more);
      GrowthKeepsSafeToGrow(job, more, ds[0], ds[n]);
    }
  }

  /**
   * Any sequence of lost runs over an input that grows in between, then one completed run: the table is the old
   * one overridden by the group-by of the whole input, and the checkpoint its greatest accepted timestamp.
   * Appended events may continue windows that a lost run has already written, and swaps may be rejected.
   */
  lemma GrowingInputConverges(
    jobs: seq<Job>, ds: seq<Durable>, attempts: seq<Attempt>, last: Attempt, end: Durable)
    requires GrowingHistory(jobs, ds, attempts) && Sound(jobs[|attempts|], ds[0])
    requires Completes(jobs[|attempts|], ds[|attempts|], last, end)
    ensures var job := jobs[|attempts|];
      && end.rows == ds[0].rows + GroupTable(job.windowSecs, InputOf(job, ds[0]))
      && end.state == Some(MaxTsAfter(StartOf(job, ds[0]), InputOf(job, ds[0])))
  {
    hide Sound;
    hide Crashes;
    hide Completes;
    hide SafeToGrow;
    hide GroupTable;
    HistoryMayGrow(jobs, ds, attempts, |attempts|);
    CompletionAfterGrowth(jobs[|attempts|], ds[0], ds[|attempts|], last, end);
  }
}
