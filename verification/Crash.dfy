/**
 * Histories of runs that are lost at an arbitrary statement and restarted, until one run completes.
 * A crash keeps the statements that reached the store and loses all memory; the next run starts from the
 * checkpoint it finds.  Every run of a history may use its own batch size and iteration order.
 */
module Crash {
  import opened Base
  import opened Events
  import opened Windows
  import opened Accumulators
  import opened Stores
  import opened Stream
  import opened GroupBy
  import opened Refinement
  import opened Checkpoints

  /** The fixed settings of a job: window size, `--recompute-from` (0 when unset) and the input file. */
  datatype Job = Job(windowSecs: nat, recomputeFrom: nat, lines: seq<Line>)

  /**
   * `scans` are the orders in which its saves visit the accumulator map and `order` that of its final flush;
   * `survives` is the number of statements of the run that reach the store.
   */
  datatype Attempt = Attempt(batchSize: int, scans: seq<seq<string>>, order: seq<string>, survives: nat)

  function ConfigOf(job: Job, a: Attempt): Config {
    Config(job.windowSecs, a.batchSize, job.recomputeFrom, a.scans)
  }

  /** `loadStartTimestamp`. */
  function StartOf(job: Job, d: Durable): nat {
    if job.recomputeFrom > 0 then job.recomputeFrom - 1 else d.state.GetOr(0)
  }

  function InputOf(job: Job, d: Durable): seq<Record> {
    Accepted(job.lines, StartOf(job, d))
  }

  ghost predicate Fits(job: Job, d: Durable, a: Attempt)
    requires job.windowSecs > 0
  {
    ValidOrder(a.order, AccsAfter(job.windowSecs, InputOf(job, d)))
  }

  ghost function AttemptTrace(job: Job, d: Durable, a: Attempt): seq<Write>
    requires job.windowSecs > 0 && Fits(job, d, a)
  {
    Trace(ConfigOf(job, a), StartOf(job, d), InputOf(job, d), a.order)
  }

  ghost predicate Crashes(job: Job, d: Durable, a: Attempt, d': Durable)
    requires job.windowSecs > 0
  {
    && Fits(job, d, a)
    && a.survives < |AttemptTrace(job, d, a)|
    && d' == Apply(d, AttemptTrace(job, d, a)[..a.survives])
  }

  ghost predicate Completes(job: Job, d: Durable, a: Attempt, d': Durable)
    requires job.windowSecs > 0
  {
    && Fits(job, d, a)
    && d' == Apply(d, AttemptTrace(job, d, a))
  }

  /** `ds` are the durable states between runs that all crash. */
  ghost predicate History(job: Job, ds: seq<Durable>, attempts: seq<Attempt>)
    requires job.windowSecs > 0
  {
    && |ds| == |attempts| + 1
    && forall i :: 0 <= i < |attempts| ==> Crashes(job, ds[i], attempts[i], ds[i + 1])
  }

  /** The rows the job is for: the group-by of everything the first run would accept. */
  function Target(job: Job, d0: Durable): map<RowKey, Row>
    requires job.windowSecs > 0
  {
    GroupTable(job.windowSecs, InputOf(job, d0))
  }

  /**
   * The environment assumptions: one spelling per pool, windows in order, and a starting checkpoint that
   * cuts no window (not needed when `--recompute-from` pins the start).
   */
  ghost predicate Sound(job: Job, d0: Durable)
    requires job.windowSecs > 0
  {
    && OneSpelling(InputOf(job, d0)) && WindowSorted(job.windowSecs, InputOf(job, d0))
    && (job.recomputeFrom == 0 ==> CutsNoWindow(job.windowSecs, InputOf(job, d0), StartOf(job, d0)))
  }

  /** Every row is as it was at the beginning or is final. */
  ghost predicate RowsOldOrFinal(rows: map<RowKey, Row>, before: map<RowKey, Row>, target: map<RowKey, Row>) {
    && (forall key :: key in rows ==>
          || (key in target && rows[key] == target[key])
          || (key in before && rows[key] == before[key]))
    && (forall key :: key in before ==> key in rows)
  }

  /** Every row of a window that starts at or before `s` is final. */
  ghost predicate RowsFinalUpTo(rows: map<RowKey, Row>, target: map<RowKey, Row>, s: nat) {
    forall key :: key in target && key.windowStart <= s ==> key in rows && rows[key] == target[key]
  }

  /** A checkpoint register that has not gone back: once set it stays set, and its value does not decrease. */
  predicate NotBefore(s: Option<nat>, t: Option<nat>) {
    s.Some? ==> t.Some? && s.value <= t.value
  }

  /** The checkpoint safety invariant. */
  ghost predicate Safe(job: Job, d0: Durable, d: Durable)
    requires job.windowSecs > 0
  {
    var s0, s := StartOf(job, d0), StartOf(job, d);
    && s0 <= s <= MaxTsAfter(s0, InputOf(job, d0))
    && RowsOldOrFinal(d.rows, d0.rows, Target(job, d0))
    && (job.recomputeFrom == 0 ==>
          CutsNoWindow(job.windowSecs, InputOf(job, d0), s) && RowsFinalUpTo(d.rows, Target(job, d0), s))
  }

  // ----- Reading the rest of the input after a safe checkpoint

  lemma {:induction false} GroupAfter(w: nat, es: seq<Record>, s: nat, key: RowKey)
    requires w > 0 && key.windowStart > s
    ensures Group(w, After(es, s), key) == Group(w, es, key)
  {
    if es != [] {
      var init, e := es[..|es| - 1], es[|es| - 1];
      GroupAfter(w, init, s, key);
      if e.timestamp > s {
        GroupSnoc(w, After(init, s), e, key);
      }
    }
  }

  lemma {:induction false} AfterMembers(es: seq<Record>, s: nat, r: Record)
    ensures r in After(es, s) <==> r in es && r.timestamp > s
  {
    if es != [] {
      AfterMembers(es[..|es| - 1], s, r);
      assert es == es[..|es| - 1] + [es[|es| - 1]];
    }
  }

  lemma {:induction false} AfterSorted(w: nat, es: seq<Record>, s: nat)
    requires w > 0 && WindowSorted(w, es)
    ensures WindowSorted(w, After(es, s))
  {
    if es != [] {
      var init, e := es[..|es| - 1], es[|es| - 1];
      AfterSorted(w, init, s);
      forall r | r in After(init, s)
        ensures WindowStart(r.timestamp, w) <= WindowStart(e.timestamp, w)
      {
        AfterMembers(init, s, r);
      }
    }
  }

  lemma {:induction false} AfterMaxTs(es: seq<Record>, s0: nat, s: nat)
    requires s0 <= s
    ensures MaxTsAfter(s, After(es, s)) == (if s > MaxTsAfter(s0, es) then s else MaxTsAfter(s0, es))
  {
    hide TradeOf;
    if es != [] {
      AfterMaxTs(es[..|es| - 1], s0, s);
    }
  }

  /** What a run from a safe checkpoint reads: the same events, minus whole windows that are final. */
  lemma RestOfInput(job: Job, d0: Durable, d: Durable)
    requires job.windowSecs > 0 && Sound(job, d0) && Safe(job, d0, d)
    ensures var es := InputOf(job, d);
      && OneSpelling(es) && WindowSorted(job.windowSecs, es)
      && (job.recomputeFrom == 0 ==> forall r :: r in es ==> WindowStart(r.timestamp, job.windowSecs) > StartOf(job, d))
      && (job.recomputeFrom > 0 ==> es == InputOf(job, d0))
      && MaxTsAfter(StartOf(job, d), es) == MaxTsAfter(StartOf(job, d0), InputOf(job, d0))
      && es == After(InputOf(job, d0), StartOf(job, d))
  {
    hide PoolKey;
    hide GroupTable;
    var es0, s := InputOf(job, d0), StartOf(job, d);
    AcceptedLater(job.lines, StartOf(job, d0), s);
    AfterSorted(job.windowSecs, es0, s);
    AfterMaxTs(es0, StartOf(job, d0), s);
    forall r
      ensures r in InputOf(job, d) <==> r in es0 && r.timestamp > s
    {
      AfterMembers(es0, s, r);
    }
  }

  lemma KeyWindow(w: nat, es: seq<Record>, key: RowKey)
    requires w > 0 && key in GroupTable(w, es)
    ensures exists r :: r in es && KeyOf(w, r) == key
  {
    hide Group;
  }

  /** The group-by of the rest agrees with the target, and has every target row after the checkpoint. */
  lemma RestOfTable(job: Job, d0: Durable, d: Durable)
    requires job.windowSecs > 0 && Sound(job, d0) && Safe(job, d0, d)
    ensures var rest := GroupTable(job.windowSecs, InputOf(job, d));
      && (forall key :: key in rest ==> key in Target(job, d0) && rest[key] == Target(job, d0)[key])
      && (forall key :: key in Target(job, d0) && (key.windowStart > StartOf(job, d) || job.recomputeFrom > 0) ==>
            key in rest)
  {
    hide Sound;
    hide Safe;
    hide PoolKey;
    hide WindowSorted;
    hide MaxTsAfter;
    RestOfInput(job, d0, d);
    if job.recomputeFrom == 0 {
      var w, es0, es, s := job.windowSecs, InputOf(job, d0), InputOf(job, d), StartOf(job, d);
      forall key: RowKey | key.windowStart > s
        ensures key in GroupTable(w, es) <==> key in GroupTable(w, es0)
        ensures key in GroupTable(w, es) ==> GroupTable(w, es)[key] == GroupTable(w, es0)[key]
      {
        RestGroup(w, es0, s, key);
      }
      forall key | key in GroupTable(w, es)
        ensures key.windowStart > s
      {
        KeyWindow(w, es, key);
      }
    }
  }

  lemma RestGroup(w: nat, es0: seq<Record>, s: nat, key: RowKey)
    requires w > 0 && key.windowStart > s
    ensures var es := After(es0, s);
      && (key in GroupTable(w, es) <==> key in GroupTable(w, es0))
      && (key in GroupTable(w, es) ==> GroupTable(w, es)[key] == GroupTable(w, es0)[key])
  {
    hide Fold;
    var es := After(es0, s);
    GroupAfter(w, es0, s, key);
    GroupKeys(w, es, key);
    GroupKeys(w, es0, key);
  }

  lemma GroupKeys(w: nat, es: seq<Record>, key: RowKey)
    requires w > 0
    ensures key in Keys(w, es) <==> Group(w, es, key) != []
  {
    var g := Group(w, es, key);
    if g != [] {
      assert g[0] in g;
    }
    if key in Keys(w, es) {
      var r :| r in es && KeyOf(w, r) == key;
      assert r in g;
    }
  }

  // ----- One crashed run keeps the invariant

  lemma PrefixProjects(t: seq<Write>, k: nat)
    requires k <= |t|
    ensures forall m :: m in RowsOf(t[..k]) ==> m in RowsOf(t)
    ensures forall p :: p in PoolsOf(t[..k]) ==> p in PoolsOf(t)
  {
    ProjectConcat(t[..k], t[k..]);
    assert t[..k] + t[k..] == t;
  }

  lemma {:induction false} LastSaveAt(t: seq<Write>, state: Option<nat>)
    ensures LastSave(t, state) == state || exists i :: 0 <= i < |t| && t[i].Save? && LastSave(t, state) == Some(t[i].ts)
  {
    if t != [] && !t[|t| - 1].Save? {
      var init := t[..|t| - 1];
      LastSaveAt(init, state);
      if LastSave(init, state) != state {
        var i :| 0 <= i < |init| && init[i].Save? && LastSave(init, state) == Some(init[i].ts);
        assert t[i] == init[i];
      }
    }
  }

  /** Before the last statement, every save of a run is one the loop made. */
  lemma EarlySaves(job: Job, d: Durable, a: Attempt, i: nat)
    requires job.windowSecs > 0 && Fits(job, d, a)
    requires i < |AttemptTrace(job, d, a)| - 1 && AttemptTrace(job, d, a)[i].Save?
    ensures var cfg := ConfigOf(job, a);
      var loop := Loop(cfg, Fresh(StartOf(job, d)), InputOf(job, d)).1;
      && i < |loop| && loop[i] == AttemptTrace(job, d, a)[i]
      && loop[..i] == AttemptTrace(job, d, a)[..i]
  {
    hide Loop;
    hide AccsAfter;
    hide FlushAll;
    var cfg := ConfigOf(job, a);
    LoopMem(cfg, StartOf(job, d), InputOf(job, d));
    var (m, loop) := Loop(cfg, Fresh(StartOf(job, d)), InputOf(job, d));
    var last := FlushAll(cfg.windowSecs, m, InOrder(m.accs, a.order));
    FlushWritesNoSave(last);
    assert AttemptTrace(job, d, a) == loop + FlushWrites(last) + [Save(m.maxTs)];
    forall j | |loop| <= j < |loop| + |FlushWrites(last)|
      ensures !AttemptTrace(job, d, a)[j].Save?
    {
      assert AttemptTrace(job, d, a)[j] == FlushWrites(last)[j - |loop|];
    }
  }

  /** Writing target rows makes the row of a key final or leaves it alone. */
  lemma WritesTarget(rows: map<RowKey, Row>, ms: seq<Metrics>, target: map<RowKey, Row>, key: RowKey)
    requires forall m :: m in ms ==> m.key in target && target[m.key] == m.row
    ensures var out := UpsertRows(rows, ms);
      && (key in out ==> (key in target && out[key] == target[key]) || (key in rows && out[key] == rows[key]))
      && (key in rows ==> key in out)
      && ((exists m :: m in ms && m.key == key) ==> key in out && key in target && out[key] == target[key])
  {
    UpsertRowsLookup(rows, ms, key);
  }

  lemma WritesOldOrFinal(rows: map<RowKey, Row>, ms: seq<Metrics>, before: map<RowKey, Row>, target: map<RowKey, Row>)
    requires forall m :: m in ms ==> m.key in target && target[m.key] == m.row
    requires RowsOldOrFinal(rows, before, target)
    ensures RowsOldOrFinal(UpsertRows(rows, ms), before, target)
  {
    hide UpsertRows;
    forall key: RowKey {
      WritesTarget(rows, ms, target, key);
    }
  }

  lemma WritesKeepFinal(rows: map<RowKey, Row>, ms: seq<Metrics>, target: map<RowKey, Row>, s: nat)
    requires forall m :: m in ms ==> m.key in target && target[m.key] == m.row
    requires RowsFinalUpTo(rows, target, s)
    ensures RowsFinalUpTo(UpsertRows(rows, ms), target, s)
  {
    hide UpsertRows;
    forall key | key in target && key.windowStart <= s
      ensures key in UpsertRows(rows, ms) && UpsertRows(rows, ms)[key] == target[key]
    {
      WritesTarget(rows, ms, target, key);
    }
  }

  /** Once all rows between `s` and `s'` have been written, the rows up to `s'` are final. */
  lemma WritesMakeFinal(rows: map<RowKey, Row>, ms: seq<Metrics>, target: map<RowKey, Row>, s: nat, s': nat)
    requires forall m :: m in ms ==> m.key in target && target[m.key] == m.row
    requires RowsFinalUpTo(rows, target, s)
    requires forall key :: key in target && s < key.windowStart <= s' ==> exists m :: m in ms && m.key == key
    ensures RowsFinalUpTo(UpsertRows(rows, ms), target, s')
  {
    hide UpsertRows;
    forall key | key in target && key.windowStart <= s'
      ensures key in UpsertRows(rows, ms) && UpsertRows(rows, ms)[key] == target[key]
    {
      WritesTarget(rows, ms, target, key);
    }
  }

  /** The rows of any prefix of a run from a safe state are target rows. */
  lemma AttemptWritesTarget(job: Job, d0: Durable, d: Durable, a: Attempt, k: nat)
    requires job.windowSecs > 0 && Sound(job, d0) && Safe(job, d0, d) && Fits(job, d, a)
    requires k <= |AttemptTrace(job, d, a)|
    ensures forall m :: m in RowsOf(AttemptTrace(job, d, a)[..k]) ==>
      m.key in Target(job, d0) && Target(job, d0)[m.key] == m.row
  {
    hide GroupTable;
    hide PoolKey;
    hide Trace;
    hide WindowSorted;
    hide MaxTsAfter;
    hide Sound;
    hide Safe;
    RestOfInput(job, d0, d);
    RestOfTable(job, d0, d);
    SortedIsContiguous(job.windowSecs, InputOf(job, d));
    RunSendsGroupTable(ConfigOf(job, a), StartOf(job, d), InputOf(job, d), a.order);
    PrefixProjects(AttemptTrace(job, d, a), k);
  }

  /** The job's start cuts no window; with a recompute value that is a condition on the value. */
  ghost predicate Aligned(job: Job, d0: Durable)
    requires job.windowSecs > 0
  {
    && CutsNoWindow(job.windowSecs, InputOf(job, d0), StartOf(job, d0))
    && (job.recomputeFrom == 1 ==> job.windowSecs > 1)
  }

  /** Every event the run reads lies in a window after the run's start. */
  lemma ReadsWholeWindows(job: Job, d0: Durable, d: Durable)
    requires job.windowSecs > 0 && (job.recomputeFrom == 0 || Aligned(job, d0))
    requires Sound(job, d0) && Safe(job, d0, d)
    ensures forall r :: r in InputOf(job, d) ==> WindowStart(r.timestamp, job.windowSecs) > StartOf(job, d)
    ensures forall r :: r in InputOf(job, d) ==> r in InputOf(job, d0)
  {
    hide Sound;
    hide Safe;
    hide OneSpelling;
    hide WindowSorted;
    hide MaxTsAfter;
    RestOfInput(job, d0, d);
    forall r | r in InputOf(job, d)
      ensures r in InputOf(job, d0)
    {
      AfterMembers(InputOf(job, d0), StartOf(job, d), r);
    }
  }

  lemma BoundaryCutsNothing(w: nat, es: seq<Record>, s: nat)
    requires w > 0 && IsBoundary(s + 1, w)
    ensures CutsNoWindow(w, es, s)
  {
    forall r | r in es && r.timestamp > s
      ensures WindowStart(r.timestamp, w) > s
    {
      WindowAfterBoundary(r.timestamp, w, s + 1);
    }
  }

  /** A checkpoint saved by a run from a safe state is safe for the whole input. */
  lemma SavedIsSafe(job: Job, d0: Durable, d: Durable, a: Attempt, i: nat)
    requires job.windowSecs > 0 && (job.recomputeFrom == 0 || Aligned(job, d0))
    requires Sound(job, d0) && Safe(job, d0, d) && Fits(job, d, a)
    requires i < |AttemptTrace(job, d, a)| - 1 && AttemptTrace(job, d, a)[i].Save?
    ensures var t := AttemptTrace(job, d, a);
      && StartOf(job, d) <= t[i].ts <= MaxTsAfter(StartOf(job, d0), InputOf(job, d0))
      && CutsNoWindow(job.windowSecs, InputOf(job, d0), t[i].ts)
      && (exists r :: r in InputOf(job, d0) && WindowStart(r.timestamp, job.windowSecs) > t[i].ts)
      && forall key :: key in Target(job, d0) && StartOf(job, d) < key.windowStart <= t[i].ts ==>
           exists m :: m in RowsOf(t[..i]) && m.key == key
  {
    hide GroupTable;
    hide AttemptTrace;
    hide OneSpelling;
    hide WindowSorted;
    hide CutsNoWindow;
    hide MaxTsAfter;
    hide Sound;
    hide Safe;
    hide Aligned;
    hide Loop;
    hide InputOf;
    hide WindowStart;
    var t := AttemptTrace(job, d, a);
    RestOfInput(job, d0, d);
    RestOfTable(job, d0, d);
    ReadsWholeWindows(job, d0, d);
    EarlySaves(job, d, a, i);
    SavesOldestOf(job, d0, d, a);
    SaveIsSafe(ConfigOf(job, a), StartOf(job, d), InputOf(job, d), i);
    BoundaryCutsNothing(job.windowSecs, InputOf(job, d0), t[i].ts);
  }

  lemma SavesOldestOf(job: Job, d0: Durable, d: Durable, a: Attempt)
    requires job.windowSecs > 0 && (job.recomputeFrom == 0 || Aligned(job, d0))
    ensures SavesOldest(ConfigOf(job, a), StartOf(job, d))
  {
  }

  /** Checkpoint safety is kept by a run that is lost after any number of statements. */
  lemma CrashKeepsSafe(job: Job, d0: Durable, d: Durable, a: Attempt, d': Durable)
    requires job.windowSecs > 0 && Sound(job, d0) && Safe(job, d0, d)
    requires Crashes(job, d, a, d')
    ensures Safe(job, d0, d')
    ensures job.recomputeFrom == 0 ==> NotBefore(d.state, d'.state)
  {
    hide GroupTable;
    hide PoolKey;
    hide AttemptTrace;
    hide MaxTsAfter;
    hide Sound;
    hide CutsNoWindow;
    hide RowsOldOrFinal;
    hide RowsFinalUpTo;
    hide LastSave;
    hide UpsertRows;
    hide Apply;
    var t, k := AttemptTrace(job, d, a), a.survives;
    var s := StartOf(job, d);
    var ms := RowsOf(t[..k]);
    ApplyByTable(d, t[..k]);
    AttemptWritesTarget(job, d0, d, a, k);
    WritesOldOrFinal(d.rows, ms, d0.rows, Target(job, d0));
    if job.recomputeFrom == 0 {
      WritesKeepFinal(d.rows, ms, Target(job, d0), s);
      LastSaveAt(t[..k], d.state);
      if d'.state != d.state {
        var i :| 0 <= i < k && t[i].Save? && d'.state == Some(t[i].ts);
        SavedIsSafe(job, d0, d, a, i);
        SavedRowsWritten(t, k, i, Target(job, d0), s);
        WritesMakeFinal(d.rows, ms, Target(job, d0), s, t[i].ts);
      }
    }
  }

  /** Rows sent before statement `i` are among the rows sent before a later statement. */
  lemma SavedRowsWritten(t: seq<Write>, k: nat, i: nat, target: map<RowKey, Row>, s: nat)
    requires i < k <= |t| && t[i].Save?
    requires forall key :: key in target && s < key.windowStart <= t[i].ts ==>
      exists m :: m in RowsOf(t[..i]) && m.key == key
    ensures forall key :: key in target && s < key.windowStart <= t[i].ts ==>
      exists m :: m in RowsOf(t[..k]) && m.key == key
  {
    PrefixProjects(t[..k], i);
    assert t[..k][..i] == t[..i];
    hide RowsOf;
    forall key | key in target && s < key.windowStart <= t[i].ts
      ensures exists m :: m in RowsOf(t[..k]) && m.key == key
    {
      var m :| m in RowsOf(t[..i]) && m.key == key;
    }
  }

  /** A complete rest on top of rows that are old or final gives exactly the target. */
  lemma RestCompletesTarget(
    rows: map<RowKey, Row>, before: map<RowKey, Row>, target: map<RowKey, Row>, rest: map<RowKey, Row>)
    requires RowsOldOrFinal(rows, before, target)
    requires forall key :: key in rest ==> key in target && rest[key] == target[key]
    requires forall key :: key in target && key !in rest ==> key in rows && rows[key] == target[key]
    ensures rows + rest == before + target
  {
  }

  /** From a safe state one completed run makes every row final. */
  lemma CompletionFromSafe(job: Job, d0: Durable, d: Durable, a: Attempt, d': Durable)
    requires job.windowSecs > 0 && Sound(job, d0) && Safe(job, d0, d)
    requires Completes(job, d, a, d')
    ensures d'.rows == d0.rows + Target(job, d0)
    ensures d'.state == Some(MaxTsAfter(StartOf(job, d0), InputOf(job, d0)))
  {
    hide GroupTable;
    hide MaxTsAfter;
    hide Sound;
    hide Trace;
    hide WindowSorted;
    hide Contiguous;
    hide OneSpelling;
    hide RowsOldOrFinal;
    hide Apply;
    hide AccsAfter;
    hide InputOf;
    var w, es := job.windowSecs, InputOf(job, d);
    RestOfInput(job, d0, d);
    RestOfTable(job, d0, d);
    SortedIsContiguous(w, es);
    RunLeaves(ConfigOf(job, a), StartOf(job, d), es, a.order, d);
    RestCompletesTarget(d.rows, d0.rows, Target(job, d0), GroupTable(w, es));
  }

  lemma StartIsSafe(job: Job, d0: Durable)
    requires job.windowSecs > 0 && Sound(job, d0)
    ensures Safe(job, d0, d0)
  {
    hide Group;
    hide PoolKey;
    var s := StartOf(job, d0);
    MaxTsAtLeast(s, InputOf(job, d0));
    if job.recomputeFrom == 0 {
      forall key | key in Target(job, d0)
        ensures key.windowStart > s
      {
        KeyWindow(job.windowSecs, InputOf(job, d0), key);
      }
    }
  }

  /** A history of crashed runs keeps the state safe; without a recompute value the checkpoint never goes back. */
  lemma {:induction false} HistoryKeepsSafe(job: Job, d0: Durable, ds: seq<Durable>, attempts: seq<Attempt>, n: nat)
    requires job.windowSecs > 0 && History(job, ds, attempts) && Sound(job, d0)
    requires Safe(job, d0, ds[0]) && n < |ds|
    ensures Safe(job, d0, ds[n])
    ensures n > 0 && job.recomputeFrom == 0 ==> NotBefore(ds[n - 1].state, ds[n].state)
  {
    hide Sound;
    hide Safe;
    hide Crashes;
    if n > 0 {
      HistoryKeepsSafe(job, d0, ds, attempts, n - 1);
      CrashKeepsSafe(job, d0, ds[n - 1], attempts[n - 1], ds[n]);
    }
  }

  /**
   * The checkpoint safety invariant holds in every reachable state; without a recompute value the durable
   * checkpoint never goes back.
   */
  lemma HistoryIsSafe(job: Job, ds: seq<Durable>, attempts: seq<Attempt>, n: nat)
    requires job.windowSecs > 0 && History(job, ds, attempts) && Sound(job, ds[0])
    requires n < |ds|
    ensures Safe(job, ds[0], ds[n])
    ensures n > 0 && job.recomputeFrom == 0 ==> NotBefore(ds[n - 1].state, ds[n].state)
  {
    hide Sound;
    hide Safe;
    hide Crashes;
    StartIsSafe(job, ds[0]);
    HistoryKeepsSafe(job, ds[0], ds, attempts, n);
  }

  /**
   * Crash convergence: after any sequence of runs lost at any statement, the first run that completes leaves
   * the metrics table and the checkpoint that a single uninterrupted run would have left, and the table is
   * the old one overridden by the group-by of all accepted events.
   */
  lemma CrashConvergence(
    job: Job, ds: seq<Durable>, attempts: seq<Attempt>, last: Attempt, end: Durable,
    single: Attempt, uninterrupted: Durable)
    requires job.windowSecs > 0 && History(job, ds, attempts) && Sound(job, ds[0])
    requires Completes(job, ds[|attempts|], last, end)
    requires Completes(job, ds[0], single, uninterrupted)
    ensures end.rows == ds[0].rows + GroupTable(job.windowSecs, InputOf(job, ds[0]))
    ensures end.rows == uninterrupted.rows && end.state == uninterrupted.state
  {
    hide Sound;
    hide Safe;
    hide Crashes;
    hide Completes;
    hide GroupTable;
    HistoryIsSafe(job, ds, attempts, |attempts|);
    CompletionFromSafe(job, ds[0], ds[|attempts|], last, end);
    StartIsSafe(job, ds[0]);
    CompletionFromSafe(job, ds[0], ds[0], single, uninterrupted);
  }
}
