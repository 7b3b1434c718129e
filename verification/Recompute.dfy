/**
 * What a job with `--recompute-from` leaves to later runs without it: as soon as it has saved a checkpoint of
 * its own, that checkpoint is safe for a plain run, provided the recompute value lies on a window boundary.  Its
 * own runs start from the recompute value each time, so its checkpoint can go back.
 */
module Recompute {
  import opened Base
  import opened Numerals
  import opened Events
  import opened Windows
  import opened Accumulators
  import opened Stores
  import opened Stream
  import opened GroupBy
  import opened Refinement
  import opened Checkpoints
  import opened Pools
  import opened Crash
  import opened PoolHistory

  /** The same job without the flag. */
  function Plain(job: Job): Job {
    job.(recomputeFrom := 0)
  }

  /** The state from which the plain job reads what the recompute job reads. */
  function PlainStart(job: Job, d0: Durable): Durable {
    d0.(state := Some(StartOf(job, d0)))
  }

  lemma PlainReadsTheSame(job: Job, d0: Durable)
    requires job.windowSecs > 0 && Sound(job, d0) && Aligned(job, d0)
    ensures StartOf(Plain(job), PlainStart(job, d0)) == StartOf(job, d0)
    ensures InputOf(Plain(job), PlainStart(job, d0)) == InputOf(job, d0)
    ensures Sound(Plain(job), PlainStart(job, d0))
  {
    hide OneSpelling;
    hide WindowSorted;
    hide CutsNoWindow;
  }

  /** Either no run of the job has saved a checkpoint yet, or the plain job may start from it. */
  ghost predicate SafeForPlain(job: Job, d0: Durable, d: Durable)
    requires job.windowSecs > 0
  {
    d.state == d0.state || Safe(Plain(job), PlainStart(job, d0), d)
  }

  lemma CrashKeepsSafeForPlain(job: Job, d0: Durable, d: Durable, a: Attempt, d': Durable)
    requires job.windowSecs > 0 && job.recomputeFrom > 0
    requires Sound(job, d0) && Aligned(job, d0) && Safe(job, d0, d)
    requires SafeForPlain(job, d0, d) && Crashes(job, d, a, d')
    ensures SafeForPlain(job, d0, d')
  {
    hide GroupTable;
    hide AttemptTrace;
    hide MaxTsAfter;
    hide Sound;
    hide Aligned;
    hide CutsNoWindow;
    hide RowsOldOrFinal;
    hide RowsFinalUpTo;
    hide LastSave;
    hide UpsertRows;
    hide Apply;
    hide InputOf;
    var t, k := AttemptTrace(job, d, a), a.survives;
    var ms, target := RowsOf(t[..k]), Target(job, d0);
    PlainReadsTheSame(job, d0);
    ApplyByTable(d, t[..k]);
    AttemptWritesTarget(job, d0, d, a, k);
    WritesOldOrFinal(d.rows, ms, d0.rows, target);
    LastSaveAt(t[..k], d.state);
    if d'.state == d.state {
      if d.state != d0.state {
        WritesKeepFinal(d.rows, ms, target, StartOf(Plain(job), d));
      }
    } else {
      var i :| 0 <= i < k && t[i].Save? && d'.state == Some(t[i].ts);
      SavedIsSafe(job, d0, d, a, i);
      SavedRowsWritten(t, k, i, target, StartOf(job, d0));
      NothingBefore(job, d0, d.rows);
      WritesMakeFinal(d.rows, ms, target, StartOf(job, d0), t[i].ts);
    }
  }

  /** No row of an aligned job lies at or before its start. */
  lemma NothingBefore(job: Job, d0: Durable, rows: map<RowKey, Row>)
    requires job.windowSecs > 0 && Aligned(job, d0)
    ensures RowsFinalUpTo(rows, Target(job, d0), StartOf(job, d0))
  {
    hide Group;
    hide GroupTable;
    forall key | key in Target(job, d0)
      ensures key.windowStart > StartOf(job, d0)
    {
      KeyWindow(job.windowSecs, InputOf(job, d0), key);
    }
  }

  /** The same for the pools table. */
  ghost predicate SafePoolsForPlain(job: Job, d0: Durable, d: Durable)
    requires job.windowSecs > 0
  {
    d.state == d0.state || SafePools(Plain(job), PlainStart(job, d0), d)
  }

  lemma CrashKeepsSafePoolsForPlain(job: Job, d0: Durable, d: Durable, a: Attempt, d': Durable)
    requires job.windowSecs > 0 && job.recomputeFrom > 0
    requires Sound(job, d0) && Aligned(job, d0) && Safe(job, d0, d) && SafePools(job, d0, d)
    requires SafePoolsForPlain(job, d0, d) && Crashes(job, d, a, d')
    ensures SafePoolsForPlain(job, d0, d')
  {
    hide GroupTable;
    hide AttemptTrace;
    hide Sound;
    hide Safe;
    hide Aligned;
    hide LastSave;
    hide UpsertAllPools;
    hide Apply;
    hide StoredFrom;
    hide PoolSeenFor;
    hide Seen;
    hide InputOf;
    var t, k := AttemptTrace(job, d, a), a.survives;
    var ps := PoolsOf(t[..k]);
    PlainReadsTheSame(job, d0);
    ApplyByTable(d, t[..k]);
    CrashKeepsSafePools(job, d0, d, a, d');
    SameStored(job, d0, d'.pools);
    LastSaveAt(t[..k], d.state);
    if d'.state != d0.state {
      forall key | key in Target(job, d0) && key.windowStart <= StartOf(Plain(job), d')
        ensures PoolSeenFor(job, d0, d'.pools, key)
      {
        if d'.state == d.state {
          SeenByPlain(job, d0, d, key);
        } else {
          var i :| 0 <= i < k && t[i].Save? && d'.state == Some(t[i].ts);
          StartsAfter(job, d0, key);
          SavedCoversPools(job, d0, d, a, i, key);
          PrefixProjects(t[..k], i);
          assert t[..k][..i] == t[..i];
          SeenLater(job.windowSecs, InputOf(job, d0), PoolsOf(t[..i]), ps, key);
        }
        ReportedFromGroups(job, d0, d, a);
        UpsertKeepsSeen(job, d0, d.pools, ps, key);
      }
      AllSeen(job, d0, d');
    }
  }

  lemma ReportedFromGroups(job: Job, d0: Durable, d: Durable, a: Attempt)
    requires job.windowSecs > 0 && Sound(job, d0) && Safe(job, d0, d) && Fits(job, d, a)
    requires a.survives < |AttemptTrace(job, d, a)|
    ensures forall p :: p in PoolsOf(AttemptTrace(job, d, a)[..a.survives]) ==>
      FromGroup(job.windowSecs, InputOf(job, d0), p)
  {
    hide Sound;
    hide Safe;
    hide AttemptTrace;
    hide FromGroup;
    hide PoolsOf;
    forall p | p in PoolsOf(AttemptTrace(job, d, a)[..a.survives])
      ensures FromGroup(job.windowSecs, InputOf(job, d0), p)
    {
      AttemptReportsGroups(job, d0, d, a, a.survives, p);
    }
  }

  lemma SeenByPlain(job: Job, d0: Durable, d: Durable, key: RowKey)
    requires job.windowSecs > 0 && Sound(job, d0) && Aligned(job, d0)
    requires SafePools(Plain(job), PlainStart(job, d0), d)
    requires key in Target(job, d0) && key.windowStart <= StartOf(Plain(job), d)
    ensures PoolSeenFor(job, d0, d.pools, key)
  {
    hide PoolSeenFor;
    hide GroupTable;
    hide StoredFrom;
    SameSeen(job, d0, d.pools, key);
  }

  lemma SameStored(job: Job, d0: Durable, pools: map<PoolId, Pool>)
    requires job.windowSecs > 0 && Sound(job, d0) && Aligned(job, d0)
    ensures forall id :: id in pools && StoredFrom(job, d0, id, pools[id]) ==>
      StoredFrom(Plain(job), PlainStart(job, d0), id, pools[id])
  {
    hide FromGroup;
    hide InputOf;
    hide SameColumns;
    PlainReadsTheSame(job, d0);
    assert forall id, p :: IsSource(job, d0, id, p) <==> IsSource(Plain(job), PlainStart(job, d0), id, p);
  }

  lemma SameSeen(job: Job, d0: Durable, pools: map<PoolId, Pool>, key: RowKey)
    requires job.windowSecs > 0 && Sound(job, d0) && Aligned(job, d0) && key in Target(job, d0)
    ensures key in Target(Plain(job), PlainStart(job, d0))
    ensures PoolSeenFor(Plain(job), PlainStart(job, d0), pools, key) <==> PoolSeenFor(job, d0, pools, key)
  {
    hide FirstBlockOf;
    hide GroupTable;
    hide SameColumns;
    hide Sound;
    hide Aligned;
    hide FromGroup;
    hide InputOf;
    PlainReadsTheSame(job, d0);
  }

  lemma StartsAfter(job: Job, d0: Durable, key: RowKey)
    requires job.windowSecs > 0 && Aligned(job, d0) && key in Target(job, d0)
    ensures key.windowStart > StartOf(job, d0)
  {
    hide Group;
    hide GroupTable;
    KeyWindow(job.windowSecs, InputOf(job, d0), key);
  }

  lemma SeenLater(w: nat, es: seq<Record>, ps: seq<Pool>, qs: seq<Pool>, key: RowKey)
    requires w > 0 && key in GroupTable(w, es) && Seen(w, es, ps, key) && forall p :: p in ps ==> p in qs
    ensures Seen(w, es, qs, key)
  {
    hide FirstBlockOf;
  }

  lemma AllSeen(job: Job, d0: Durable, d: Durable)
    requires job.windowSecs > 0 && Sound(job, d0) && Aligned(job, d0)
    requires forall id :: id in d.pools ==> StoredFrom(Plain(job), PlainStart(job, d0), id, d.pools[id])
    requires forall id :: id in d0.pools ==> id in d.pools
    requires forall key :: key in Target(job, d0) && key.windowStart <= StartOf(Plain(job), d) ==>
      PoolSeenFor(job, d0, d.pools, key)
    ensures SafePools(Plain(job), PlainStart(job, d0), d)
  {
    hide StoredFrom;
    hide GroupTable;
    hide InputOf;
    hide PoolSeenFor;
    PlainReadsTheSame(job, d0);
    forall key | key in Target(Plain(job), PlainStart(job, d0)) && key.windowStart <= StartOf(Plain(job), d)
      ensures PoolSeenFor(Plain(job), PlainStart(job, d0), d.pools, key)
    {
      SameSeen(job, d0, d.pools, key);
    }
  }

  lemma {:induction false} HistoryIsSafeForPlain(job: Job, ds: seq<Durable>, attempts: seq<Attempt>, n: nat)
    requires job.windowSecs > 0 && job.recomputeFrom > 0 && History(job, ds, attempts)
    requires Sound(job, ds[0]) && Aligned(job, ds[0]) && OwnIds(ds[0].pools) && n < |ds|
    ensures SafeForPlain(job, ds[0], ds[n])
    ensures SafePools(job, ds[0], ds[n]) && SafePoolsForPlain(job, ds[0], ds[n])
  {
    hide Sound;
    hide Aligned;
    hide Safe;
    hide SafePools;
    hide Crashes;
    var d0 := ds[0];
    StartIsSafe(job, d0);
    PoolsStartSafe(job, d0);
    HistoryKeepsSafePools(job, d0, ds, attempts, n);
    if n > 0 {
      hide SafeForPlain;
      hide SafePoolsForPlain;
      HistoryIsSafe(job, ds, attempts, n - 1);
      HistoryIsSafeForPlain(job, ds, attempts, n - 1);
      CrashKeepsSafeForPlain(job, d0, ds[n - 1], attempts[n - 1], ds[n]);
      CrashKeepsSafePoolsForPlain(job, d0, ds[n - 1], attempts[n - 1], ds[n]);
    }
  }

  /**
   * After any crashes of a recompute run that starts on a window boundary, then any crashes of runs without the
   * flag from the checkpoint it left, the first of these to complete leaves the table and the checkpoint of the
   * recompute job, and gives every pool its exact first-seen block.
   */
  lemma PlainRunFinishes(
    job: Job, ds: seq<Durable>, attempts: seq<Attempt>, ps: seq<Durable>, plain: seq<Attempt>,
    last: Attempt, end: Durable, id: PoolId)
    requires job.windowSecs > 0 && job.recomputeFrom > 0 && History(job, ds, attempts)
    requires Sound(job, ds[0]) && Aligned(job, ds[0]) && OwnIds(ds[0].pools)
    requires ds[|attempts|].state != ds[0].state
    requires History(Plain(job), ps, plain) && ps[0] == ds[|attempts|]
    requires Completes(Plain(job), ps[|plain|], last, end)
    ensures end.rows == ds[0].rows + GroupTable(job.windowSecs, InputOf(job, ds[0]))
    ensures end.state == Some(MaxTsAfter(StartOf(job, ds[0]), InputOf(job, ds[0])))
    ensures (forall r :: r in InputOf(job, ds[0]) ==> r.block > 0) ==> FirstSeenExact(job, ds[0], end.pools, id)
  {
    hide Sound;
    hide Aligned;
    hide Safe;
    hide SafePools;
    hide Crashes;
    hide Completes;
    hide GroupTable;
    hide MaxTsAfter;
    hide InputOf;
    hide FirstSeenExact;
    var d0, start := ds[0], PlainStart(job, ds[0]);
    PlainReadsTheSame(job, d0);
    HistoryIsSafeForPlain(job, ds, attempts, |attempts|);
    HistoryKeepsSafe(Plain(job), start, ps, plain, |plain|);
    HistoryKeepsSafePools(Plain(job), start, ps, plain, |plain|);
    CompletionFromSafe(Plain(job), start, ps[|plain|], last, end);
    if forall r :: r in InputOf(job, d0) ==> r.block > 0 {
      CompletionFirstSeen(Plain(job), start, ps[|plain|], last, end, id);
      SameFirstSeen(job, d0, end.pools, id);
    }
  }

  lemma SameFirstSeen(job: Job, d0: Durable, pools: map<PoolId, Pool>, id: PoolId)
    requires job.windowSecs > 0 && Sound(job, d0) && Aligned(job, d0)
    requires FirstSeenExact(Plain(job), PlainStart(job, d0), pools, id)
    ensures FirstSeenExact(job, d0, pools, id)
  {
    hide InputOf;
    hide HasRow;
    PlainReadsTheSame(job, d0);
    assert forall r :: Counts(Plain(job), PlainStart(job, d0), r, id) <==> Counts(job, d0, r, id);
  }

  // ----- Running a recompute job again

  /** A completed recompute run leaves a state from which the job may run again. */
  lemma CompletionIsSafe(job: Job, d0: Durable, d: Durable, a: Attempt, d1: Durable)
    requires job.windowSecs > 0 && job.recomputeFrom > 0 && Sound(job, d0)
    requires Safe(job, d0, d) && Completes(job, d, a, d1)
    ensures Safe(job, d0, d1)
    ensures SafePools(job, d0, d) ==> SafePools(job, d0, d1)
  {
    hide Sound;
    hide Completes;
    hide GroupTable;
    hide MaxTsAfter;
    hide InputOf;
    hide StoredFrom;
    CompletionFromSafe(job, d0, d, a, d1);
    if SafePools(job, d0, d) {
      forall id: PoolId
        ensures id in d1.pools ==> StoredFrom(job, d0, id, d1.pools[id])
        ensures id in d0.pools ==> id in d1.pools
      {
        CompletionStoresGroups(job, d0, d, a, d1, id);
      }
    }
  }

  /**
   * A repeated recompute run leaves the same rows and the same checkpoint, whatever is rejected, and with
   * constant metadata the same pools table, also when it is lost any number of times before it completes.
   */
  lemma RecomputeAgain(
    job: Job, d0: Durable, d: Durable, a: Attempt, ds: seq<Durable>, attempts: seq<Attempt>,
    last: Attempt, end: Durable)
    requires job.windowSecs > 0 && job.recomputeFrom > 0 && Sound(job, d0)
    requires Safe(job, d0, d) && SafePools(job, d0, d)
    requires History(job, ds, attempts) && Completes(job, d, a, ds[0]) && Completes(job, ds[|attempts|], last, end)
    ensures end.rows == ds[0].rows && end.state == ds[0].state
    ensures ConstantMeta(InputOf(job, d0)) && (forall r :: r in InputOf(job, d0) ==> r.block > 0) ==> end == ds[0]
  {
    hide Sound;
    hide Safe;
    hide SafePools;
    hide Completes;
    hide Crashes;
    hide GroupTable;
    hide MaxTsAfter;
    hide InputOf;
    hide ConstantMeta;
    CompletionIsSafe(job, d0, d, a, ds[0]);
    HistoryKeepsSafe(job, d0, ds, attempts, |attempts|);
    HistoryKeepsSafePools(job, d0, ds, attempts, |attempts|);
    CompletionFromSafe(job, d0, d, a, ds[0]);
    CompletionFromSafe(job, d0, ds[|attempts|], last, end);
    if ConstantMeta(InputOf(job, d0)) && forall r :: r in InputOf(job, d0) ==> r.block > 0 {
      CompletionsAgree(job, d0, d, a, ds[0], ds[|attempts|], last, end);
    }
  }

  // ----- Where the checkpoint goes back

  /** Some run of the job saves `v` before its last statement. */
  ghost predicate SavesMidRun(job: Job, d0: Durable, v: nat)
    requires job.windowSecs > 0
  {
    exists a, i: nat :: IsMidSave(job, d0, a, i, v)
  }

  ghost predicate IsMidSave(job: Job, d0: Durable, a: Attempt, i: nat, v: nat)
    requires job.windowSecs > 0
  {
    Fits(job, d0, a) && i < |AttemptTrace(job, d0, a)| - 1 && AttemptTrace(job, d0, a)[i] == Save(v)
  }

  /** The durable checkpoint is lower, or gone, at some later point. */
  ghost predicate GoesBack(ds: seq<Durable>) {
    exists m, n :: 0 <= m < n < |ds| && !NotBefore(ds[m].state, ds[n].state)
  }

  /** There is a history of lost runs from `d0` in which the checkpoint goes back. */
  ghost predicate MayGoBack(job: Job, d0: Durable)
    requires job.windowSecs > 0
  {
    exists ds: seq<Durable>, attempts: seq<Attempt> ::
      History(job, ds, attempts) && ds[0] == d0 && GoesBack(ds)
  }

  /**
   * A recompute job reads the same input after every crash and saves the early checkpoints again: crashes can take
   * the register back if and only if some value saved in the middle of a run lies below another such value, or
   * below the checkpoint held at the start.
   */
  lemma CheckpointGoesBack(job: Job, d0: Durable)
    requires job.windowSecs > 0 && job.recomputeFrom > 0
    ensures MayGoBack(job, d0) <==>
      exists v: nat :: SavesMidRun(job, d0, v)
        && ((d0.state.Some? && v < d0.state.value) || exists v': nat :: v < v' && SavesMidRun(job, d0, v'))
  {
    hide SavesMidRun;
    hide Crashes;
    hide GoesBack;
    if MayGoBack(job, d0) {
      var ds: seq<Durable>, attempts: seq<Attempt> :|
        History(job, ds, attempts) && ds[0] == d0 && GoesBack(ds);
      var v := LowerSave(job, ds, attempts);
    }
    if v: nat :| SavesMidRun(job, d0, v) && d0.state.Some? && v < d0.state.value {
      OneCrashGoesBack(job, d0, v);
    }
    if v: nat, v': nat :| SavesMidRun(job, d0, v) && v < v' && SavesMidRun(job, d0, v') {
      TwoCrashesGoBack(job, d0, v, v');
    }
  }

  /** Between two points of a history the register stays, or holds a value saved in the middle of a run. */
  lemma {:induction false} RegisterMoves(job: Job, ds: seq<Durable>, attempts: seq<Attempt>, m: nat, n: nat)
    requires job.windowSecs > 0 && job.recomputeFrom > 0 && History(job, ds, attempts) && m <= n < |ds|
    ensures ds[n].state == ds[m].state || (ds[n].state.Some? && SavesMidRun(job, ds[0], ds[n].state.value))
  {
    hide SavesMidRun;
    hide Crashes;
    if m < n {
      RegisterMoves(job, ds, attempts, m, n - 1);
      RegisterMove(job, ds[0], ds[n - 1], attempts[n - 1], ds[n]);
    }
  }

  lemma RegisterMove(job: Job, d0: Durable, d: Durable, a: Attempt, d': Durable)
    requires job.windowSecs > 0 && job.recomputeFrom > 0 && Crashes(job, d, a, d')
    ensures d'.state == d.state || (d'.state.Some? && SavesMidRun(job, d0, d'.state.value))
  {
    hide Trace;
    hide Apply;
    hide AccsAfter;
    hide Accepted;
    hide LastSave;
    var t, k := AttemptTrace(job, d, a), a.survives;
    assert AttemptTrace(job, d0, a) == t;
    ApplyByTable(d, t[..k]);
    LastSaveAt(t[..k], d.state);
    if d'.state != d.state {
      var i :| 0 <= i < k && t[..k][i].Save? && d'.state == Some(t[..k][i].ts);
      assert IsMidSave(job, d0, a, i, t[i].ts);
    }
  }

  lemma LowerSave(job: Job, ds: seq<Durable>, attempts: seq<Attempt>) returns (v: nat)
    requires job.windowSecs > 0 && job.recomputeFrom > 0 && History(job, ds, attempts) && GoesBack(ds)
    ensures SavesMidRun(job, ds[0], v)
    ensures (ds[0].state.Some? && v < ds[0].state.value) || exists v': nat :: v < v' && SavesMidRun(job, ds[0], v')
  {
    hide SavesMidRun;
    hide Crashes;
    var m, n :| 0 <= m < n < |ds| && !NotBefore(ds[m].state, ds[n].state);
    RegisterMoves(job, ds, attempts, 0, m);
    RegisterMoves(job, ds, attempts, m, n);
    v := ds[n].state.value;
  }

  lemma OneCrashGoesBack(job: Job, d0: Durable, v: nat)
    requires job.windowSecs > 0 && job.recomputeFrom > 0
    requires SavesMidRun(job, d0, v) && d0.state.Some? && v < d0.state.value
    ensures MayGoBack(job, d0)
  {
    hide Crashes;
    hide AttemptTrace;
    hide Fits;
    var a, i: nat :| IsMidSave(job, d0, a, i, v);
    var d1 := CrashAfterSave(job, d0, d0, a, i);
    var ds, attempts := [d0, d1], [a.(survives := i + 1)];
    assert History(job, ds, attempts);
    assert !NotBefore(ds[0].state, ds[1].state);
  }

  lemma TwoCrashesGoBack(job: Job, d0: Durable, v: nat, v': nat)
    requires job.windowSecs > 0 && job.recomputeFrom > 0
    requires SavesMidRun(job, d0, v) && SavesMidRun(job, d0, v') && v < v'
    ensures MayGoBack(job, d0)
  {
    hide Crashes;
    hide AttemptTrace;
    hide Fits;
    var a, i: nat :| IsMidSave(job, d0, a, i, v);
    var b, j: nat :| IsMidSave(job, d0, b, j, v');
    var ds, attempts := SavesInTurn(job, d0, b, j, a, i);
    assert !NotBefore(ds[1].state, ds[2].state);
  }

  /** Two runs of a recompute job, each lost right after a save of its own. */
  lemma SavesInTurn(job: Job, d0: Durable, a: Attempt, i: nat, b: Attempt, j: nat)
    returns (ds: seq<Durable>, attempts: seq<Attempt>)
    requires job.windowSecs > 0 && job.recomputeFrom > 0 && Fits(job, d0, a) && Fits(job, d0, b)
    requires i < |AttemptTrace(job, d0, a)| - 1 && AttemptTrace(job, d0, a)[i].Save?
    requires j < |AttemptTrace(job, d0, b)| - 1 && AttemptTrace(job, d0, b)[j].Save?
    ensures History(job, ds, attempts) && |attempts| == 2 && ds[0] == d0
    ensures ds[1].state == Some(AttemptTrace(job, d0, a)[i].ts) && ds[2].state == Some(AttemptTrace(job, d0, b)[j].ts)
  {
    hide Crashes;
    hide AttemptTrace;
    var d1 := CrashAfterSave(job, d0, d0, a, i);
    var d2 := CrashAfterSave(job, d0, d1, b, j);
    ds, attempts := [d0, d1, d2], [a.(survives := i + 1), b.(survives := j + 1)];
  }

  /** A run of a recompute job that is lost right after its statement `i`, from any durable state. */
  lemma CrashAfterSave(job: Job, d0: Durable, d: Durable, a: Attempt, i: nat) returns (d': Durable)
    requires job.windowSecs > 0 && job.recomputeFrom > 0 && Fits(job, d0, a)
    requires i < |AttemptTrace(job, d0, a)| - 1 && AttemptTrace(job, d0, a)[i].Save?
    ensures Crashes(job, d, a.(survives := i + 1), d')
    ensures d'.state == Some(AttemptTrace(job, d0, a)[i].ts)
  {
    hide Trace;
    hide Apply;
    hide AccsAfter;
    hide Accepted;
    var t := AttemptTrace(job, d0, a);
    assert AttemptTrace(job, d, a.(survives := i + 1)) == t;
    d' := Apply(d, t[..i + 1]);
    ApplyByTable(d, t[..i + 1]);
  }

  /** Three events of one pool in the windows that start at 100, 200 and 300. */
  ghost predicate ThreeWindows(r: Record, s: Record, t: Record) {
    && WindowStart(r.timestamp, 100) == 100
    && WindowStart(s.timestamp, 100) == 200
    && WindowStart(t.timestamp, 100) == 300
    && r.address == s.address == t.address
    && r.meta.Present() && s.meta.Present() && t.meta.Present()
    && !TradeOf(r).Rejected? && !TradeOf(s).Rejected? && !TradeOf(t).Rejected?
  }

  lemma ThreeWindowsExists()
    ensures exists r, s, t :: ThreeWindows(r, s, t)
  {
    var r := Record(56, "0xP", 7, 105, "Swap", Some(SwapAmounts("5", "-3")), PoolMeta("A", "B", 2500, 50));
    var s := r.(block := 8, timestamp := 205);
    var t := r.(block := 9, timestamp := 305);
    assert ToLower("Swap") == "swap" by {
      assert LowerChar('S') == 's';
    }
    assert AllDigits("5") && AllDigits("-3"[1..]);
    assert ThreeWindows(r, s, t);
  }

  /** One pool is open in the window that starts at `start`, and carries metadata. */
  ghost predicate OneOpen(m: Mem, key: string, start: nat) {
    m.accs.Keys == {key} && m.accs[key].windowStart == start && m.accs[key].meta.Present()
  }

  /** With a batch size of one, an event of a later window sends the closed window and saves. */
  lemma NextWindowSaves(cfg: Config, n: nat, m: Mem, r: Record, start: nat)
    requires cfg.windowSecs == 100 && cfg.batchSize == 1 && OneOpen(m, PoolKey(r.address), start)
    requires 1 < WindowStart(r.timestamp, 100) != start && r.meta.Present() && !TradeOf(r).Rejected?
    ensures var (m', t) := Step(cfg, n, m, r);
      && OneOpen(m', PoolKey(r.address), WindowStart(r.timestamp, 100))
      && t != [] && t[|t| - 1] == Save(WindowStart(r.timestamp, 100) - 1)
  {
    hide PoolKey;
    hide TradeOf;
    hide Contribution;
    hide WindowStart;
    hide FlushWrites;
    hide Found;
    var m1 := Consume(100, m, r);
    FlushAllRows(100, m, ClosedBy(100, m.accs, r));
    assert ClosedBy(100, m.accs, r)[..0] == [];
    assert PoolKey(r.address) in m1.accs;
    FoundIsMinOpen(cfg.scans, n, m1.accs);
  }

  lemma FirstWindowOpens(cfg: Config, r: Record)
    requires cfg.windowSecs == 100 && cfg.batchSize == 1 && r.meta.Present()
    ensures OneOpen(Step(cfg, 0, Fresh(99), r).0, PoolKey(r.address), WindowStart(r.timestamp, 100))
  {
    hide PoolKey;
    hide TradeOf;
    hide Contribution;
    hide WindowStart;
    hide Found;
  }

  /**
   * Such events, with windows of 100 seconds, a recompute value of 100 and a batch size of one, save 199 and 299
   * in the middle of the run, so two crashes take the checkpoint from 299 to 199.
   */
  lemma GoesBackOnThreeWindows(
    r: Record, s: Record, t: Record, scans: seq<seq<string>>, order: seq<string>, d0: Durable)
    returns (ds: seq<Durable>, attempts: seq<Attempt>)
    requires ThreeWindows(r, s, t)
    requires ValidOrder(order, AccsAfter(100, [r, s, t]))
    ensures History(Job(100, 100, [Event(r), Event(s), Event(t)]), ds, attempts) && |attempts| == 2 && ds[0] == d0
    ensures ds[1].state == Some(299) && ds[2].state == Some(199)
  {
    hide AccsAfter;
    hide TradeOf;
    hide PoolKey;
    hide Step;
    hide Trace;
    var job, a := Job(100, 100, [Event(r), Event(s), Event(t)]), Attempt(1, scans, order, 0);
    ThreeLines(r, s, t);
    var i, j := SavesOfThree(r, s, t, ConfigOf(job, a), order);
    ds, attempts := SavesInTurn(job, d0, a, j, a, i);
  }

  lemma ThreeLines(r: Record, s: Record, t: Record)
    requires ThreeWindows(r, s, t)
    ensures Accepted([Event(r), Event(s), Event(t)], 99) == [r, s, t]
  {
    hide TradeOf;
    var lines := [Event(r), Event(s), Event(t)];
    assert lines[..2] == [Event(r), Event(s)] && lines[..2][..1] == [Event(r)] && [Event(r)][..0] == [];
    assert Accepted([Event(r)], 99) == [r];
    assert Accepted([Event(r), Event(s)], 99) == [r, s];
  }

  lemma SavesOfThree(r: Record, s: Record, t: Record, cfg: Config, order: seq<string>) returns (i: nat, j: nat)
    requires ThreeWindows(r, s, t) && cfg.windowSecs == 100 && cfg.batchSize == 1
    requires ValidOrder(order, AccsAfter(100, [r, s, t]))
    ensures var w := Trace(cfg, 99, [r, s, t], order);
      i < j < |w| - 1 && w[i] == Save(199) && w[j] == Save(299)
  {
    hide AccsAfter;
    hide TradeOf;
    hide PoolKey;
    hide Step;
    hide Finish;
    var es := [r, s, t];
    assert es[..2] == [r, s] && es[..2][..1] == [r] && [r][..0] == [];
    LoopMem(cfg, 99, es);
    FirstWindowOpens(cfg, r);
    var (m1, t1) := Loop(cfg, Fresh(99), [r]);
    LoopOfOne(cfg, Fresh(99), r);
    NextWindowSaves(cfg, 1, m1, s, 100);
    var (m2, t2) := Loop(cfg, Fresh(99), [r, s]);
    NextWindowSaves(cfg, 2, m2, t, 200);
    var (m3, t3) := Loop(cfg, Fresh(99), es);
    i, j := |t2| - 1, |t3| - 1;
    LastIsSave(cfg, m3, order);
  }

  lemma LoopOfOne(cfg: Config, m: Mem, r: Record)
    requires cfg.windowSecs > 0
    ensures Loop(cfg, m, [r]).0 == Step(cfg, 0, m, r).0
  {
    hide Step;
    assert [r][..0] == [];
    assert Loop(cfg, m, []) == (m, []);
  }

  lemma LastIsSave(cfg: Config, m: Mem, order: seq<string>)
    requires forall k :: k in order ==> k in m.accs
    ensures Finish(cfg, m, order) != []
  {
  }
}
