/** The whole durable state over an input file that grows between lost runs. */
module StateGrowth {
  import opened Events
  import opened Accumulators
  import opened Stores
  import opened Stream
  import opened GroupBy
  import opened Refinement
  import opened Pools
  import opened Crash
  import opened PoolHistory
  import opened Growth
  import opened PoolGrowth

  /** `p` is stored under `id` and carries the columns of an event of its pool. */
  ghost predicate HasColumns(es: seq<Record>, id: PoolId, p: Pool) {
    exists r :: r in es && PoolId(r.chainId, r.address) == id
      && p == Pool(r.chainId, r.address, r.meta.token0, r.meta.token1, r.meta.fee, r.meta.tickSpacing, p.firstSeenBlock)
  }

  /** Every record of the pools table has such columns, or is as it was at the start. */
  ghost predicate ColumnsFrom(es: seq<Record>, before: map<PoolId, Pool>, pools: map<PoolId, Pool>) {
    forall id :: id in pools ==> HasColumns(es, id, pools[id]) || (id in before && pools[id] == before[id])
  }

  predicate AllIn(es: seq<Record>, all: seq<Record>) {
    forall r :: r in es ==> r in all
  }

  /** The invariant, about the events `all` of the input the file grows into. */
  ghost predicate ColumnsMayGrow(all: seq<Record>, job: Job, d0: Durable, d: Durable)
    requires job.windowSecs > 0
  {
    && ColumnsFrom(all, d0.pools, d.pools)
    && forall key :: key in Target(job, d0) && !IsOpenKey(job, d0, d, key) ==>
         IdOf(key) in d.pools && HasColumns(all, IdOf(key), d.pools[IdOf(key)])
  }

  /** Pool records of groups carry the columns of an event. */
  lemma GroupColumns(w: nat, es: seq<Record>, all: seq<Record>, p: Pool)
    requires w > 0 && FromGroup(w, es, p) && AllIn(es, all)
    ensures HasColumns(all, p.Id(), p)
  {
    hide Fold;
    hide GroupTable;
    var key :| IsPoolOfGroup(w, es, p, key);
    TargetGroup(w, es, key);
    var g := Group(w, es, key);
    FoldIsSum(w, g);
    assert g[0] in g;
    hide Group;
    assert g[0] in es && g[0] in all;
  }

  lemma UpsertColumns(all: seq<Record>, before: map<PoolId, Pool>, pools: map<PoolId, Pool>, ps: seq<Pool>, id: PoolId)
    requires ColumnsFrom(all, before, pools)
    requires forall p :: p in ps ==> HasColumns(all, p.Id(), p)
    ensures var out := UpsertAllPools(pools, ps);
      && (id in out ==> HasColumns(all, id, out[id]) || (id in before && out[id] == before[id]))
      && (id in pools && HasColumns(all, id, pools[id]) ==> id in out && HasColumns(all, id, out[id]))
      && ((exists p :: p in ps && p.Id() == id) ==> id in out && HasColumns(all, id, out[id]))
  {
    hide UpsertAllPools;
    UpsertPoolsLookup(pools, ps, id);
    var out := UpsertAllPools(pools, ps);
    if p :| p in ps && p.Id() == id && SameColumns(p, out[id]) {
      SameColumnsHas(all, id, p, out[id]);
    }
  }

  lemma SameColumnsHas(all: seq<Record>, id: PoolId, p: Pool, q: Pool)
    requires HasColumns(all, id, p) && SameColumns(p, q)
    ensures HasColumns(all, id, q)
  {
  }

  /** Any prefix of a run keeps the columns. */
  lemma RunColumns(all: seq<Record>, job: Job, d0: Durable, d: Durable, a: Attempt, k: nat, id: PoolId)
    requires job.windowSecs > 0 && Sound(job, d0) && SafeToGrow(job, d0, d) && Fits(job, d, a)
    requires AllIn(InputOf(job, d0), all) && ColumnsFrom(all, d0.pools, d.pools) && k <= |AttemptTrace(job, d, a)|
    ensures var ps := PoolsOf(AttemptTrace(job, d, a)[..k]);
      var out := UpsertAllPools(d.pools, ps);
      && (id in out ==> HasColumns(all, id, out[id]) || (id in d0.pools && out[id] == d0.pools[id]))
      && (id in d.pools && HasColumns(all, id, d.pools[id]) ==> id in out && HasColumns(all, id, out[id]))
      && ((exists p :: p in ps && p.Id() == id) ==> id in out && HasColumns(all, id, out[id]))
  {
    hide GroupTable;
    hide Sound;
    hide Safe;
    hide RowsSettled;
    hide AtBoundary;
    hide SettledRows;
    hide FromGroup;
    hide HasColumns;
    hide Trace;
    hide AccsAfter;
    hide Accepted;
    hide UpsertAllPools;
    var ps := PoolsOf(AttemptTrace(job, d, a)[..k]);
    forall p | p in ps
      ensures HasColumns(all, p.Id(), p)
    {
      AttemptReportsGroups(job, d0, Settled(job, d0, d), a, k, p);
      GroupColumns(job.windowSecs, InputOf(job, d0), all, p);
    }
    UpsertColumns(all, d0.pools, d.pools, ps, id);
  }

  lemma CrashKeepsColumns(all: seq<Record>, job: Job, d0: Durable, d: Durable, a: Attempt, d': Durable)
    requires job.windowSecs > 0 && Sound(job, d0) && SafeToGrow(job, d0, d) && Crashes(job, d, a, d')
    requires AllIn(InputOf(job, d0), all) && ColumnsMayGrow(all, job, d0, d)
    ensures ColumnsMayGrow(all, job, d0, d')
  {
    hide Group;
    hide GroupTable;
    hide Sound;
    hide SafeToGrow;
    hide HasColumns;
    hide IsOpenKey;
    hide AttemptTrace;
    hide Apply;
    hide UpsertAllPools;
    hide InputOf;
    hide AllIn;
    hide FirstBlockOf;
    var t, k := AttemptTrace(job, d, a), a.survives;
    ApplyByTable(d, t[..k]);
    forall id | id in d'.pools
      ensures HasColumns(all, id, d'.pools[id]) || (id in d0.pools && d'.pools[id] == d0.pools[id])
    {
      RunColumns(all, job, d0, d, a, k, id);
    }
    forall key | key in Target(job, d0) && !IsOpenKey(job, d0, d', key)
      ensures IdOf(key) in d'.pools && HasColumns(all, IdOf(key), d'.pools[IdOf(key)])
    {
      RunColumns(all, job, d0, d, a, k, IdOf(key));
      if IsOpenKey(job, d0, d, key) {
        NewlyCoveredSeen(job, d0, d, a, d', key);
      }
    }
  }

  lemma GrowthKeepsColumns(all: seq<Record>, job: Job, more: seq<Line>, d0: Durable, d: Durable)
    requires job.windowSecs > 0 && Sound(Longer(job, more), d0) && AtBoundary(job, d0, d)
    requires ColumnsMayGrow(all, job, d0, d)
    ensures ColumnsMayGrow(all, Longer(job, more), d0, d)
  {
    hide Sound;
    hide AtBoundary;
    hide HasColumns;
    hide IsOpenKey;
    hide GroupTable;
    hide Group;
    forall key | key in Target(Longer(job, more), d0) && !IsOpenKey(Longer(job, more), d0, d, key)
      ensures IdOf(key) in d.pools && HasColumns(all, IdOf(key), d.pools[IdOf(key)])
    {
      SettledEvents(job, more, d0, d, key);
    }
  }

  lemma StartColumns(all: seq<Record>, job: Job, d0: Durable)
    requires job.windowSecs > 0 && Sound(job, d0)
    ensures ColumnsMayGrow(all, job, d0, d0)
  {
    hide Sound;
    hide GroupTable;
    hide IsOpenKey;
    hide HasColumns;
    forall key | key in Target(job, d0)
      ensures IsOpenKey(job, d0, d0, key)
    {
      StartsLater(job, d0, key);
    }
  }

  lemma {:induction false} HistoryColumns(
    all: seq<Record>, jobs: seq<Job>, ds: seq<Durable>, attempts: seq<Attempt>, n: nat)
    requires GrowingHistory(jobs, ds, attempts) && Sound(jobs[|attempts|], ds[0]) && n <= |attempts|
    requires all == InputOf(jobs[|attempts|], ds[0])
    ensures ColumnsMayGrow(all, jobs[n], ds[0], ds[n])
  {
    hide Sound;
    hide Crashes;
    hide SafeToGrow;
    hide AtBoundary;
    hide ColumnsMayGrow;
    hide InputOf;
    SoundAt(jobs, ds, attempts, n);
    if n == 0 {
      StartColumns(all, jobs[0], ds[0]);
    } else {
      var job, longer := jobs[n - 1], jobs[n];
      SoundAt(jobs, ds, attempts, n - 1);
      InputsBefore(jobs, ds, attempts, n - 1);
      HistoryColumns(all, jobs, ds, attempts, n - 1);
      HistoryMayGrow(jobs, ds, attempts, n - 1);
      CrashKeepsColumns(all, job, ds[0], ds[n - 1], attempts[n - 1], ds[n]);
      CrashKeepsBoundary(job, ds[0], ds[n - 1], attempts[n - 1], ds[n]);
      var more := longer.lines[|job.lines|..];
      assert longer == Longer(job, more);
      GrowthKeepsColumns(all, job, more, ds[0], ds[n]);
    }
  }

  // ----- Completion

  /** A completed run stores the columns of every group with a row. */
  lemma CompletionStoresColumns(
    all: seq<Record>, job: Job, d0: Durable, d: Durable, a: Attempt, d': Durable, key: RowKey)
    requires job.windowSecs > 0 && Sound(job, d0) && SafeToGrow(job, d0, d) && Completes(job, d, a, d')
    requires all == InputOf(job, d0) && ColumnsMayGrow(all, job, d0, d) && key in Target(job, d0)
    ensures IdOf(key) in d'.pools && HasColumns(all, IdOf(key), d'.pools[IdOf(key)])
  {
    hide Sound;
    hide Safe;
    hide RowsSettled;
    hide AtBoundary;
    hide SettledRows;
    hide HasColumns;
    hide Trace;
    hide Apply;
    hide UpsertAllPools;
    hide GroupTable;
    hide Group;
    hide Accepted;
    hide FirstBlockOf;
    var e, t := Settled(job, d0, d), AttemptTrace(job, d, a);
    ApplyByTable(d, t);
    assert t[..|t|] == t;
    RunColumns(all, job, d0, d, a, |t|, IdOf(key));
    if IsOpenKey(job, d0, d, key) {
      RestOfTable(job, d0, e);
      AttemptSeesPool(job, d0, e, a, key);
    }
  }

  lemma CompletionColumnsFrom(
    all: seq<Record>, job: Job, d0: Durable, d: Durable, a: Attempt, d': Durable, id: PoolId)
    requires job.windowSecs > 0 && Sound(job, d0) && SafeToGrow(job, d0, d) && Completes(job, d, a, d')
    requires all == InputOf(job, d0) && ColumnsMayGrow(all, job, d0, d) && id in d'.pools
    ensures HasColumns(all, id, d'.pools[id]) || (id in d0.pools && d'.pools[id] == d0.pools[id])
  {
    hide Sound;
    hide SafeToGrow;
    hide HasColumns;
    hide AttemptTrace;
    hide Apply;
    hide UpsertAllPools;
    hide InputOf;
    hide GroupTable;
    var t := AttemptTrace(job, d, a);
    ApplyByTable(d, t);
    assert t[..|t|] == t;
    RunColumns(all, job, d0, d, a, |t|, id);
  }

  /** With constant metadata every event belongs to a group with a row. */
  lemma ConstantCounts(job: Job, d0: Durable, r: Record)
    requires job.windowSecs > 0 && ConstantMeta(InputOf(job, d0)) && r in InputOf(job, d0)
    ensures Counts(job, d0, r, PoolId(r.chainId, r.address))
    ensures KeyOf(job.windowSecs, r) in Target(job, d0)
  {
    hide Fold;
    hide PoolKey;
    var w, es := job.windowSecs, InputOf(job, d0);
    var g := Group(w, es, KeyOf(w, r));
    assert r in g && g[0] in g;
  }

  /** After a growing history each pool with events has their columns. */
  lemma PoolWithEvents(
    jobs: seq<Job>, ds: seq<Durable>, attempts: seq<Attempt>, last: Attempt, end: Durable, r: Record)
    requires GrowingHistory(jobs, ds, attempts) && Sound(jobs[|attempts|], ds[0])
    requires Completes(jobs[|attempts|], ds[|attempts|], last, end)
    requires ConstantMeta(InputOf(jobs[|attempts|], ds[0])) && r in InputOf(jobs[|attempts|], ds[0])
    ensures var id := PoolId(r.chainId, r.address);
      id in end.pools && HasColumns(InputOf(jobs[|attempts|], ds[0]), id, end.pools[id])
  {
    hide Sound;
    hide Crashes;
    hide Completes;
    hide SafeToGrow;
    hide ConstantMeta;
    hide ColumnsMayGrow;
    hide HasColumns;
    hide GroupTable;
    hide InputOf;
    var n := |attempts|;
    var job, d0, d, all := jobs[n], ds[0], ds[n], InputOf(jobs[n], ds[0]);
    HistoryMayGrow(jobs, ds, attempts, n);
    HistoryColumns(all, jobs, ds, attempts, n);
    ConstantCounts(job, d0, r);
    CompletionStoresColumns(all, job, d0, d, last, end, KeyOf(job.windowSecs, r));
  }

  /** A pool without events is as it was. */
  lemma PoolWithoutEvents(
    jobs: seq<Job>, ds: seq<Durable>, attempts: seq<Attempt>, last: Attempt, end: Durable, id: PoolId)
    requires GrowingHistory(jobs, ds, attempts) && Sound(jobs[|attempts|], ds[0])
    requires Completes(jobs[|attempts|], ds[|attempts|], last, end) && id in end.pools
    requires forall r :: r in InputOf(jobs[|attempts|], ds[0]) ==> PoolId(r.chainId, r.address) != id
    ensures id in ds[0].pools && end.pools[id] == ds[0].pools[id]
  {
    hide Sound;
    hide Crashes;
    hide Completes;
    hide SafeToGrow;
    hide ColumnsMayGrow;
    hide InputOf;
    var n := |attempts|;
    var all := InputOf(jobs[n], ds[0]);
    HistoryMayGrow(jobs, ds, attempts, n);
    HistoryColumns(all, jobs, ds, attempts, n);
    CompletionColumnsFrom(all, jobs[n], ds[0], ds[n], last, end, id);
  }

  lemma SameMeta(all: seq<Record>, id: PoolId, p: Pool, q: Pool)
    requires ConstantMeta(all) && HasColumns(all, id, p) && HasColumns(all, id, q)
    ensures SameColumns(p, q)
  {
    hide PoolKey;
  }

  /** The least block over the start and the counting events is one number. */
  lemma SameFirstSeen(job: Job, d0: Durable, pools: map<PoolId, Pool>, pools': map<PoolId, Pool>, id: PoolId)
    requires job.windowSecs > 0 && FirstSeenExact(job, d0, pools, id) && FirstSeenExact(job, d0, pools', id)
    ensures id in pools <==> id in pools'
    ensures id in pools ==> pools[id].firstSeenBlock == pools'[id].firstSeenBlock
  {
    hide Counts;
  }

  lemma SamePool(
    jobs: seq<Job>, ds: seq<Durable>, attempts: seq<Attempt>, last: Attempt, end: Durable,
    single: Attempt, whole: Durable, id: PoolId)
    requires GrowingHistory(jobs, ds, attempts) && Sound(jobs[|attempts|], ds[0])
    requires Completes(jobs[|attempts|], ds[|attempts|], last, end)
    requires Completes(jobs[|attempts|], ds[0], single, whole)
    requires ConstantMeta(InputOf(jobs[|attempts|], ds[0]))
    requires PositiveBlocks(InputOf(jobs[|attempts|], ds[0]))
    ensures id in end.pools <==> id in whole.pools
    ensures id in end.pools ==> end.pools[id] == whole.pools[id]
  {
    hide Sound;
    hide Crashes;
    hide Completes;
    hide ConstantMeta;
    hide HasColumns;
    hide FirstSeenExact;
    hide InputOf;
    var job, d0 := jobs[|attempts|], ds[0];
    var all := InputOf(job, d0);
    GrowingFirstSeen(jobs, ds, attempts, last, end, id);
    GrowingFirstSeen([job], [d0], [], single, whole, id);
    SameFirstSeen(job, d0, end.pools, whole.pools, id);
    if r :| r in all && PoolId(r.chainId, r.address) == id {
      PoolWithEvents(jobs, ds, attempts, last, end, r);
      PoolWithEvents([job], [d0], [], single, whole, r);
      SameMeta(all, id, end.pools[id], whole.pools[id]);
    } else if id in end.pools {
      PoolWithoutEvents(jobs, ds, attempts, last, end, id);
      PoolWithoutEvents([job], [d0], [], single, whole, id);
    }
  }

  /**
   * With constant metadata, any sequence of lost runs over an input that grows in between and one completed run
   * leave the rows, the pools and the checkpoint of one uninterrupted run on the whole input.
   */
  lemma GrowingStateConverges(
    jobs: seq<Job>, ds: seq<Durable>, attempts: seq<Attempt>, last: Attempt, end: Durable,
    single: Attempt, whole: Durable)
    requires GrowingHistory(jobs, ds, attempts) && Sound(jobs[|attempts|], ds[0])
    requires Completes(jobs[|attempts|], ds[|attempts|], last, end)
    requires Completes(jobs[|attempts|], ds[0], single, whole)
    requires ConstantMeta(InputOf(jobs[|attempts|], ds[0]))
    requires forall r :: r in InputOf(jobs[|attempts|], ds[0]) ==> r.block > 0
    ensures end == whole
  {
    hide Sound;
    hide Crashes;
    hide Completes;
    hide ConstantMeta;
    hide InputOf;
    hide GroupTable;
    hide MaxTsAfter;
    var job, d0 := jobs[|attempts|], ds[0];
    GrowingInputConverges(jobs, ds, attempts, last, end);
    GrowingInputConverges([job], [d0], [], single, whole);
    forall id: PoolId
      ensures id in end.pools <==> id in whole.pools
      ensures id in end.pools ==> end.pools[id] == whole.pools[id]
    {
      SamePool(jobs, ds, attempts, last, end, single, whole, id);
    }
  }
}
