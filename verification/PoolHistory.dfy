/** The pools table over histories of crashed runs. */
module PoolHistory {
  import opened Events
  import opened Accumulators
  import opened Stores
  import opened Stream
  import opened GroupBy
  import opened Refinement
  import opened Pools
  import opened Crash

  /** A pool record that may determine what is stored: the one stored at the start, or one of a group with a row. */
  ghost predicate IsSource(job: Job, d0: Durable, id: PoolId, p: Pool)
    requires job.windowSecs > 0
  {
    p.Id() == id && (FromGroup(job.windowSecs, InputOf(job, d0), p) || (id in d0.pools && p == d0.pools[id]))
  }

  /** The table's key is made of columns of the record. */
  ghost predicate OwnIds(pools: map<PoolId, Pool>) {
    forall id :: id in pools ==> pools[id].Id() == id
  }

  /** The first-seen block and the other columns come from such records, and the block has not gone up. */
  ghost predicate StoredFrom(job: Job, d0: Durable, id: PoolId, stored: Pool)
    requires job.windowSecs > 0
  {
    && (exists p :: IsSource(job, d0, id, p) && p.firstSeenBlock == stored.firstSeenBlock)
    && (exists p :: IsSource(job, d0, id, p) && SameColumns(p, stored))
    && (id in d0.pools ==> stored.firstSeenBlock <= d0.pools[id].firstSeenBlock)
  }

  /** The pool's record is at least as good as that of the group `key`, and carries the columns of a group. */
  ghost predicate PoolSeenFor(job: Job, d0: Durable, pools: map<PoolId, Pool>, key: RowKey)
    requires job.windowSecs > 0 && key in Target(job, d0)
  {
    var w, es0, id := job.windowSecs, InputOf(job, d0), IdOf(key);
    && id in pools && pools[id].firstSeenBlock <= FirstBlockOf(w, es0, key)
    && exists p :: FromGroup(w, es0, p) && p.Id() == id && SameColumns(p, pools[id])
  }

  /** The checkpoint safety invariant of the pools table. */
  ghost predicate SafePools(job: Job, d0: Durable, d: Durable)
    requires job.windowSecs > 0
  {
    && (forall id :: id in d.pools ==> StoredFrom(job, d0, id, d.pools[id]))
    && (forall id :: id in d0.pools ==> id in d.pools)
    && (job.recomputeFrom == 0 ==>
          forall key :: key in Target(job, d0) && key.windowStart <= StartOf(job, d) ==>
            PoolSeenFor(job, d0, d.pools, key))
  }

  lemma RestGroups(job: Job, d0: Durable, d: Durable, key: RowKey)
    requires job.windowSecs > 0 && Sound(job, d0) && Safe(job, d0, d)
    requires key in GroupTable(job.windowSecs, InputOf(job, d))
    ensures key in Target(job, d0)
    ensures Group(job.windowSecs, InputOf(job, d), key) == Group(job.windowSecs, InputOf(job, d0), key)
  {
    hide Sound;
    hide Safe;
    hide WindowSorted;
    hide MaxTsAfter;
    RestOfInput(job, d0, d);
    RestOfTable(job, d0, d);
    if job.recomputeFrom == 0 {
      KeyWindow(job.windowSecs, InputOf(job, d), key);
      GroupAfter(job.windowSecs, InputOf(job, d0), StartOf(job, d), key);
    }
  }

  lemma RestFromGroup(job: Job, d0: Durable, d: Durable, p: Pool)
    requires job.windowSecs > 0 && Sound(job, d0) && Safe(job, d0, d)
    requires FromGroup(job.windowSecs, InputOf(job, d), p)
    ensures FromGroup(job.windowSecs, InputOf(job, d0), p)
  {
    hide Fold;
    hide Group;
    hide GroupTable;
    hide Sound;
    hide Safe;
    var key :| IsPoolOfGroup(job.windowSecs, InputOf(job, d), p, key);
    RestGroups(job, d0, d, key);
    assert IsPoolOfGroup(job.windowSecs, InputOf(job, d0), p, key);
  }

  /** The pool records of any prefix of a run from a safe state come from groups of the whole input. */
  lemma AttemptReportsGroups(job: Job, d0: Durable, d: Durable, a: Attempt, k: nat, p: Pool)
    requires job.windowSecs > 0 && Sound(job, d0) && Safe(job, d0, d) && Fits(job, d, a)
    requires k <= |AttemptTrace(job, d, a)| && p in PoolsOf(AttemptTrace(job, d, a)[..k])
    ensures FromGroup(job.windowSecs, InputOf(job, d0), p)
  {
    hide GroupTable;
    hide Trace;
    hide PoolKey;
    hide WindowSorted;
    hide OneSpelling;
    hide Contiguous;
    hide AccsAfter;
    hide MaxTsAfter;
    hide Sound;
    hide Safe;
    hide FromGroup;
    hide Seen;
    hide PoolsOf;
    RestOfInput(job, d0, d);
    SortedIsContiguous(job.windowSecs, InputOf(job, d));
    RunReportsPools(ConfigOf(job, a), StartOf(job, d), InputOf(job, d), a.order);
    PrefixProjects(AttemptTrace(job, d, a), k);
    RestFromGroup(job, d0, d, p);
  }

  lemma UpsertFromGroups(job: Job, d0: Durable, pools: map<PoolId, Pool>, ps: seq<Pool>, id: PoolId)
    requires job.windowSecs > 0
    requires forall i :: i in pools ==> StoredFrom(job, d0, i, pools[i])
    requires forall i :: i in d0.pools ==> i in pools
    requires forall p :: p in ps ==> FromGroup(job.windowSecs, InputOf(job, d0), p)
    ensures id in UpsertAllPools(pools, ps) ==> StoredFrom(job, d0, id, UpsertAllPools(pools, ps)[id])
    ensures id in d0.pools ==> id in UpsertAllPools(pools, ps)
  {
    hide FromGroup;
    hide InputOf;
    hide UpsertAllPools;
    UpsertPoolsLookup(pools, ps, id);
    if id in UpsertAllPools(pools, ps) && id in pools {
      var p :| IsSource(job, d0, id, p) && p.firstSeenBlock == pools[id].firstSeenBlock;
      var q :| IsSource(job, d0, id, q) && SameColumns(q, pools[id]);
    }
  }

  lemma UpsertKeepsSeen(job: Job, d0: Durable, pools: map<PoolId, Pool>, ps: seq<Pool>, key: RowKey)
    requires job.windowSecs > 0 && key in Target(job, d0)
    requires forall p :: p in ps ==> FromGroup(job.windowSecs, InputOf(job, d0), p)
    requires PoolSeenFor(job, d0, pools, key) || Seen(job.windowSecs, InputOf(job, d0), ps, key)
    ensures PoolSeenFor(job, d0, UpsertAllPools(pools, ps), key)
  {
    hide Fold;
    hide Group;
    hide FromGroup;
    hide UpsertAllPools;
    UpsertPoolsLookup(pools, ps, IdOf(key));
  }

  /** The pools a saved checkpoint covers have been reported by the statements before it. */
  lemma SavedCoversPools(job: Job, d0: Durable, d: Durable, a: Attempt, i: nat, key: RowKey)
    requires job.windowSecs > 0 && (job.recomputeFrom == 0 || Aligned(job, d0))
    requires Sound(job, d0) && Safe(job, d0, d) && Fits(job, d, a)
    requires i < |AttemptTrace(job, d, a)| - 1 && AttemptTrace(job, d, a)[i].Save?
    requires key in Target(job, d0) && StartOf(job, d) < key.windowStart <= AttemptTrace(job, d, a)[i].ts
    ensures Seen(job.windowSecs, InputOf(job, d0), PoolsOf(AttemptTrace(job, d, a)[..i]), key)
  {
    hide Fold;
    hide PoolKey;
    hide AttemptTrace;
    hide WindowSorted;
    hide MaxTsAfter;
    hide Sound;
    hide Safe;
    hide Loop;
    hide Group;
    RestOfInput(job, d0, d);
    RestOfTable(job, d0, d);
    EarlySaves(job, d, a, i);
    RestGroups(job, d0, d, key);
    SaveCoversPools(ConfigOf(job, a), StartOf(job, d), InputOf(job, d), i, key);
  }

  lemma CrashKeepsSafePools(job: Job, d0: Durable, d: Durable, a: Attempt, d': Durable)
    requires job.windowSecs > 0 && Sound(job, d0) && Safe(job, d0, d) && SafePools(job, d0, d)
    requires Crashes(job, d, a, d')
    ensures SafePools(job, d0, d')
  {
    hide GroupTable;
    hide PoolKey;
    hide AttemptTrace;
    hide Sound;
    hide Safe;
    hide LastSave;
    hide UpsertAllPools;
    hide Apply;
    hide StoredFrom;
    hide PoolSeenFor;
    hide Seen;
    hide FromGroup;
    var t, k := AttemptTrace(job, d, a), a.survives;
    var ps := PoolsOf(t[..k]);
    ApplyByTable(d, t[..k]);
    forall p | p in ps
      ensures FromGroup(job.windowSecs, InputOf(job, d0), p)
    {
      AttemptReportsGroups(job, d0, d, a, k, p);
    }
    forall id: PoolId
      ensures id in d'.pools ==> StoredFrom(job, d0, id, d'.pools[id])
      ensures id in d0.pools ==> id in d'.pools
    {
      UpsertFromGroups(job, d0, d.pools, ps, id);
    }
    LastSaveAt(t[..k], d.state);
    if job.recomputeFrom == 0 {
      forall key | key in Target(job, d0) && key.windowStart <= StartOf(job, d')
        ensures PoolSeenFor(job, d0, d'.pools, key)
      {
        CrashSeesPool(job, d0, d, a, key, StartOf(job, d'));
        UpsertKeepsSeen(job, d0, d.pools, ps, key);
      }
    }
  }

  lemma CrashSeesPool(job: Job, d0: Durable, d: Durable, a: Attempt, key: RowKey, s: nat)
    requires job.windowSecs > 0 && job.recomputeFrom == 0
    requires Sound(job, d0) && Safe(job, d0, d) && SafePools(job, d0, d) && Fits(job, d, a)
    requires a.survives < |AttemptTrace(job, d, a)|
    requires s == LastSave(AttemptTrace(job, d, a)[..a.survives], d.state).GetOr(0)
    requires key in Target(job, d0) && key.windowStart <= s
    ensures PoolSeenFor(job, d0, d.pools, key)
      || Seen(job.windowSecs, InputOf(job, d0), PoolsOf(AttemptTrace(job, d, a)[..a.survives]), key)
  {
    hide GroupTable;
    hide PoolKey;
    hide AttemptTrace;
    hide Sound;
    hide Safe;
    hide LastSave;
    hide PoolSeenFor;
    hide FirstBlockOf;
    var t, k := AttemptTrace(job, d, a), a.survives;
    LastSaveAt(t[..k], d.state);
    if key.windowStart > StartOf(job, d) {
      var i :| 0 <= i < k && t[i].Save? && t[i].ts == s;
      SavedCoversPools(job, d0, d, a, i, key);
      PrefixProjects(t[..k], i);
      assert t[..k][..i] == t[..i];
    }
  }

  lemma {:induction false} HistoryKeepsSafePools(
    job: Job, d0: Durable, ds: seq<Durable>, attempts: seq<Attempt>, n: nat)
    requires job.windowSecs > 0 && History(job, ds, attempts) && Sound(job, d0)
    requires Safe(job, d0, ds[0]) && SafePools(job, d0, ds[0]) && n < |ds|
    ensures SafePools(job, d0, ds[n])
  {
    hide Sound;
    hide Safe;
    hide SafePools;
    hide Crashes;
    hide GroupTable;
    if n > 0 {
      HistoryKeepsSafe(job, d0, ds, attempts, n - 1);
      HistoryKeepsSafePools(job, d0, ds, attempts, n - 1);
      CrashKeepsSafePools(job, d0, ds[n - 1], attempts[n - 1], ds[n]);
    }
  }

  lemma PoolsStartSafe(job: Job, d0: Durable)
    requires job.windowSecs > 0 && Sound(job, d0) && OwnIds(d0.pools)
    ensures SafePools(job, d0, d0)
  {
    hide Sound;
    hide GroupTable;
    hide PoolSeenFor;
    hide FromGroup;
    forall id | id in d0.pools
      ensures StoredFrom(job, d0, id, d0.pools[id])
    {
      assert IsSource(job, d0, id, d0.pools[id]);
    }
    if job.recomputeFrom == 0 {
      NoEarlyGroups(job, d0);
    }
  }

  lemma NoEarlyGroups(job: Job, d0: Durable)
    requires job.windowSecs > 0 && Sound(job, d0) && job.recomputeFrom == 0
    ensures forall key :: key in Target(job, d0) ==> key.windowStart > StartOf(job, d0)
  {
    hide Group;
    hide PoolKey;
    forall key | key in Target(job, d0)
      ensures key.windowStart > StartOf(job, d0)
    {
      KeyWindow(job.windowSecs, InputOf(job, d0), key);
    }
  }

  /** After a completed run from a safe state every record comes from the start or from groups, and none is gone. */
  lemma CompletionStoresGroups(job: Job, d0: Durable, d: Durable, a: Attempt, d': Durable, id: PoolId)
    requires job.windowSecs > 0 && Sound(job, d0) && Safe(job, d0, d) && SafePools(job, d0, d)
    requires Completes(job, d, a, d')
    ensures id in d'.pools ==> StoredFrom(job, d0, id, d'.pools[id])
    ensures id in d0.pools ==> id in d'.pools
  {
    hide Sound;
    hide Safe;
    hide UpsertAllPools;
    hide Apply;
    hide StoredFrom;
    hide PoolSeenFor;
    hide AttemptTrace;
    hide GroupTable;
    hide FromGroup;
    var t := AttemptTrace(job, d, a);
    ApplyByTable(d, t);
    assert t[..|t|] == t;
    forall p | p in PoolsOf(t)
      ensures FromGroup(job.windowSecs, InputOf(job, d0), p)
    {
      AttemptReportsGroups(job, d0, d, a, |t|, p);
    }
    UpsertFromGroups(job, d0, d.pools, PoolsOf(t), id);
  }

  /** A whole run reports the pool of every group it reads. */
  lemma AttemptSeesPool(job: Job, d0: Durable, d: Durable, a: Attempt, key: RowKey)
    requires job.windowSecs > 0 && Sound(job, d0) && Safe(job, d0, d) && Fits(job, d, a)
    requires key in GroupTable(job.windowSecs, InputOf(job, d))
    ensures key in Target(job, d0)
    ensures Seen(job.windowSecs, InputOf(job, d0), PoolsOf(AttemptTrace(job, d, a)), key)
  {
    hide PoolKey;
    hide Sound;
    hide Safe;
    hide Trace;
    hide WindowSorted;
    hide OneSpelling;
    hide Contiguous;
    hide AccsAfter;
    hide MaxTsAfter;
    hide FromGroup;
    hide Group;
    hide PoolsOf;
    hide Fold;
    var w, es := job.windowSecs, InputOf(job, d);
    RestOfInput(job, d0, d);
    SortedIsContiguous(w, es);
    RunReportsPools(ConfigOf(job, a), StartOf(job, d), es, a.order);
    RestGroups(job, d0, d, key);
    assert FirstBlockOf(w, es, key) == FirstBlockOf(w, InputOf(job, d0), key);
  }

  /** A completed run from a safe state has seen the pool of every group with a row. */
  lemma CompletionSeesPool(job: Job, d0: Durable, d: Durable, a: Attempt, d': Durable, key: RowKey)
    requires job.windowSecs > 0 && Sound(job, d0) && Safe(job, d0, d) && SafePools(job, d0, d)
    requires Completes(job, d, a, d') && key in Target(job, d0)
    ensures PoolSeenFor(job, d0, d'.pools, key)
  {
    hide Sound;
    hide Safe;
    hide UpsertAllPools;
    hide Apply;
    hide StoredFrom;
    hide PoolSeenFor;
    hide AttemptTrace;
    hide GroupTable;
    hide Group;
    hide PoolsOf;
    hide Seen;
    hide FromGroup;
    ApplyByTable(d, AttemptTrace(job, d, a));
    RestOfTable(job, d0, d);
    if key in GroupTable(job.windowSecs, InputOf(job, d)) {
      AttemptSeesPool(job, d0, d, a, key);
    }
    var t := AttemptTrace(job, d, a);
    assert t[..|t|] == t;
    forall p | p in PoolsOf(t)
      ensures FromGroup(job.windowSecs, InputOf(job, d0), p)
    {
      AttemptReportsGroups(job, d0, d, a, |t|, p);
    }
    UpsertKeepsSeen(job, d0, d.pools, PoolsOf(t), key);
  }

  /** An event that counts for its pool: its window's first event carries pool metadata. */
  ghost predicate Counts(job: Job, d0: Durable, r: Record, id: PoolId)
    requires job.windowSecs > 0
  {
    && r in InputOf(job, d0) && PoolId(r.chainId, r.address) == id
    && HasRow(job.windowSecs, InputOf(job, d0), KeyOf(job.windowSecs, r))
  }

  /**
   * The pool is listed exactly if it was at the start or has a counting event, and its first-seen block is the
   * least of the block stored at the start and those of its counting events.
   */
  ghost predicate FirstSeenExact(job: Job, d0: Durable, pools: map<PoolId, Pool>, id: PoolId)
    requires job.windowSecs > 0
  {
    && (id in pools <==> id in d0.pools || exists r :: Counts(job, d0, r, id))
    && (id in pools ==>
          && ((id in d0.pools && pools[id].firstSeenBlock == d0.pools[id].firstSeenBlock)
              || exists r :: Counts(job, d0, r, id) && r.block == pools[id].firstSeenBlock)
          && (forall r :: Counts(job, d0, r, id) ==> pools[id].firstSeenBlock <= r.block)
          && (id in d0.pools ==> pools[id].firstSeenBlock <= d0.pools[id].firstSeenBlock))
  }

  /** The block of a group's pool record is that of one of its events. */
  lemma GroupCounts(job: Job, d0: Durable, p: Pool)
    requires job.windowSecs > 0 && FromGroup(job.windowSecs, InputOf(job, d0), p)
    requires forall r :: r in InputOf(job, d0) ==> r.block > 0
    ensures exists r :: Counts(job, d0, r, p.Id()) && r.block == p.firstSeenBlock
  {
    hide HasRow;
    hide Fold;
    hide Group;
    var w, es0 := job.windowSecs, InputOf(job, d0);
    var key :| IsPoolOfGroup(w, es0, p, key);
    TargetGroup(w, es0, key);
    FoldFirstBlock(w, Group(w, es0, key));
    var r :| r in Group(w, es0, key) && r.block == p.firstSeenBlock;
    assert Counts(job, d0, r, p.Id());
  }

  lemma TargetGroup(w: nat, es: seq<Record>, key: RowKey)
    requires w > 0 && key in GroupTable(w, es)
    ensures Group(w, es, key) != [] && HasRow(w, es, key)
  {
    hide Fold;
  }

  /** A completed run from a safe state makes the first-seen blocks exact. */
  lemma CompletionFirstSeen(job: Job, d0: Durable, d: Durable, a: Attempt, d': Durable, id: PoolId)
    requires job.windowSecs > 0 && Sound(job, d0) && Safe(job, d0, d) && SafePools(job, d0, d)
    requires Completes(job, d, a, d') && forall r :: r in InputOf(job, d0) ==> r.block > 0
    ensures FirstSeenExact(job, d0, d'.pools, id)
  {
    hide Sound;
    hide Safe;
    hide Completes;
    hide SafePools;
    hide Counts;
    hide FromGroup;
    hide InputOf;
    CompletionStoresGroups(job, d0, d, a, d', id);
    forall r | Counts(job, d0, r, id)
      ensures id in d'.pools && d'.pools[id].firstSeenBlock <= r.block
    {
      CountedBlock(job, d0, d, a, d', r, id);
    }
    if id in d'.pools {
      var p :| IsSource(job, d0, id, p) && p.firstSeenBlock == d'.pools[id].firstSeenBlock;
      if FromGroup(job.windowSecs, InputOf(job, d0), p) {
        GroupCounts(job, d0, p);
      }
    }
  }

  lemma CountedBlock(job: Job, d0: Durable, d: Durable, a: Attempt, d': Durable, r: Record, id: PoolId)
    requires job.windowSecs > 0 && Sound(job, d0) && Safe(job, d0, d) && SafePools(job, d0, d)
    requires Completes(job, d, a, d') && (forall r :: r in InputOf(job, d0) ==> r.block > 0) && Counts(job, d0, r, id)
    ensures id in d'.pools && d'.pools[id].firstSeenBlock <= r.block
  {
    hide Sound;
    hide Safe;
    hide Completes;
    hide SafePools;
    hide Group;
    hide HasRow;
    hide Fold;
    hide FromGroup;
    var w, es0, key := job.windowSecs, InputOf(job, d0), KeyOf(job.windowSecs, r);
    assert key in Target(job, d0);
    CompletionSeesPool(job, d0, d, a, d', key);
    FoldFirstBlock(w, Group(w, es0, key));
  }

  /**
   * First-seen block: after any crashes and one completed run, the pools listed are those of the start and those
   * with a counting event, each with the least block over its counting events and what was stored at the start.
   */
  lemma FirstSeenIsMinimum(
    job: Job, ds: seq<Durable>, attempts: seq<Attempt>, last: Attempt, end: Durable, id: PoolId)
    requires job.windowSecs > 0 && History(job, ds, attempts) && Sound(job, ds[0]) && OwnIds(ds[0].pools)
    requires Completes(job, ds[|attempts|], last, end)
    requires forall r :: r in InputOf(job, ds[0]) ==> r.block > 0
    ensures id in end.pools <==> id in ds[0].pools || exists r :: Counts(job, ds[0], r, id)
    ensures id in end.pools ==>
      && ((id in ds[0].pools && end.pools[id].firstSeenBlock == ds[0].pools[id].firstSeenBlock)
          || exists r :: Counts(job, ds[0], r, id) && r.block == end.pools[id].firstSeenBlock)
      && (forall r :: Counts(job, ds[0], r, id) ==> end.pools[id].firstSeenBlock <= r.block)
      && (id in ds[0].pools ==> end.pools[id].firstSeenBlock <= ds[0].pools[id].firstSeenBlock)
  {
    hide Sound;
    hide Safe;
    hide Crashes;
    hide Completes;
    hide SafePools;
    hide Counts;
    HistoryIsSafe(job, ds, attempts, |attempts|);
    StartIsSafe(job, ds[0]);
    PoolsStartSafe(job, ds[0]);
    HistoryKeepsSafePools(job, ds[0], ds, attempts, |attempts|);
    CompletionFirstSeen(job, ds[0], ds[|attempts|], last, end, id);
  }

  /** Each pool has one metadata value, and it is complete. */
  ghost predicate ConstantMeta(es: seq<Record>) {
    forall r, s :: r in es && s in es && PoolKey(r.address) == PoolKey(s.address) ==>
      r.meta == s.meta && r.meta.Present()
  }

  /** With constant metadata the other columns of a pool are those of any of its events. */
  lemma CompletionColumns(job: Job, d0: Durable, d: Durable, a: Attempt, d': Durable, r: Record)
    requires job.windowSecs > 0 && Sound(job, d0) && Safe(job, d0, d) && SafePools(job, d0, d)
    requires Completes(job, d, a, d') && ConstantMeta(InputOf(job, d0)) && r in InputOf(job, d0)
    ensures var id := PoolId(r.chainId, r.address);
      && id in d'.pools
      && d'.pools[id] == Pool(r.chainId, r.address, r.meta.token0, r.meta.token1, r.meta.fee, r.meta.tickSpacing,
                              d'.pools[id].firstSeenBlock)
  {
    hide Sound;
    hide Safe;
    hide Completes;
    hide SafePools;
    hide Fold;
    hide PoolKey;
    var w := job.windowSecs;
    var es0, id, key := InputOf(job, d0), PoolId(r.chainId, r.address), KeyOf(w, r);
    assert r in Group(w, es0, key);
    assert Group(w, es0, key)[0] in Group(w, es0, key);
    assert key in Target(job, d0);
    CompletionSeesPool(job, d0, d, a, d', key);
    var p :| FromGroup(w, es0, p) && p.Id() == id && SameColumns(p, d'.pools[id]);
    var key' :| IsPoolOfGroup(w, es0, p, key');
    var g := Group(w, es0, key');
    FoldIsSum(w, g);
    assert g[0] in g;
  }

  lemma PoolColumnsAreMeta(
    job: Job, ds: seq<Durable>, attempts: seq<Attempt>, last: Attempt, end: Durable, r: Record)
    requires job.windowSecs > 0 && History(job, ds, attempts) && Sound(job, ds[0])
    requires OwnIds(ds[0].pools) && Completes(job, ds[|attempts|], last, end)
    requires ConstantMeta(InputOf(job, ds[0])) && r in InputOf(job, ds[0])
    ensures var id := PoolId(r.chainId, r.address);
      && id in end.pools
      && end.pools[id] == Pool(r.chainId, r.address, r.meta.token0, r.meta.token1, r.meta.fee, r.meta.tickSpacing,
                               end.pools[id].firstSeenBlock)
  {
    hide Sound;
    hide Safe;
    hide SafePools;
    hide Completes;
    hide Crashes;
    hide ConstantMeta;
    HistoryIsSafe(job, ds, attempts, |attempts|);
    StartIsSafe(job, ds[0]);
    PoolsStartSafe(job, ds[0]);
    HistoryKeepsSafePools(job, ds[0], ds, attempts, |attempts|);
    CompletionColumns(job, ds[0], ds[|attempts|], last, end, r);
  }

  lemma CountsMembers(job: Job, d0: Durable, r: Record, id: PoolId)
    requires job.windowSecs > 0 && Counts(job, d0, r, id)
    ensures r in InputOf(job, d0) && PoolId(r.chainId, r.address) == id
  {
  }

  /** The record of a pool without counting events stays as it was. */
  lemma UncountedPool(job: Job, d0: Durable, d: Durable, a: Attempt, d': Durable, id: PoolId)
    requires job.windowSecs > 0 && Sound(job, d0) && Safe(job, d0, d) && SafePools(job, d0, d)
    requires Completes(job, d, a, d') && forall r :: r in InputOf(job, d0) ==> r.block > 0
    requires forall r :: !Counts(job, d0, r, id)
    ensures id in d'.pools ==> id in d0.pools && d'.pools[id] == d0.pools[id]
  {
    hide Sound;
    hide Safe;
    hide Completes;
    hide SafePools;
    hide Counts;
    hide FromGroup;
    hide InputOf;
    CompletionStoresGroups(job, d0, d, a, d', id);
    forall p: Pool | p.Id() == id
      ensures !FromGroup(job.windowSecs, InputOf(job, d0), p)
    {
      if FromGroup(job.windowSecs, InputOf(job, d0), p) {
        GroupCounts(job, d0, p);
      }
    }
  }

  /** With constant metadata two completed runs from safe states leave the same pools table. */
  lemma CompletionsAgree(
    job: Job, d0: Durable, d: Durable, a: Attempt, d': Durable, e: Durable, b: Attempt, e': Durable)
    requires job.windowSecs > 0 && Sound(job, d0) && ConstantMeta(InputOf(job, d0))
    requires forall r :: r in InputOf(job, d0) ==> r.block > 0
    requires Safe(job, d0, d) && SafePools(job, d0, d) && Completes(job, d, a, d')
    requires Safe(job, d0, e) && SafePools(job, d0, e) && Completes(job, e, b, e')
    ensures d'.pools == e'.pools
  {
    hide Sound;
    hide Safe;
    hide SafePools;
    hide Completes;
    hide Counts;
    hide ConstantMeta;
    forall id: PoolId
      ensures id in d'.pools <==> id in e'.pools
      ensures id in d'.pools ==> d'.pools[id] == e'.pools[id]
    {
      CompletionFirstSeen(job, d0, d, a, d', id);
      CompletionFirstSeen(job, d0, e, b, e', id);
      if r :| Counts(job, d0, r, id) {
        CountsMembers(job, d0, r, id);
        CompletionColumns(job, d0, d, a, d', r);
        CompletionColumns(job, d0, e, b, e', r);
      } else {
        UncountedPool(job, d0, d, a, d', id);
        UncountedPool(job, d0, e, b, e', id);
      }
    }
  }

  /**
   * Crash convergence of the whole durable state: with constant metadata the first run that completes leaves the
   * rows, the pools and the checkpoint of an uninterrupted run.
   */
  lemma StateConverges(
    job: Job, ds: seq<Durable>, attempts: seq<Attempt>, last: Attempt, end: Durable,
    single: Attempt, uninterrupted: Durable)
    requires job.windowSecs > 0 && History(job, ds, attempts) && Sound(job, ds[0])
    requires OwnIds(ds[0].pools) && ConstantMeta(InputOf(job, ds[0]))
    requires forall r :: r in InputOf(job, ds[0]) ==> r.block > 0
    requires Completes(job, ds[|attempts|], last, end) && Completes(job, ds[0], single, uninterrupted)
    ensures end == uninterrupted
  {
    hide Sound;
    hide Safe;
    hide SafePools;
    hide Completes;
    hide Crashes;
    hide ConstantMeta;
    CrashConvergence(job, ds, attempts, last, end, single, uninterrupted);
    HistoryIsSafe(job, ds, attempts, |attempts|);
    StartIsSafe(job, ds[0]);
    PoolsStartSafe(job, ds[0]);
    HistoryKeepsSafePools(job, ds[0], ds, attempts, |attempts|);
    CompletionsAgree(job, ds[0], ds[|attempts|], last, end, ds[0], single, uninterrupted);
  }
}
