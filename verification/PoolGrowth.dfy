/** First-seen blocks over an input file that grows between lost runs. */
module PoolGrowth {
  import opened Base
  import opened Events
  import opened Windows
  import opened Accumulators
  import opened Stores
  import opened Stream
  import opened GroupBy
  import opened Refinement
  import opened Pools
  import opened Crash
  import opened PoolHistory
  import opened ReRun
  import opened Growth

  /** `block` is the one stored at the start or that of a counting event, and no later than what was stored. */
  ghost predicate BlockFrom(job: Job, d0: Durable, id: PoolId, block: uint64)
    requires job.windowSecs > 0
  {
    && ((id in d0.pools && block == d0.pools[id].firstSeenBlock)
        || exists r :: Counts(job, d0, r, id) && r.block == block)
    && (id in d0.pools ==> block <= d0.pools[id].firstSeenBlock)
  }

  /** The stored block of the group's pool is no later than the group's first block. */
  predicate SeesGroup(w: nat, es: seq<Record>, pools: map<PoolId, Pool>, key: RowKey)
    requires w > 0 && Group(w, es, key) != []
  {
    IdOf(key) in pools && pools[IdOf(key)].firstSeenBlock <= FirstBlockOf(w, es, key)
  }

  ghost predicate BlocksFrom(job: Job, d0: Durable, pools: map<PoolId, Pool>)
    requires job.windowSecs > 0
  {
    && (forall id :: id in pools ==> BlockFrom(job, d0, id, pools[id].firstSeenBlock))
    && (forall id :: id in d0.pools ==> id in pools)
  }

  /** The invariant: blocks come from the start or from events, and those of settled groups have been taken in. */
  ghost predicate PoolsMayGrow(job: Job, d0: Durable, d: Durable)
    requires job.windowSecs > 0
  {
    && BlocksFrom(job, d0, d.pools)
    && forall key :: key in Target(job, d0) && !IsOpenKey(job, d0, d, key) ==>
         SeesGroup(job.windowSecs, InputOf(job, d0), d.pools, key)
  }

  predicate PositiveBlocks(es: seq<Record>) {
    forall r :: r in es ==> r.block > 0
  }

  lemma PoolsStartToGrow(job: Job, d0: Durable)
    requires job.windowSecs > 0 && Sound(job, d0)
    ensures PoolsMayGrow(job, d0, d0)
  {
    hide Sound;
    hide GroupTable;
    hide IsOpenKey;
    hide SeesGroup;
    forall key | key in Target(job, d0)
      ensures IsOpenKey(job, d0, d0, key)
    {
      StartsLater(job, d0, key);
    }
  }

  /** Upserting pool records of groups keeps the blocks within the counting events. */
  lemma UpsertKeepsBlocks(job: Job, d0: Durable, pools: map<PoolId, Pool>, ps: seq<Pool>)
    requires job.windowSecs > 0 && PositiveBlocks(InputOf(job, d0)) && BlocksFrom(job, d0, pools)
    requires forall p :: p in ps ==> FromGroup(job.windowSecs, InputOf(job, d0), p)
    ensures BlocksFrom(job, d0, UpsertAllPools(pools, ps))
  {
    hide Counts;
    hide FromGroup;
    hide InputOf;
    hide UpsertAllPools;
    forall id: PoolId
      ensures id in pools ==> id in UpsertAllPools(pools, ps)
      ensures id in UpsertAllPools(pools, ps) ==>
        BlockFrom(job, d0, id, UpsertAllPools(pools, ps)[id].firstSeenBlock)
    {
      UpsertPoolsLookup(pools, ps, id);
      forall p | p in ps && p.Id() == id
        ensures exists r :: Counts(job, d0, r, id) && r.block == p.firstSeenBlock
      {
        GroupCounts(job, d0, p);
      }
    }
  }

  lemma UpsertSeesGroup(w: nat, es: seq<Record>, pools: map<PoolId, Pool>, ps: seq<Pool>, key: RowKey)
    requires w > 0 && Group(w, es, key) != []
    requires SeesGroup(w, es, pools, key) || Seen(w, es, ps, key)
    ensures SeesGroup(w, es, UpsertAllPools(pools, ps), key)
  {
    hide Fold;
    hide Group;
    hide FirstBlockOf;
    hide UpsertAllPools;
    UpsertPoolsLookup(pools, ps, IdOf(key));
  }

  /** The pool records of any prefix of a run come from groups of the whole input. */
  lemma RunKeepsBlocks(job: Job, d0: Durable, d: Durable, a: Attempt, k: nat)
    requires job.windowSecs > 0 && Sound(job, d0) && SafeToGrow(job, d0, d) && Fits(job, d, a)
    requires PositiveBlocks(InputOf(job, d0)) && BlocksFrom(job, d0, d.pools) && k <= |AttemptTrace(job, d, a)|
    ensures BlocksFrom(job, d0, UpsertAllPools(d.pools, PoolsOf(AttemptTrace(job, d, a)[..k])))
  {
    hide GroupTable;
    hide Sound;
    hide Safe;
    hide RowsSettled;
    hide AtBoundary;
    hide SettledRows;
    hide BlocksFrom;
    hide FromGroup;
    hide Trace;
    hide AccsAfter;
    hide Accepted;
    hide UpsertAllPools;
    var ps := PoolsOf(AttemptTrace(job, d, a)[..k]);
    forall p | p in ps
      ensures FromGroup(job.windowSecs, InputOf(job, d0), p)
    {
      AttemptReportsGroups(job, d0, Settled(job, d0, d), a, k, p);
    }
    UpsertKeepsBlocks(job, d0, d.pools, ps);
  }

  /** The pool of a group between the old and the new checkpoint has been reported. */
  lemma NewlyCoveredSeen(job: Job, d0: Durable, d: Durable, a: Attempt, d': Durable, key: RowKey)
    requires job.windowSecs > 0 && Sound(job, d0) && SafeToGrow(job, d0, d) && Crashes(job, d, a, d')
    requires IsOpenKey(job, d0, d, key) && !IsOpenKey(job, d0, d', key)
    ensures Seen(job.windowSecs, InputOf(job, d0), PoolsOf(AttemptTrace(job, d, a)[..a.survives]), key)
  {
    hide GroupTable;
    hide Sound;
    hide Safe;
    hide RowsSettled;
    hide SettledRows;
    hide PoolsOf;
    hide AttemptTrace;
    hide FirstBlockOf;
    var t, k := AttemptTrace(job, d, a), a.survives;
    var e' := TwinCrash(job, d0, d, a, d');
    var i := SavedBefore(job, d, a, d');
    SavedCoversPools(job, d0, Settled(job, d0, d), a, i, key);
    PrefixProjects(t[..k], i);
    assert t[..k][..i] == t[..i];
  }

  lemma CrashKeepsPools(job: Job, d0: Durable, d: Durable, a: Attempt, d': Durable)
    requires job.windowSecs > 0 && Sound(job, d0) && SafeToGrow(job, d0, d) && Crashes(job, d, a, d')
    requires PositiveBlocks(InputOf(job, d0)) && PoolsMayGrow(job, d0, d)
    ensures PoolsMayGrow(job, d0, d')
  {
    hide Group;
    hide Sound;
    hide SafeToGrow;
    hide BlocksFrom;
    hide SeesGroup;
    hide Seen;
    hide IsOpenKey;
    hide AttemptTrace;
    hide Apply;
    hide UpsertAllPools;
    hide InputOf;
    var t, k := AttemptTrace(job, d, a), a.survives;
    var ps := PoolsOf(t[..k]);
    ApplyByTable(d, t[..k]);
    RunKeepsBlocks(job, d0, d, a, k);
    forall key | key in Target(job, d0) && !IsOpenKey(job, d0, d', key)
      ensures SeesGroup(job.windowSecs, InputOf(job, d0), d'.pools, key)
    {
      if IsOpenKey(job, d0, d, key) {
        NewlyCoveredSeen(job, d0, d, a, d', key);
      }
      UpsertSeesGroup(job.windowSecs, InputOf(job, d0), d.pools, ps, key);
    }
  }

  /** An event that counts still counts when lines are appended. */
  lemma StillCounts(job: Job, more: seq<Line>, d0: Durable, r: Record, id: PoolId)
    requires job.windowSecs > 0 && Counts(job, d0, r, id)
    ensures Counts(Longer(job, more), d0, r, id)
  {
    hide Group;
    var w, es, added := job.windowSecs, InputOf(job, d0), Accepted(more, StartOf(job, d0));
    LongerInput(job, more, d0);
    GroupGrows(w, es, added, KeyOf(w, r));
  }

  /** A group the checkpoint covers gets no more events. */
  lemma SettledEvents(job: Job, more: seq<Line>, d0: Durable, d: Durable, key: RowKey)
    requires job.windowSecs > 0 && Sound(Longer(job, more), d0) && AtBoundary(job, d0, d)
    requires key in Target(Longer(job, more), d0) && !IsOpenKey(Longer(job, more), d0, d, key)
    ensures key in Target(job, d0) && !IsOpenKey(job, d0, d, key)
    ensures Group(job.windowSecs, InputOf(Longer(job, more), d0), key) == Group(job.windowSecs, InputOf(job, d0), key)
  {
    hide Group;
    hide GroupTable;
    hide Sound;
    hide AtBoundary;
    hide InputOf;
    hide WindowStart;
    SettledGroup(job, more, d0, d, key);
    forall r | r in Accepted(more, StartOf(job, d0))
      ensures KeyOf(job.windowSecs, r) != key
    {
      AddedAfter(job, more, d0, d, r);
    }
    LongerInput(job, more, d0);
    ConcatGroup(job.windowSecs, InputOf(job, d0), Accepted(more, StartOf(job, d0)), key);
  }

  lemma GrowthKeepsPools(job: Job, more: seq<Line>, d0: Durable, d: Durable)
    requires job.windowSecs > 0 && Sound(Longer(job, more), d0) && AtBoundary(job, d0, d)
    requires PoolsMayGrow(job, d0, d)
    ensures PoolsMayGrow(Longer(job, more), d0, d)
  {
    hide Sound;
    hide AtBoundary;
    hide Counts;
    hide IsOpenKey;
    hide Fold;
    hide Keys;
    forall r, id | Counts(job, d0, r, id)
      ensures Counts(Longer(job, more), d0, r, id)
    {
      StillCounts(job, more, d0, r, id);
    }
    forall key | key in Target(Longer(job, more), d0) && !IsOpenKey(Longer(job, more), d0, d, key)
      ensures SeesGroup(job.windowSecs, InputOf(Longer(job, more), d0), d.pools, key)
    {
      SettledEvents(job, more, d0, d, key);
    }
  }

  lemma {:induction false} InputsBefore(jobs: seq<Job>, ds: seq<Durable>, attempts: seq<Attempt>, n: nat)
    requires GrowingHistory(jobs, ds, attempts) && n <= |attempts|
    ensures forall r :: r in InputOf(jobs[n], ds[0]) ==> r in InputOf(jobs[|attempts|], ds[0])
    decreases |attempts| - n
  {
    hide Crashes;
    hide Accepted;
    if n < |attempts| {
      var job, longer := jobs[n], jobs[n + 1];
      InputsBefore(jobs, ds, attempts, n + 1);
      var more := longer.lines[|job.lines|..];
      assert longer == Longer(job, more);
      LongerInput(job, more, ds[0]);
    }
  }

  lemma {:induction false} HistoryPoolsMayGrow(
    jobs: seq<Job>, ds: seq<Durable>, attempts: seq<Attempt>, n: nat)
    requires GrowingHistory(jobs, ds, attempts) && Sound(jobs[|attempts|], ds[0]) && n <= |attempts|
    requires PositiveBlocks(InputOf(jobs[|attempts|], ds[0]))
    ensures PoolsMayGrow(jobs[n], ds[0], ds[n])
  {
    hide Sound;
    hide Crashes;
    hide SafeToGrow;
    hide AtBoundary;
    hide PoolsMayGrow;
    hide InputOf;
    SoundAt(jobs, ds, attempts, n);
    if n == 0 {
      PoolsStartToGrow(jobs[0], ds[0]);
    } else {
      var job, longer := jobs[n - 1], jobs[n];
      SoundAt(jobs, ds, attempts, n - 1);
      InputsBefore(jobs, ds, attempts, n - 1);
      HistoryPoolsMayGrow(jobs, ds, attempts, n - 1);
      HistoryMayGrow(jobs, ds, attempts, n - 1);
      CrashKeepsPools(job, ds[0], ds[n - 1], attempts[n - 1], ds[n]);
      CrashKeepsBoundary(job, ds[0], ds[n - 1], attempts[n - 1], ds[n]);
      var more := longer.lines[|job.lines|..];
      assert longer == Longer(job, more);
      GrowthKeepsPools(job, more, ds[0], ds[n]);
    }
  }

  // ----- Completion

  lemma CompletionSeesGroup(job: Job, d0: Durable, d: Durable, a: Attempt, d': Durable, key: RowKey)
    requires job.windowSecs > 0 && Sound(job, d0) && SafeToGrow(job, d0, d) && Completes(job, d, a, d')
    requires PoolsMayGrow(job, d0, d) && key in Target(job, d0)
    ensures SeesGroup(job.windowSecs, InputOf(job, d0), d'.pools, key)
  {
    hide Sound;
    hide Safe;
    hide RowsSettled;
    hide AtBoundary;
    hide SettledRows;
    hide BlocksFrom;
    hide SeesGroup;
    hide Seen;
    hide Trace;
    hide Apply;
    hide UpsertAllPools;
    hide GroupTable;
    hide Group;
    hide Accepted;
    var e := Settled(job, d0, d);
    ApplyByTable(d, AttemptTrace(job, d, a));
    if IsOpenKey(job, d0, d, key) {
      RestOfTable(job, d0, e);
      AttemptSeesPool(job, d0, e, a, key);
    }
    TargetGroup(job.windowSecs, InputOf(job, d0), key);
    UpsertSeesGroup(job.windowSecs, InputOf(job, d0), d.pools, PoolsOf(AttemptTrace(job, d, a)), key);
  }

  lemma CompletionBlocks(job: Job, d0: Durable, d: Durable, a: Attempt, d': Durable)
    requires job.windowSecs > 0 && Sound(job, d0) && SafeToGrow(job, d0, d) && Completes(job, d, a, d')
    requires PositiveBlocks(InputOf(job, d0)) && BlocksFrom(job, d0, d.pools)
    ensures BlocksFrom(job, d0, d'.pools)
  {
    hide Sound;
    hide SafeToGrow;
    hide BlocksFrom;
    hide AttemptTrace;
    hide Apply;
    hide UpsertAllPools;
    hide InputOf;
    var t := AttemptTrace(job, d, a);
    ApplyByTable(d, t);
    assert t[..|t|] == t;
    RunKeepsBlocks(job, d0, d, a, |t|);
  }

  /**
   * First-seen blocks over a growing input: after any lost runs and one completed run, the pools listed are those of
   * the start and those with a counting event of the whole input, each with the least of its blocks.
   */
  lemma GrowingFirstSeen(
    jobs: seq<Job>, ds: seq<Durable>, attempts: seq<Attempt>, last: Attempt, end: Durable, id: PoolId)
    requires GrowingHistory(jobs, ds, attempts) && Sound(jobs[|attempts|], ds[0])
    requires Completes(jobs[|attempts|], ds[|attempts|], last, end)
    requires forall r :: r in InputOf(jobs[|attempts|], ds[0]) ==> r.block > 0
    ensures FirstSeenExact(jobs[|attempts|], ds[0], end.pools, id)
  {
    hide Sound;
    hide Crashes;
    hide Completes;
    hide SafeToGrow;
    hide Counts;
    hide IsOpenKey;
    hide InputOf;
    var n := |attempts|;
    var job, d0, d := jobs[n], ds[0], ds[n];
    HistoryMayGrow(jobs, ds, attempts, n);
    HistoryPoolsMayGrow(jobs, ds, attempts, n);
    CompletionBlocks(job, d0, d, last, end);
    forall r | Counts(job, d0, r, id)
      ensures id in end.pools && end.pools[id].firstSeenBlock <= r.block
    {
      CountedKey(job, d0, r, id);
      CompletionSeesGroup(job, d0, d, last, end, KeyOf(job.windowSecs, r));
    }
  }

  lemma CountedKey(job: Job, d0: Durable, r: Record, id: PoolId)
    requires job.windowSecs > 0 && Counts(job, d0, r, id) && PositiveBlocks(InputOf(job, d0))
    ensures var key := KeyOf(job.windowSecs, r);
      && key in Target(job, d0) && IdOf(key) == id
      && FirstBlockOf(job.windowSecs, InputOf(job, d0), key) <= r.block
  {
    hide Fold;
    var w, es0 := job.windowSecs, InputOf(job, d0);
    FoldFirstBlock(w, Group(w, es0, KeyOf(w, r)));
  }
}
