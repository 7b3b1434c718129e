/** Restarting the aggregator against a store that loses the process again and again. */
module Restarts {
  import opened Base
  import opened Stores
  import opened Stream
  import opened GroupBy
  import opened Refinement
  import opened Crash
  import opened PoolHistory
  import opened Aggregators

  lemma FreshTrace(job: Job, d: Durable, a: Attempt)
    requires job.windowSecs > 0
    requires ValidOrder(a.order, Loop(ConfigOf(job, a), Fresh(StartOf(job, d)), InputOf(job, d)).0.accs)
    ensures Fits(job, d, a)
    ensures AttemptTrace(job, d, a) == TraceFrom(ConfigOf(job, a), Fresh(StartOf(job, d)), InputOf(job, d), a.order)
  {
    hide Loop;
    hide AccsAfter;
    LoopMem(ConfigOf(job, a), StartOf(job, d), InputOf(job, d));
  }

  /** One run of a fresh aggregator: it completes, or it is lost after the statements the store still takes. */
  method RunOnce(job: Job, store: Store, batchSize: int) returns (ok: bool, ghost a: Attempt)
    requires job.windowSecs > 0
    modifies store
    ensures ok ==> Completes(job, old(store.Value()), a, store.Value())
    ensures !ok ==> Crashes(job, old(store.Value()), a, store.Value())
  {
    hide Trace;
    hide TraceFrom;
    hide Loop;
    hide Apply;
    hide AccsAfter;
    ghost var d, budget := store.Value(), store.writesLeft;
    var agg := new Aggregator(job.windowSecs, batchSize, job.recomputeFrom, store);
    ghost var scans, order;
    assert agg.Accs() == map[];
    ok, scans, order := agg.Run(job.lines);
    a := Attempt(if batchSize <= 0 then 1000 else batchSize, scans, order, budget);
    FreshTrace(job, d, a);
  }

  /**
   * Runs with the given batch sizes, one after the other, each against a store that takes `budgets[i]` more
   * statements, until one completes: the metrics table is then the group-by of the accepted events, the
   * checkpoint the greatest accepted timestamp and every first-seen block exact.
   * Before that the state has stayed safe.
   */
  method RunUntilDone(job: Job, store: Store, batchSizes: seq<int>, budgets: seq<nat>) returns (done: bool)
    requires job.windowSecs > 0 && Sound(job, store.Value()) && OwnIds(store.Value().pools)
    requires |batchSizes| == |budgets|
    modifies store
    ensures var d0, es := old(store.Value()), InputOf(job, old(store.Value()));
      && (done ==>
            && store.Value().rows == d0.rows + GroupTable(job.windowSecs, es)
            && store.Value().state == Some(MaxTsAfter(StartOf(job, d0), es))
            && ((forall r :: r in es ==> r.block > 0) ==>
                  forall id :: FirstSeenExact(job, d0, store.Value().pools, id)))
      && (!done ==> Safe(job, d0, store.Value()) && SafePools(job, d0, store.Value()))
  {
    hide Sound;
    hide Safe;
    hide SafePools;
    hide FirstSeenExact;
    hide Completes;
    hide Crashes;
    hide GroupTable;
    hide MaxTsAfter;
    ghost var d0 := store.Value();
    StartIsSafe(job, d0);
    PoolsStartSafe(job, d0);
    for i := 0 to |budgets|
      invariant Safe(job, d0, store.Value()) && SafePools(job, d0, store.Value())
    {
      store.writesLeft := budgets[i];
      ghost var d := store.Value();
      ghost var a;
      done, a := RunOnce(job, store, batchSizes[i]);
      if done {
        Completed(job, d0, d, a, store.Value());
        return;
      }
      CrashKeepsSafe(job, d0, d, a, store.Value());
      CrashKeepsSafePools(job, d0, d, a, store.Value());
    }
    done := false;
  }

  lemma Completed(job: Job, d0: Durable, d: Durable, a: Attempt, d': Durable)
    requires job.windowSecs > 0 && Sound(job, d0) && Safe(job, d0, d) && Completes(job, d, a, d')
    requires SafePools(job, d0, d)
    ensures d'.rows == d0.rows + GroupTable(job.windowSecs, InputOf(job, d0))
    ensures d'.state == Some(MaxTsAfter(StartOf(job, d0), InputOf(job, d0)))
    ensures (forall r :: r in InputOf(job, d0) ==> r.block > 0) ==>
      forall id :: FirstSeenExact(job, d0, d'.pools, id)
  {
    hide Sound;
    hide Safe;
    hide SafePools;
    hide FirstSeenExact;
    hide Completes;
    hide GroupTable;
    hide MaxTsAfter;
    CompletionFromSafe(job, d0, d, a, d');
    if forall r :: r in InputOf(job, d0) ==> r.block > 0 {
      forall id: PoolId
        ensures FirstSeenExact(job, d0, d'.pools, id)
      {
        CompletionFirstSeen(job, d0, d, a, d', id);
      }
    }
  }
}
