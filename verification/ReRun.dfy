/**
 * Running again: on the same input, on a longer input, and from a checkpoint that cuts a window.
 * A completed run saves the greatest timestamp it accepted without rejecting the event, not a window boundary.
 */
module ReRun {
  import opened Base
  import opened Events
  import opened Windows
  import opened Accumulators
  import opened Stores
  import opened Stream
  import opened GroupBy
  import opened Refinement
  import opened Checkpoints
  import opened Pools
  import opened PoolHistory
  import opened Crash

  lemma {:induction false} MaxTsBounds(start: nat, es: seq<Record>)
    requires forall r :: r in es ==> r.timestamp > start
    ensures forall r :: r in es && !TradeOf(r).Rejected? ==> r.timestamp <= MaxTsAfter(start, es)
    ensures MaxTsAfter(start, es) == start || exists r :: r in es && r.timestamp == MaxTsAfter(start, es)
  {
    hide TradeOf;
    if es != [] {
      var init, e := es[..|es| - 1], es[|es| - 1];
      assert es == init + [e];
      MaxTsBounds(start, init);
      assert e in es;
    }
  }

  /** The longer job reads what the shorter one read, then the appended records. */
  lemma LongerInput(job: Job, more: seq<Line>, d0: Durable)
    ensures InputOf(job.(lines := job.lines + more), d0) == InputOf(job, d0) + Accepted(more, StartOf(job, d0))
  {
    AcceptedConcat(job.lines, more, StartOf(job, d0));
  }

  lemma ConcatGroup(w: nat, a: seq<Record>, b: seq<Record>, key: RowKey)
    requires w > 0 && forall r :: r in b ==> KeyOf(w, r) != key
    ensures Group(w, a + b, key) == Group(w, a, key)
  {
    assert forall j :: |a| <= j < |a + b| ==> (a + b)[j] in b;
    GroupOfPrefix(w, a + b, |a|, key);
    assert (a + b)[..|a|] == a;
  }

  /**
   * No rejected swap is later than every event that was not rejected: the final checkpoint is at or after every
   * event read.
   */
  ghost predicate NoLateReject(job: Job, d0: Durable) {
    forall r :: r in InputOf(job, d0) ==> r.timestamp <= MaxTsAfter(StartOf(job, d0), InputOf(job, d0))
  }

  /**
   * A completed run is a safe starting point for every continuation of its input whose new records all lie in
   * windows after the saved checkpoint, unless it read late rejected swaps.
   */
  lemma CompletionIsSafeForMore(job: Job, d0: Durable, d: Durable, a: Attempt, d1: Durable, more: seq<Line>)
    requires job.windowSecs > 0 && job.recomputeFrom == 0
    requires Sound(job, d0) && Safe(job, d0, d) && Completes(job, d, a, d1)
    requires NoLateReject(job, d0)
    requires var longer := job.(lines := job.lines + more);
      Sound(longer, d0) &&
      forall r :: r in Accepted(more, StartOf(job, d0)) ==> WindowStart(r.timestamp, job.windowSecs) > StartOf(job, d1)
    ensures Safe(job.(lines := job.lines + more), d0, d1)
  {
    hide GroupTable;
    hide PoolKey;
    hide WindowSorted;
    hide OneSpelling;
    hide MaxTsAfter;
    hide Completes;
    hide TradeOf;
    hide CutsNoWindow;
    hide StartOf;
    hide InputOf;
    var longer := job.(lines := job.lines + more);
    var es, added, s := InputOf(job, d0), Accepted(more, StartOf(job, d0)), StartOf(job, d1);
    CompletedStart(job, d0, d, a, d1);
    LongerInput(job, more, d0);
    SameStart(job, more, d0);
    SameStart(job, more, d1);
    MaxTsOfMore(StartOf(job, d0), es, added);
    CutsNothing(job.windowSecs, es, added, s);
    SameRows(job.windowSecs, es, added, s);
    CompletionFromSafe(job, d0, d, a, d1);
    assert RowsFinalUpTo(d1.rows, Target(longer, d0), s);
    assert RowsOldOrFinal(d1.rows, d0.rows, Target(longer, d0));
  }

  lemma SameStart(job: Job, more: seq<Line>, d: Durable)
    ensures StartOf(job.(lines := job.lines + more), d) == StartOf(job, d)
  {
  }

  /** The start a completed run leaves is at or after everything it read, if no rejected swap was late. */
  lemma CompletedStart(job: Job, d0: Durable, d: Durable, a: Attempt, d1: Durable)
    requires job.windowSecs > 0 && job.recomputeFrom == 0
    requires Sound(job, d0) && Safe(job, d0, d) && Completes(job, d, a, d1)
    requires NoLateReject(job, d0)
    ensures StartOf(job, d1) == MaxTsAfter(StartOf(job, d0), InputOf(job, d0))
    ensures forall r :: r in InputOf(job, d0) ==> r.timestamp <= StartOf(job, d1)
    ensures StartOf(job, d0) <= StartOf(job, d1)
  {
    hide Sound;
    hide Safe;
    hide Completes;
    hide TradeOf;
    hide MaxTsAfter;
    CompletionFromSafe(job, d0, d, a, d1);
    MaxTsBounds(StartOf(job, d0), InputOf(job, d0));
    MaxTsAtLeast(StartOf(job, d0), InputOf(job, d0));
  }

  lemma CutsNothing(w: nat, es: seq<Record>, added: seq<Record>, s: nat)
    requires w > 0
    requires forall r :: r in es ==> r.timestamp <= s
    requires forall r :: r in added ==> WindowStart(r.timestamp, w) > s
    ensures CutsNoWindow(w, es + added, s)
    ensures forall key :: key in GroupTable(w, es) ==> key.windowStart <= s
  {
    hide Group;
    forall key | key in GroupTable(w, es)
      ensures key.windowStart <= s
    {
      KeyWindow(w, es, key);
    }
  }

  /** Appending events of later windows changes no early row. */
  lemma SameRows(w: nat, es: seq<Record>, added: seq<Record>, s: nat)
    requires w > 0
    requires forall r :: r in added ==> WindowStart(r.timestamp, w) > s
    ensures forall key: RowKey :: key.windowStart <= s ==>
      && (key in GroupTable(w, es + added) <==> key in GroupTable(w, es))
      && (key in GroupTable(w, es) ==> GroupTable(w, es + added)[key] == GroupTable(w, es)[key])
  {
    hide Group;
    hide Fold;
    hide Keys;
    forall key: RowKey | key.windowStart <= s
      ensures Group(w, es + added, key) == Group(w, es, key)
      ensures key in Keys(w, es + added) <==> key in Keys(w, es)
    {
      ConcatGroup(w, es, added, key);
      GroupKeys(w, es, key);
      GroupKeys(w, es + added, key);
    }
  }

  lemma {:induction false} MaxTsOfMore(start: nat, es: seq<Record>, more: seq<Record>)
    ensures MaxTsAfter(start, es) <= MaxTsAfter(start, es + more)
  {
    hide TradeOf;
    if more == [] {
      assert es + more == es;
    } else {
      MaxTsOfMore(start, es, more[..|more| - 1]);
      assert (es + more)[..|es + more| - 1] == es + more[..|more| - 1];
    }
  }

  /** The appended records of later windows leave the groups before them alone. */
  lemma FromLongerGroup(w: nat, es: seq<Record>, added: seq<Record>, s: nat, p: Pool)
    requires w > 0 && FromGroup(w, es, p)
    requires forall r :: r in es ==> r.timestamp <= s
    requires forall r :: r in added ==> WindowStart(r.timestamp, w) > s
    ensures FromGroup(w, es + added, p)
  {
    hide Fold;
    hide Group;
    hide GroupTable;
    hide WindowStart;
    var key :| IsPoolOfGroup(w, es, p, key);
    CutsNothing(w, es, added, s);
    ConcatGroup(w, es, added, key);
    SameRows(w, es, added, s);
    assert IsPoolOfGroup(w, es + added, p, key);
  }

  lemma LongerStoredFrom(job: Job, more: seq<Line>, d0: Durable, s: nat, id: PoolId, stored: Pool)
    requires job.windowSecs > 0 && StoredFrom(job, d0, id, stored)
    requires forall r :: r in InputOf(job, d0) ==> r.timestamp <= s
    requires forall r :: r in Accepted(more, StartOf(job, d0)) ==> WindowStart(r.timestamp, job.windowSecs) > s
    ensures StoredFrom(job.(lines := job.lines + more), d0, id, stored)
  {
    hide FromGroup;
    hide WindowStart;
    hide SameColumns;
    var longer := job.(lines := job.lines + more);
    var w, es, added := job.windowSecs, InputOf(job, d0), Accepted(more, StartOf(job, d0));
    LongerInput(job, more, d0);
    forall p | IsSource(job, d0, id, p)
      ensures IsSource(longer, d0, id, p)
    {
      if FromGroup(w, es, p) {
        FromLongerGroup(w, es, added, s, p);
      }
    }
  }

  /** The same for the pools table. */
  lemma CompletionIsSafeForMorePools(job: Job, d0: Durable, d: Durable, a: Attempt, d1: Durable, more: seq<Line>)
    requires job.windowSecs > 0 && job.recomputeFrom == 0
    requires Sound(job, d0) && Safe(job, d0, d) && SafePools(job, d0, d) && Completes(job, d, a, d1)
    requires NoLateReject(job, d0)
    requires forall r :: r in Accepted(more, StartOf(job, d0)) ==>
      WindowStart(r.timestamp, job.windowSecs) > StartOf(job, d1)
    ensures SafePools(job.(lines := job.lines + more), d0, d1)
  {
    hide GroupTable;
    hide Sound;
    hide Safe;
    hide SafePools;
    hide Completes;
    hide TradeOf;
    hide StoredFrom;
    hide Fold;
    hide Group;
    hide WindowStart;
    var w, longer, s := job.windowSecs, job.(lines := job.lines + more), StartOf(job, d1);
    var es, added := InputOf(job, d0), Accepted(more, StartOf(job, d0));
    CompletedStart(job, d0, d, a, d1);
    LongerInput(job, more, d0);
    SameRows(w, es, added, s);
    forall id: PoolId
      ensures id in d1.pools ==> StoredFrom(longer, d0, id, d1.pools[id])
      ensures id in d0.pools ==> id in d1.pools
    {
      CompletionStoresGroups(job, d0, d, a, d1, id);
      if id in d1.pools {
        LongerStoredFrom(job, more, d0, s, id, d1.pools[id]);
      }
    }
    forall key | key in Target(longer, d0) && key.windowStart <= s
      ensures PoolSeenFor(longer, d0, d1.pools, key)
    {
      CompletionSeesPool(job, d0, d, a, d1, key);
      LongerSeen(job, more, d0, s, d1.pools, key);
    }
    assert SafePools(longer, d0, d1) by {
      AllSafePools(longer, d0, d1, s);
    }
  }

  lemma LongerSeen(job: Job, more: seq<Line>, d0: Durable, s: nat, pools: map<PoolId, Pool>, key: RowKey)
    requires job.windowSecs > 0 && key in Target(job, d0) && key.windowStart <= s && PoolSeenFor(job, d0, pools, key)
    requires forall r :: r in InputOf(job, d0) ==> r.timestamp <= s
    requires forall r :: r in Accepted(more, StartOf(job, d0)) ==> WindowStart(r.timestamp, job.windowSecs) > s
    requires key in Target(job.(lines := job.lines + more), d0)
    ensures PoolSeenFor(job.(lines := job.lines + more), d0, pools, key)
  {
    hide Fold;
    hide WindowStart;
    hide Group;
    hide FromGroup;
    hide SameColumns;
    LongerInput(job, more, d0);
    var p :| FromGroup(job.windowSecs, InputOf(job, d0), p) && p.Id() == IdOf(key) && SameColumns(p, pools[IdOf(key)]);
    FromLongerGroup(job.windowSecs, InputOf(job, d0), Accepted(more, StartOf(job, d0)), s, p);
    ConcatGroup(job.windowSecs, InputOf(job, d0), Accepted(more, StartOf(job, d0)), key);
  }

  lemma AllSafePools(job: Job, d0: Durable, d: Durable, s: nat)
    requires job.windowSecs > 0 && s == StartOf(job, d)
    requires forall id :: id in d.pools ==> StoredFrom(job, d0, id, d.pools[id])
    requires forall id :: id in d0.pools ==> id in d.pools
    requires forall key :: key in Target(job, d0) && key.windowStart <= s ==> PoolSeenFor(job, d0, d.pools, key)
    ensures SafePools(job, d0, d)
  {
  }

  /** A continuation of the input in windows after the checkpoint `d1` holds. */
  ghost predicate Continues(job: Job, more: seq<Line>, d0: Durable, d1: Durable)
    requires job.windowSecs > 0
  {
    && Sound(job.(lines := job.lines + more), d0)
    && forall r :: r in Accepted(more, StartOf(job, d0)) ==> WindowStart(r.timestamp, job.windowSecs) > StartOf(job, d1)
  }

  /**
   * Incremental runs: after any crashes and a completed run on an input without late rejected swaps, then any
   * crashes and a completed run on a continuation in later windows, the table and the checkpoint are those of
   * one fresh run on the whole input.
   */
  lemma IncrementalRun(
    job: Job, d0: Durable, d: Durable, a: Attempt, more: seq<Line>, ds: seq<Durable>, attempts: seq<Attempt>,
    last: Attempt, end: Durable, single: Attempt, whole: Durable)
    requires job.windowSecs > 0 && job.recomputeFrom == 0
    requires var longer := job.(lines := job.lines + more);
      && History(longer, ds, attempts) && Completes(longer, ds[|attempts|], last, end)
      && Completes(longer, d0, single, whole)
    requires Sound(job, d0) && Safe(job, d0, d) && Completes(job, d, a, ds[0])
    requires NoLateReject(job, d0) && Continues(job, more, d0, ds[0])
    ensures end.rows == whole.rows && end.state == whole.state
  {
    hide Sound;
    hide Safe;
    hide Completes;
    hide Crashes;
    hide GroupTable;
    hide TradeOf;
    hide MaxTsAfter;
    var longer := job.(lines := job.lines + more);
    CompletionIsSafeForMore(job, d0, d, a, ds[0], more);
    HistoryKeepsSafe(longer, d0, ds, attempts, |attempts|);
    CompletionFromSafe(longer, d0, ds[|attempts|], last, end);
    StartIsSafe(longer, d0);
    CompletionFromSafe(longer, d0, d0, single, whole);
  }

  /** With constant metadata the whole state is that of one fresh run. */
  lemma IncrementalState(
    job: Job, d0: Durable, d: Durable, a: Attempt, more: seq<Line>, ds: seq<Durable>, attempts: seq<Attempt>,
    last: Attempt, end: Durable, single: Attempt, whole: Durable)
    requires job.windowSecs > 0 && job.recomputeFrom == 0
    requires var longer := job.(lines := job.lines + more);
      && History(longer, ds, attempts) && Completes(longer, ds[|attempts|], last, end)
      && Completes(longer, d0, single, whole)
      && ConstantMeta(InputOf(longer, d0)) && forall r :: r in InputOf(longer, d0) ==> r.block > 0
    requires Sound(job, d0) && Safe(job, d0, d) && SafePools(job, d0, d) && Completes(job, d, a, ds[0])
    requires NoLateReject(job, d0) && Continues(job, more, d0, ds[0])
    requires OwnIds(d0.pools)
    ensures end == whole
  {
    hide Sound;
    hide Safe;
    hide SafePools;
    hide Completes;
    hide Crashes;
    hide TradeOf;
    hide ConstantMeta;
    hide InputOf;
    hide WindowStart;
    var longer := job.(lines := job.lines + more);
    IncrementalRun(job, d0, d, a, more, ds, attempts, last, end, single, whole);
    CompletionIsSafeForMore(job, d0, d, a, ds[0], more);
    CompletionIsSafeForMorePools(job, d0, d, a, ds[0], more);
    HistoryKeepsSafe(longer, d0, ds, attempts, |attempts|);
    HistoryKeepsSafePools(longer, d0, ds, attempts, |attempts|);
    StartIsSafe(longer, d0);
    PoolsStartSafe(longer, d0);
    CompletionsAgree(longer, d0, ds[|attempts|], last, end, d0, single, whole);
  }

  /** A record a second run reads again was rejected, and is later than everything that was not. */
  lemma OnlyRejectedRemain(job: Job, d0: Durable, d: Durable, a: Attempt, d1: Durable)
    requires job.windowSecs > 0 && job.recomputeFrom == 0
    requires Sound(job, d0) && Safe(job, d0, d) && Completes(job, d, a, d1)
    ensures InputOf(job, d1) == After(InputOf(job, d0), StartOf(job, d1))
    ensures forall r :: r in InputOf(job, d1) <==>
      r in InputOf(job, d0) && TradeOf(r).Rejected? && r.timestamp > StartOf(job, d1)
  {
    hide Sound;
    hide Safe;
    hide Completes;
    hide GroupTable;
    hide TradeOf;
    var es0, s0, s := InputOf(job, d0), StartOf(job, d0), StartOf(job, d1);
    CompletionFromSafe(job, d0, d, a, d1);
    MaxTsAtLeast(s0, es0);
    MaxTsBounds(s0, es0);
    AcceptedLater(job.lines, s0, s);
    forall r
      ensures r in InputOf(job, d1) <==> r in es0 && TradeOf(r).Rejected? && r.timestamp > s
    {
      AfterMembers(es0, s, r);
    }
  }

  lemma {:induction false} MaxTsOfRejected(start: nat, es: seq<Record>)
    requires forall r :: r in es ==> TradeOf(r).Rejected?
    ensures MaxTsAfter(start, es) == start
  {
    hide TradeOf;
    if es != [] {
      assert es == es[..|es| - 1] + [es[|es| - 1]];
      MaxTsOfRejected(start, es[..|es| - 1]);
    }
  }

  /** A run sends a row exactly when some group's first event has metadata. */
  lemma SendsRows(cfg: Config, start: nat, es: seq<Record>, order: seq<string>)
    requires cfg.windowSecs > 0 && OneSpelling(es) && Contiguous(cfg.windowSecs, es)
    requires ValidOrder(order, AccsAfter(cfg.windowSecs, es))
    ensures RowsOf(Trace(cfg, start, es, order)) == [] <==> forall key :: !HasRow(cfg.windowSecs, es, key)
    ensures RowsOf(Trace(cfg, start, es, order)) == [] ==> PoolsOf(Trace(cfg, start, es, order)) == []
  {
    hide OneSpelling;
    hide Contiguous;
    hide AccsAfter;
    hide Trace;
    hide RowsOf;
    hide PoolsOf;
    hide Seen;
    hide Group;
    var ms, ps := RowsOf(Trace(cfg, start, es, order)), PoolsOf(Trace(cfg, start, es, order));
    RunSendsGroupTable(cfg, start, es, order);
    RunReportsPools(cfg, start, es, order);
    forall key: RowKey
      ensures HasRow(cfg.windowSecs, es, key) <==> key in GroupTable(cfg.windowSecs, es)
    {
      GroupKeys(cfg.windowSecs, es, key);
    }
    if ms != [] {
      assert ms[0] in ms;
    }
    if ps != [] {
      assert ps[0] in ps;
    }
  }

  lemma NothingUpserted(d: Durable)
    ensures UpsertRows(d.rows, []) == d.rows && UpsertAllPools(d.pools, []) == d.pools
  {
  }

  /** A run that sends no row and moves no checkpoint changes nothing. */
  lemma NothingChanges(cfg: Config, start: nat, es: seq<Record>, order: seq<string>, d: Durable)
    requires cfg.windowSecs > 0 && ValidOrder(order, AccsAfter(cfg.windowSecs, es))
    requires RowsOf(Trace(cfg, start, es, order)) == [] && PoolsOf(Trace(cfg, start, es, order)) == []
    requires MaxTsAfter(start, es) == start && d.state == Some(start)
    ensures Apply(d, Trace(cfg, start, es, order)) == d
  {
    hide AccsAfter;
    hide TraceFrom;
    hide Apply;
    hide RowsOf;
    hide PoolsOf;
    hide MaxTsAfter;
    hide Loop;
    hide Flushed;
    hide RowsFor;
    hide PoolsFor;
    hide UpsertRows;
    hide UpsertAllPools;
    TraceEmits(cfg, start, es, order);
    var t := Trace(cfg, start, es, order);
    assert t[|t| - 1] == Save(start);
    ApplyByTable(d, t);
    NothingUpserted(d);
  }

  /** What the second run reads is in order, and belongs to the pools of the first. */
  lemma RestIsSorted(job: Job, d0: Durable, d1: Durable)
    requires job.windowSecs > 0 && Sound(job, d0) && InputOf(job, d1) == After(InputOf(job, d0), StartOf(job, d1))
    ensures OneSpelling(InputOf(job, d1)) && Contiguous(job.windowSecs, InputOf(job, d1))
  {
    hide PoolKey;
    hide WindowSorted;
    hide Contiguous;
    AfterSorted(job.windowSecs, InputOf(job, d0), StartOf(job, d1));
    SortedIsContiguous(job.windowSecs, InputOf(job, d1));
    forall r | r in InputOf(job, d1)
      ensures r in InputOf(job, d0)
    {
      AfterMembers(InputOf(job, d0), StartOf(job, d1), r);
    }
  }

  /**
   * Running again on the same input reads only rejected swaps later than every event that was not rejected.
   * It sends no row exactly when none of them opens a window with metadata, and then changes nothing at all;
   * with constant metadata that means there are none.  A rejected event opens a window but does not move the
   * final checkpoint, so otherwise the second run reads it again and flushes a window of its own.
   */
  lemma IdempotentReRun(job: Job, d0: Durable, d: Durable, a: Attempt, d1: Durable, b: Attempt, d2: Durable)
    requires job.windowSecs > 0 && job.recomputeFrom == 0
    requires Sound(job, d0) && Safe(job, d0, d) && Completes(job, d, a, d1)
    requires Completes(job, d1, b, d2)
    ensures forall r :: r in InputOf(job, d1) <==>
      r in InputOf(job, d0) && TradeOf(r).Rejected? && r.timestamp > StartOf(job, d1)
    ensures RowsOf(AttemptTrace(job, d1, b)) == [] <==> forall key :: !HasRow(job.windowSecs, InputOf(job, d1), key)
    ensures ConstantMeta(InputOf(job, d0)) ==>
      (RowsOf(AttemptTrace(job, d1, b)) == [] <==>
         forall r :: r in InputOf(job, d0) && TradeOf(r).Rejected? ==> r.timestamp <= StartOf(job, d1))
    ensures RowsOf(AttemptTrace(job, d1, b)) == [] ==> d2 == d1
  {
    hide Sound;
    hide Safe;
    hide TradeOf;
    hide PoolKey;
    hide Trace;
    hide MaxTsAfter;
    hide HasRow;
    var w, es, s := job.windowSecs, InputOf(job, d1), StartOf(job, d1);
    OnlyRejectedRemain(job, d0, d, a, d1);
    CompletionFromSafe(job, d0, d, a, d1);
    RestIsSorted(job, d0, d1);
    SendsRows(ConfigOf(job, b), s, es, b.order);
    MaxTsOfRejected(s, es);
    if RowsOf(AttemptTrace(job, d1, b)) == [] {
      NothingChanges(ConfigOf(job, b), s, es, b.order, d1);
    }
    if ConstantMeta(InputOf(job, d0)) {
      if es == [] {
        NoGroups(w);
      } else {
        assert es[0] in es;
        PresentGroup(w, es);
      }
    }
  }

  lemma NoGroups(w: nat)
    requires w > 0
    ensures forall key :: !HasRow(w, [], key)
  {
  }

  lemma PresentGroup(w: nat, es: seq<Record>)
    requires w > 0 && es != [] && forall r :: r in es ==> r.meta.Present()
    ensures exists key :: HasRow(w, es, key)
  {
    var key := KeyOf(w, es[0]);
    var g := Group(w, es, key);
    assert es[0] in es && es[0] in g && g[0] in g;
    assert HasRow(w, es, key);
  }
}
