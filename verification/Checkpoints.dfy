/** When a checkpoint is saved in the middle of a run, everything it covers is already in the tables. */
module Checkpoints {
  import opened Events
  import opened Windows
  import opened Accumulators
  import opened Stores
  import opened Stream
  import opened GroupBy
  import opened Refinement

  /** At a save after `n` events nothing is pending: all closed accumulators have been sent. */
  ghost predicate SyncedAt(cfg: Config, start: nat, es: seq<Record>, t: seq<Write>, i: nat, n: nat)
    requires cfg.windowSecs > 0 && i < |t|
  {
    var w := cfg.windowSecs;
    && 0 < n <= |es| && !TradeOf(es[n - 1]).Rejected?
    && i + 1 == |Loop(cfg, Fresh(start), es[..n]).1|
    && AccsAfter(w, es[..n]) != map[]
    && t[i] == Save(SafeTs(cfg, n - 1, AccsAfter(w, es[..n])))
    && RowsOf(t[..i]) == RowsFor(w, ClosedAfter(w, es[..n]))
    && PoolsOf(t[..i]) == PoolsFor(w, ClosedAfter(w, es[..n]))
  }

  lemma {:induction false} SavesAreSynced(cfg: Config, start: nat, es: seq<Record>, i: nat)
    requires cfg.windowSecs > 0
    requires i < |Loop(cfg, Fresh(start), es).1| && Loop(cfg, Fresh(start), es).1[i].Save?
    ensures exists n: nat :: SyncedAt(cfg, start, es, Loop(cfg, Fresh(start), es).1, i, n)
  {
    hide Step;
    hide AccsAfter;
    hide ClosedAfter;
    hide RowsFor;
    hide PoolsFor;
    var init, e := es[..|es| - 1], es[|es| - 1];
    var (m, t) := Loop(cfg, Fresh(start), init);
    var all := Loop(cfg, Fresh(start), es).1;
    if i < |t| {
      SavesAreSynced(cfg, start, init, i);
      var n: nat :| SyncedAt(cfg, start, init, t, i, n);
      assert init[..n] == es[..n];
      assert all[..i] == t[..i];
      assert SyncedAt(cfg, start, es, all, i, n);
    } else {
      LastSaveIsSynced(cfg, start, es, i);
    }
  }

  lemma LastSaveIsSynced(cfg: Config, start: nat, es: seq<Record>, i: nat)
    requires cfg.windowSecs > 0 && es != []
    requires i < |Loop(cfg, Fresh(start), es).1| && Loop(cfg, Fresh(start), es).1[i].Save?
    requires i >= |Loop(cfg, Fresh(start), es[..|es| - 1]).1|
    ensures SyncedAt(cfg, start, es, Loop(cfg, Fresh(start), es).1, i, |es|)
  {
    hide AccsStep;
    hide ClosedBy;
    hide FlushAll;
    hide RowsFor;
    hide PoolsFor;
    hide FlushWrites;
    hide RowsOf;
    hide PoolsOf;
    hide SafeTs;
    var w := cfg.windowSecs;
    var init, e := es[..|es| - 1], es[|es| - 1];
    LoopMem(cfg, start, init);
    LoopMem(cfg, start, es);
    LoopEmits(cfg, start, init);
    var (m, t) := Loop(cfg, Fresh(start), init);
    var m1 := Consume(w, m, e);
    FlushingEmits(w, m, t, ClosedAfter(w, init), ClosedBy(w, m.accs, e));
    assert Emits(w, m1, t, ClosedAfter(w, es));
    SendingEmits(w, m1, t, ClosedAfter(w, es), SafeTs(cfg, |init|, m1.accs));
    FlushWritesNoSave(m1);
    var all := Loop(cfg, Fresh(start), es).1;
    assert all == t + FlushWrites(m1) + [Save(SafeTs(cfg, |init|, m1.accs))];
    assert i == |all| - 1;
    assert all[..i] == t + FlushWrites(m1);
    assert es[..|es|] == es;
  }

  lemma FlushWritesNoSave(m: Mem)
    ensures forall w :: w in FlushWrites(m) ==> !w.Save?
  {
  }

  /** Every event after `s` lies in a window that starts after `s`. */
  ghost predicate CutsNoWindow(w: nat, es: seq<Record>, s: nat)
    requires w > 0
  {
    forall r :: r in es && r.timestamp > s ==> WindowStart(r.timestamp, w) > s
  }

  lemma {:induction false} GroupOfPrefix(w: nat, es: seq<Record>, n: nat, key: RowKey)
    requires w > 0 && n <= |es|
    requires forall j :: n <= j < |es| ==> KeyOf(w, es[j]) != key
    ensures Group(w, es[..n], key) == Group(w, es, key)
  {
    if n < |es| {
      GroupOfPrefix(w, es[..|es| - 1], n, key);
      assert es[..|es| - 1][..n] == es[..n];
    } else {
      assert es[..n] == es;
    }
  }

  /** The window of the last event is open, so the oldest open window does not start after it. */
  lemma MinOpenBound(w: nat, es: seq<Record>)
    requires w > 0 && es != [] && OneSpelling(es) && Contiguous(w, es)
    ensures AccsAfter(w, es) != map[]
    ensures MinOpen(AccsAfter(w, es)) <= WindowStart(es[|es| - 1].timestamp, w)
    ensures IsBoundary(MinOpen(AccsAfter(w, es)), w)
    ensures exists r :: r in es && WindowStart(r.timestamp, w) == MinOpen(AccsAfter(w, es))
  {
    hide PoolKey;
    hide AddEventTo;
    hide IsFoldOf;
    hide OneSpelling;
    hide Contiguous;
    hide ClosedFolds;
    hide Covers;
    hide LeavesBehind;
    hide NewAcc;
    hide TradeOf;
    hide ClosedAfter;
    var init, e := es[..|es| - 1], es[|es| - 1];
    assert es == init + [e];
    InitKeepsConditions(w, es);
    LoopRepresents(w, init);
    LoopRepresents(w, es);
    StepFolds(w, init, e, AccsAfter(w, init), ClosedAfter(w, init));
    var accs := AccsAfter(w, es);
    assert accs[PoolKey(e.address)].windowStart == WindowStart(e.timestamp, w);
    var k :| k in accs && accs[k].windowStart == MinOpen(accs);
    FoldIdentity(w, es, accs[k]);
    var r :| r in es && KeyOf(w, r) == AccKey(w, accs[k]);
    WindowStartAligned(r.timestamp, w);
  }

  /** A window that starts before the oldest open one has no event left, and was flushed. */
  lemma OldGroupsAreClosed(w: nat, es: seq<Record>, n: nat, key: RowKey) returns (a: Acc)
    requires w > 0 && OneSpelling(es) && WindowSorted(w, es) && 0 < n <= |es|
    requires Group(w, es, key) != []
    requires AccsAfter(w, es[..n]) != map[] && key.windowStart < MinOpen(AccsAfter(w, es[..n]))
    ensures a in ClosedAfter(w, es[..n]) && AccKey(w, a) == key && IsFoldOf(w, es[..n], a)
    ensures Group(w, es[..n], key) == Group(w, es, key)
  {
    hide PoolKey;
    hide IsFoldOf;
    hide AccsAfter;
    hide OneSpelling;
    hide Contiguous;
    hide LeavesBehind;
    hide ClosedAfter;
    var head := es[..n];
    PrefixKeepsOrder(w, es, n);
    MinOpenBound(w, head);
    LoopRepresents(w, head);
    var accs := AccsAfter(w, head);
    assert head[|head| - 1] == es[n - 1];
    forall j | n <= j < |es|
      ensures KeyOf(w, es[j]) != key
    {
      assert WindowStart(es[n - 1].timestamp, w) <= WindowStart(es[j].timestamp, w);
    }
    GroupOfPrefix(w, es, n, key);
    var g := Group(w, head, key);
    assert g[0] in g;
    assert IsBehind(w, accs, key);
    a :| a in ClosedAfter(w, head) && AccKey(w, a) == key;
  }

  lemma PrefixKeepsOrder(w: nat, es: seq<Record>, n: nat)
    requires w > 0 && OneSpelling(es) && WindowSorted(w, es) && n <= |es|
    ensures OneSpelling(es[..n]) && WindowSorted(w, es[..n]) && Contiguous(w, es[..n])
  {
    hide PoolKey;
    SortedIsContiguous(w, es[..n]);
  }

  /**
   * The settings under which a save always means the second before the oldest window: only windows of one
   * second, with a recompute value and a start at 0, let the first window be confused with no window.
   */
  predicate SavesOldest(cfg: Config, start: nat) {
    cfg.recomputeFrom == 0 || start > 0 || cfg.windowSecs > 1
  }

  /** The saved value is one second before the oldest open window. */
  lemma SafeTsBounds(cfg: Config, start: nat, es: seq<Record>, n: nat)
    requires cfg.windowSecs > 0 && SavesOldest(cfg, start)
    requires OneSpelling(es) && WindowSorted(cfg.windowSecs, es) && 0 < n <= |es|
    requires forall r :: r in es ==> WindowStart(r.timestamp, cfg.windowSecs) > start
    requires !TradeOf(es[n - 1]).Rejected?
    ensures var w := cfg.windowSecs;
      var accs := AccsAfter(w, es[..n]);
      && accs != map[] && SafeTs(cfg, n - 1, accs) == MinOpen(accs) - 1
      && start <= MinOpen(accs) - 1 < WindowStart(es[n - 1].timestamp, w)
      && MinOpen(accs) <= MaxTsAfter(start, es)
      && IsBoundary(MinOpen(accs), w)
  {
    hide PoolKey;
    hide AccsAfter;
    hide OneSpelling;
    hide WindowSorted;
    hide Contiguous;
    hide TradeOf;
    hide MaxTsAfter;
    hide Found;
    var w := cfg.windowSecs;
    PrefixKeepsOrder(w, es, n);
    MinOpenBound(w, es[..n]);
    var accs := AccsAfter(w, es[..n]);
    var r :| r in es[..n] && WindowStart(r.timestamp, w) == MinOpen(accs);
    assert r in es;
    FoundIsMinOpen(cfg.scans, n - 1, accs);
    SaveTsExact(MinOpen(accs), cfg.recomputeFrom);
    MaxTsIsMax(start, es, n - 1);
    assert es[..n][n - 1] == es[n - 1];
  }

  /** Every group that starts before the oldest open window has its final row among the closed ones. */
  lemma OldGroupsHaveRows(w: nat, es: seq<Record>, n: nat, key: RowKey)
    requires w > 0 && OneSpelling(es) && WindowSorted(w, es) && 0 < n <= |es|
    requires AccsAfter(w, es[..n]) != map[] && key.windowStart < MinOpen(AccsAfter(w, es[..n]))
    requires HasRow(w, es, key)
    ensures exists m :: m in RowsFor(w, ClosedAfter(w, es[..n])) && m.key == key
  {
    hide PoolKey;
    hide IsFoldOf;
    hide AccsAfter;
    hide ClosedAfter;
    hide Group;
    hide WindowSorted;
    hide RowsFor;
    var a := OldGroupsAreClosed(w, es, n, key);
    GroupsHaveRows(w, es[..n], ClosedAfter(w, es[..n]), key);
  }

  /**
   * Checkpoint safety inside a run, with or without a recompute value: a value saved after the statements
   * `t[..i]` lies on a window boundary, does not go back behind the start, stays below the greatest accepted
   * timestamp and before some window read, and every group that starts at or before it has its final row among
   * `t[..i]`.
   */
  lemma SaveIsSafe(cfg: Config, start: nat, es: seq<Record>, i: nat)
    requires cfg.windowSecs > 0 && SavesOldest(cfg, start)
    requires OneSpelling(es) && WindowSorted(cfg.windowSecs, es)
    requires forall r :: r in es ==> WindowStart(r.timestamp, cfg.windowSecs) > start
    requires i < |Loop(cfg, Fresh(start), es).1| && Loop(cfg, Fresh(start), es).1[i].Save?
    ensures var w, t := cfg.windowSecs, Loop(cfg, Fresh(start), es).1;
      && start <= t[i].ts <= MaxTsAfter(start, es)
      && IsBoundary(t[i].ts + 1, w)
      && (exists r :: r in es && WindowStart(r.timestamp, w) > t[i].ts)
      && forall key :: key in GroupTable(w, es) && key.windowStart <= t[i].ts ==>
           exists m :: m in RowsOf(t[..i]) && m.key == key
  {
    hide PoolKey;
    hide AccsAfter;
    hide ClosedAfter;
    hide Loop;
    hide HasRow;
    hide MaxTsAfter;
    hide SafeTs;
    hide WindowSorted;
    SavesAreSynced(cfg, start, es, i);
    var w, t := cfg.windowSecs, Loop(cfg, Fresh(start), es).1;
    var n: nat :| SyncedAt(cfg, start, es, t, i, n);
    SafeTsBounds(cfg, start, es, n);
    assert es[n - 1] in es;
    forall key | key in GroupTable(w, es) && key.windowStart <= t[i].ts
      ensures exists m :: m in RowsOf(t[..i]) && m.key == key
    {
      OldGroupsHaveRows(w, es, n, key);
    }
  }

  lemma {:induction false} MaxTsIsMax(start: nat, es: seq<Record>, j: nat)
    requires j < |es| && !TradeOf(es[j]).Rejected?
    ensures es[j].timestamp <= MaxTsAfter(start, es) && start <= MaxTsAfter(start, es)
  {
    hide TradeOf;
    MaxTsAtLeast(start, es[..|es| - 1]);
    if j < |es| - 1 {
      MaxTsIsMax(start, es[..|es| - 1], j);
    }
  }

  lemma {:induction false} MaxTsAtLeast(start: nat, es: seq<Record>)
    ensures start <= MaxTsAfter(start, es)
  {
    hide TradeOf;
    if es != [] {
      MaxTsAtLeast(start, es[..|es| - 1]);
    }
  }

  lemma MinOpenStep(w: nat, es: seq<Record>, n: nat)
    requires w > 0 && OneSpelling(es) && WindowSorted(w, es) && 0 < n < |es|
    ensures AccsAfter(w, es[..n]) != map[] && AccsAfter(w, es[..n + 1]) != map[]
    ensures MinOpen(AccsAfter(w, es[..n])) <= MinOpen(AccsAfter(w, es[..n + 1]))
  {
    hide PoolKey;
    hide AddEventTo;
    hide ClosedAfter;
    hide NewAcc;
    hide ClosedBy;
    hide OpenFolds;
    hide ClosedFolds;
    hide Covers;
    hide LeavesBehind;
    hide OneSpelling;
    hide Contiguous;
    hide IsFoldOf;
    PrefixKeepsOrder(w, es, n);
    PrefixKeepsOrder(w, es, n + 1);
    var head, e := es[..n], es[n];
    assert es[..n + 1] == head + [e];
    assert es[..n + 1][..n] == head;
    MinOpenBound(w, head);
    LoopRepresents(w, head);
    StepFolds(w, head, e, AccsAfter(w, head), ClosedAfter(w, head));
    assert AccsAfter(w, es[..n + 1]) == AccsStep(w, AccsAfter(w, head), e);
    assert head[|head| - 1] == es[n - 1];
    assert WindowStart(es[n - 1].timestamp, w) <= WindowStart(e.timestamp, w);
  }

  lemma {:induction false} MinOpenMonotone(w: nat, es: seq<Record>, n: nat, n': nat)
    requires w > 0 && OneSpelling(es) && WindowSorted(w, es) && 0 < n <= n' <= |es|
    ensures AccsAfter(w, es[..n]) != map[] && AccsAfter(w, es[..n']) != map[]
    ensures MinOpen(AccsAfter(w, es[..n])) <= MinOpen(AccsAfter(w, es[..n']))
    decreases n' - n
  {
    hide PoolKey;
    hide AccsAfter;
    if n < n' {
      MinOpenStep(w, es, n);
      MinOpenMonotone(w, es, n + 1, n');
    } else {
      PrefixKeepsOrder(w, es, n);
      MinOpenBound(w, es[..n]);
    }
  }

  /** Within a run the saved checkpoints never go back, up to and including the final one. */
  lemma SavesNeverGoBack(cfg: Config, start: nat, es: seq<Record>, i: nat, j: nat)
    requires cfg.windowSecs > 0 && SavesOldest(cfg, start)
    requires OneSpelling(es) && WindowSorted(cfg.windowSecs, es)
    requires forall r :: r in es ==> WindowStart(r.timestamp, cfg.windowSecs) > start
    requires i < j < |Loop(cfg, Fresh(start), es).1|
    requires Loop(cfg, Fresh(start), es).1[i].Save? && Loop(cfg, Fresh(start), es).1[j].Save?
    ensures start <= Loop(cfg, Fresh(start), es).1[i].ts <= Loop(cfg, Fresh(start), es).1[j].ts <= MaxTsAfter(start, es)
  {
    hide PoolKey;
    hide AccsAfter;
    hide ClosedAfter;
    hide Loop;
    hide MaxTsAfter;
    hide SafeTs;
    hide WindowSorted;
    var w, t := cfg.windowSecs, Loop(cfg, Fresh(start), es).1;
    SavesAreSynced(cfg, start, es, i);
    SavesAreSynced(cfg, start, es, j);
    var n: nat :| SyncedAt(cfg, start, es, t, i, n);
    var n': nat :| SyncedAt(cfg, start, es, t, j, n');
    if n' < n {
      assert es[..n][..n'] == es[..n'];
      LoopIsPrefix(cfg, Fresh(start), es[..n], n');
    }
    SafeTsBounds(cfg, start, es, n);
    SafeTsBounds(cfg, start, es, n');
    MinOpenMonotone(w, es, n, n');
  }
}
