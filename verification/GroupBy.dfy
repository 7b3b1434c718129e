/**
 * The reference the streaming loop is measured against: group all events by pool and window, fold each group.
 * The loop keeps one open accumulator per pool; it agrees with the reference when one pool has one spelling
 * and the events of one pool and window are contiguous among that pool's events.
 */
module GroupBy {
  import opened Events
  import opened Windows
  import opened Accumulators
  import opened Stores
  import opened Stream

  function KeyOf(w: nat, r: Record): RowKey
    requires w > 0
  {
    RowKey(r.chainId, r.address, w, WindowStart(r.timestamp, w))
  }

  /** The events of one pool and window, in input order. */
  function Group(w: nat, es: seq<Record>, key: RowKey): (g: seq<Record>)
    requires w > 0
    ensures forall r :: r in g ==> KeyOf(w, r) == key && r in es
    ensures forall r :: r in es && KeyOf(w, r) == key ==> r in g
  {
    if es == [] then []
    else
      assert es == es[..|es| - 1] + [es[|es| - 1]];
      var rest := Group(w, es[..|es| - 1], key);
      if KeyOf(w, es[|es| - 1]) == key then rest + [es[|es| - 1]] else rest
  }

  lemma GroupSnoc(w: nat, es: seq<Record>, e: Record, key: RowKey)
    requires w > 0
    ensures Group(w, es + [e], key) == Group(w, es, key) + (if KeyOf(w, e) == key then [e] else [])
  {
    assert (es + [e])[..|es|] == es;
  }

  ghost predicate OneSpelling(es: seq<Record>) {
    forall r, s :: r in es && s in es && PoolKey(r.address) == PoolKey(s.address) ==>
      r.address == s.address && r.chainId == s.chainId
  }

  ghost predicate Contiguous(w: nat, es: seq<Record>)
    requires w > 0
  {
    forall i, j, l :: 0 <= i < j < l < |es| && SamePool(es[i], es[j]) && SamePool(es[j], es[l]) &&
      SameWindow(w, es[i], es[l])
      ==> SameWindow(w, es[i], es[j])
  }

  predicate SamePool(r: Record, s: Record) {
    PoolKey(r.address) == PoolKey(s.address)
  }

  predicate SameWindow(w: nat, r: Record, s: Record)
    requires w > 0
  {
    WindowStart(r.timestamp, w) == WindowStart(s.timestamp, w)
  }

  /** Windows arrive in order across all pools; inside a window the timestamps may be in any order. */
  ghost predicate WindowSorted(w: nat, es: seq<Record>)
    requires w > 0
  {
    forall i, j :: 0 <= i < j < |es| ==> WindowStart(es[i].timestamp, w) <= WindowStart(es[j].timestamp, w)
  }

  ghost predicate TimeSorted(es: seq<Record>) {
    forall i, j :: 0 <= i < j < |es| ==> es[i].timestamp <= es[j].timestamp
  }

  lemma SortedIsContiguous(w: nat, es: seq<Record>)
    requires w > 0
    ensures TimeSorted(es) ==> WindowSorted(w, es)
    ensures WindowSorted(w, es) ==> Contiguous(w, es)
  {
    if TimeSorted(es) {
      forall i, j | 0 <= i < j < |es|
        ensures WindowStart(es[i].timestamp, w) <= WindowStart(es[j].timestamp, w)
      {
        WindowStartMonotone(es[i].timestamp, es[j].timestamp, w);
      }
    }
  }

  function Keys(w: nat, es: seq<Record>): set<RowKey>
    requires w > 0
  {
    set r | r in es :: KeyOf(w, r)
  }

  /** The groups that give a row: those whose first event carries pool metadata. */
  predicate HasRow(w: nat, es: seq<Record>, key: RowKey)
    requires w > 0
  {
    Group(w, es, key) != [] && Group(w, es, key)[0].meta.Present()
  }

  function RowOf(w: nat, g: seq<Record>): Row
    requires w > 0 && g != []
  {
    MetricsOf(w, Fold(w, g)).row
  }

  /** The group-by of a sequence of events. */
  function GroupTable(w: nat, es: seq<Record>): map<RowKey, Row>
    requires w > 0
  {
    map key | key in Keys(w, es) && HasRow(w, es, key) :: RowOf(w, Group(w, es, key))
  }

  ghost predicate IsFoldOf(w: nat, es: seq<Record>, a: Acc)
    requires w > 0
  {
    var g := Group(w, es, AccKey(w, a));
    g != [] && a == Fold(w, g)
  }

  /** An accumulator that is the fold of its group carries the metadata of the group's first event. */
  lemma FoldIdentity(w: nat, es: seq<Record>, a: Acc)
    requires w > 0 && IsFoldOf(w, es, a)
    ensures AccKey(w, a) in Keys(w, es)
    ensures a.meta == Group(w, es, AccKey(w, a))[0].meta
  {
    hide Fold;
    var g := Group(w, es, AccKey(w, a));
    FoldIsSum(w, g);
    assert g[0] in g;
    assert KeyOf(w, g[0]) == AccKey(w, a);
  }

  /** What the loop's memory means after the events `es`: `accs` is open, `closed` has been flushed. */
  ghost predicate Represents(w: nat, es: seq<Record>, accs: map<string, Acc>, closed: seq<Acc>)
    requires w > 0
  {
    && OpenFolds(w, es, accs)
    && ClosedFolds(w, es, accs, closed)
    && Covers(w, es, accs, closed)
    && LeavesBehind(w, es, accs)
  }

  ghost predicate OpenFolds(w: nat, es: seq<Record>, accs: map<string, Acc>)
    requires w > 0
  {
    forall k :: k in accs ==> PoolKey(accs[k].address) == k && IsFoldOf(w, es, accs[k])
  }

  /** Flushed accumulators are folds of windows their pools have left, each window once. */
  ghost predicate ClosedFolds(w: nat, es: seq<Record>, accs: map<string, Acc>, closed: seq<Acc>)
    requires w > 0
  {
    && (forall a :: a in closed ==> IsFoldOf(w, es, a) && IsBehind(w, accs, AccKey(w, a)))
    && (forall i, j :: 0 <= i < j < |closed| ==> AccKey(w, closed[i]) != AccKey(w, closed[j]))
  }

  /** Every event's window is open or flushed. */
  ghost predicate Covers(w: nat, es: seq<Record>, accs: map<string, Acc>, closed: seq<Acc>)
    requires w > 0
  {
    forall r :: r in es ==>
      && PoolKey(r.address) in accs
      && (IsBehind(w, accs, KeyOf(w, r)) ==> exists a :: a in closed && AccKey(w, a) == KeyOf(w, r))
  }

  ghost predicate LeavesBehind(w: nat, es: seq<Record>, accs: map<string, Acc>)
    requires w > 0
  {
    forall i :: 0 <= i < |es| && IsBehind(w, accs, KeyOf(w, es[i])) ==> LeftWindow(w, es, i)
  }

  /** The pool of `key` has moved on to another window. */
  ghost predicate IsBehind(w: nat, accs: map<string, Acc>, key: RowKey) {
    PoolKey(key.address) in accs && AccKey(w, accs[PoolKey(key.address)]) != key
  }

  ghost predicate LeftWindow(w: nat, es: seq<Record>, i: nat)
    requires w > 0 && i < |es|
  {
    exists j :: i < j < |es| && SamePool(es[i], es[j]) && !SameWindow(w, es[i], es[j])
  }

  lemma InitKeepsConditions(w: nat, es: seq<Record>)
    requires w > 0 && es != [] && OneSpelling(es) && Contiguous(w, es)
    ensures OneSpelling(es[..|es| - 1]) && Contiguous(w, es[..|es| - 1])
  {
    hide PoolKey;
    var init := es[..|es| - 1];
    assert forall r :: r in init ==> r in es;
    assert forall i :: 0 <= i < |init| ==> init[i] == es[i];
  }

  lemma {:induction false} LoopRepresents(w: nat, es: seq<Record>)
    requires w > 0 && OneSpelling(es) && Contiguous(w, es)
    ensures Represents(w, es, AccsAfter(w, es), ClosedAfter(w, es))
  {
    hide IsFoldOf;
    hide OpenFolds;
    hide ClosedFolds;
    hide Covers;
    hide LeavesBehind;
    hide PoolKey;
    hide AccsStep;
    hide ClosedBy;
    hide Represents;
    hide OneSpelling;
    hide Contiguous;
    if es == [] {
      assert Represents(w, [], map[], []) by { EmptyRepresents(w); }
    } else {
      var init, e := es[..|es| - 1], es[|es| - 1];
      assert es == init + [e];
      InitKeepsConditions(w, es);
      LoopRepresents(w, init);
      StepRepresents(w, init, e, AccsAfter(w, init), ClosedAfter(w, init));
    }
  }

  lemma EmptyRepresents(w: nat)
    requires w > 0
    ensures Represents(w, [], map[], [])
  {
  }

  lemma OpenKeyOfPool(w: nat, es: seq<Record>, e: Record, accs: map<string, Acc>)
    requires w > 0 && OneSpelling(es + [e]) && OpenFolds(w, es, accs)
    requires PoolKey(e.address) in accs
    ensures ClosedBy(w, accs, e) == [] <==> AccKey(w, accs[PoolKey(e.address)]) == KeyOf(w, e)
  {
    hide PoolKey;
    hide Fold;
    var k := PoolKey(e.address);
    var g := Group(w, es, AccKey(w, accs[k]));
    assert g[0] in g;
    assert g[0] in es + [e] && e in es + [e];
  }

  lemma LeftWindowsStayLeft(w: nat, es: seq<Record>, e: Record, i: nat)
    requires w > 0 && Contiguous(w, es + [e])
    requires i < |es| && LeftWindow(w, es, i)
    ensures KeyOf(w, es[i]) != KeyOf(w, e)
  {
    hide PoolKey;
    var all := es + [e];
    var j :| i < j < |es| && SamePool(es[i], es[j]) && !SameWindow(w, es[i], es[j]);
    assert all[i] == es[i] && all[j] == es[j] && all[|es|] == e;
  }

  /** The event continues the open window of its pool, or it is the first of its pool and window. */
  lemma ContinuesOrStarts(w: nat, es: seq<Record>, e: Record, accs: map<string, Acc>, closed: seq<Acc>)
    requires w > 0 && OneSpelling(es + [e]) && Contiguous(w, es + [e])
    requires Represents(w, es, accs, closed)
    ensures var k := PoolKey(e.address);
      && (k in accs ==> (ClosedBy(w, accs, e) == [] <==> AccKey(w, accs[k]) == KeyOf(w, e)))
      && (!(k in accs && ClosedBy(w, accs, e) == []) ==> Group(w, es, KeyOf(w, e)) == [])
  {
    hide PoolKey;
    hide IsFoldOf;
    hide Group;
    hide Contiguous;
    hide ClosedBy;
    hide LeftWindow;
    var k := PoolKey(e.address);
    if k in accs {
      OpenKeyOfPool(w, es, e, accs);
    }
    if !(k in accs && ClosedBy(w, accs, e) == []) && Group(w, es, KeyOf(w, e)) != [] {
      var r := Group(w, es, KeyOf(w, e))[0];
      assert r in Group(w, es, KeyOf(w, e));
      var i :| 0 <= i < |es| && es[i] == r;
      LeftWindowsStayLeft(w, es, e, i);
      assert false;
    }
  }

  /** The accumulator the step leaves open is the fold of the event's group. */
  lemma StepFolds(w: nat, es: seq<Record>, e: Record, accs: map<string, Acc>, closed: seq<Acc>)
    requires w > 0 && OneSpelling(es + [e]) && Contiguous(w, es + [e])
    requires Represents(w, es, accs, closed)
    ensures var a := AccsStep(w, accs, e)[PoolKey(e.address)];
      && AccKey(w, a) == KeyOf(w, e)
      && IsFoldOf(w, es + [e], a)
  {
    hide PoolKey;
    hide AddEventTo;
    var k, key := PoolKey(e.address), KeyOf(w, e);
    ContinuesOrStarts(w, es, e, accs, closed);
    GroupSnoc(w, es, e, key);
    var g, g' := Group(w, es, key), Group(w, es + [e], key);
    var a := AccsStep(w, accs, e)[k];
    if g == [] {
      assert g' == [e];
      assert a == AddEventTo(NewAcc(e, w), e) == Fold(w, g');
    } else {
      assert g'[..|g|] == g && g'[|g|] == e;
      assert a == AddEventTo(accs[k], e) == Fold(w, g');
    }
    assert AccKey(w, a) == key by {
      FoldIsSum(w, g');
      assert g'[0] in g';
    }
  }

  lemma StepRepresents(w: nat, es: seq<Record>, e: Record, accs: map<string, Acc>, closed: seq<Acc>)
    requires w > 0 && OneSpelling(es + [e]) && Contiguous(w, es + [e])
    requires Represents(w, es, accs, closed)
    ensures Represents(w, es + [e], AccsStep(w, accs, e), closed + ClosedBy(w, accs, e))
  {
    hide OpenFolds;
    hide ClosedFolds;
    hide Covers;
    hide LeavesBehind;
    hide AccsStep;
    StepOpenFolds(w, es, e, accs, closed);
    StepClosedFolds(w, es, e, accs, closed);
    StepCovers(w, es, e, accs, closed);
    StepLeavesBehind(w, es, e, accs, closed);
  }

  lemma StepOpenFolds(w: nat, es: seq<Record>, e: Record, accs: map<string, Acc>, closed: seq<Acc>)
    requires w > 0 && OneSpelling(es + [e]) && Contiguous(w, es + [e])
    requires Represents(w, es, accs, closed)
    ensures OpenFolds(w, es + [e], AccsStep(w, accs, e))
  {
    hide PoolKey;
    hide AddEventTo;
    hide IsFoldOf;
    StepFolds(w, es, e, accs, closed);
    StepKeepsFolds(w, es, e);
    var k, accs' := PoolKey(e.address), AccsStep(w, accs, e);
    forall j | j in accs' && j != k
      ensures PoolKey(accs'[j].address) == j && IsFoldOf(w, es + [e], accs'[j])
    {
      assert AccKey(w, accs[j]) != KeyOf(w, e);
    }
  }

  lemma StepClosedFolds(w: nat, es: seq<Record>, e: Record, accs: map<string, Acc>, closed: seq<Acc>)
    requires w > 0 && OneSpelling(es + [e]) && Contiguous(w, es + [e])
    requires Represents(w, es, accs, closed)
    ensures ClosedFolds(w, es + [e], AccsStep(w, accs, e), closed + ClosedBy(w, accs, e))
  {
    hide PoolKey;
    hide AddEventTo;
    hide Fold;
    hide Group;
    ContinuesOrStarts(w, es, e, accs, closed);
    StepFolds(w, es, e, accs, closed);
    StepKeepsFolds(w, es, e);
    var accs', closed' := AccsStep(w, accs, e), closed + ClosedBy(w, accs, e);
    forall a | a in closed'
      ensures IsFoldOf(w, es + [e], a) && IsBehind(w, accs', AccKey(w, a))
    {
      assert IsFoldOf(w, es, a);
      assert AccKey(w, a) != KeyOf(w, e);
    }
  }

  lemma StepCovers(w: nat, es: seq<Record>, e: Record, accs: map<string, Acc>, closed: seq<Acc>)
    requires w > 0 && OneSpelling(es + [e]) && Contiguous(w, es + [e])
    requires Represents(w, es, accs, closed)
    ensures Covers(w, es + [e], AccsStep(w, accs, e), closed + ClosedBy(w, accs, e))
  {
    hide PoolKey;
    hide AddEventTo;
    hide IsFoldOf;
    StepFolds(w, es, e, accs, closed);
    var k, accs', closed' := PoolKey(e.address), AccsStep(w, accs, e), closed + ClosedBy(w, accs, e);
    forall r | r in es + [e] && IsBehind(w, accs', KeyOf(w, r))
      ensures exists a :: a in closed' && AccKey(w, a) == KeyOf(w, r)
    {
      if IsBehind(w, accs, KeyOf(w, r)) {
        var a :| a in closed && AccKey(w, a) == KeyOf(w, r);
        assert a in closed';
      } else {
        assert accs[k] in closed';
      }
    }
  }

  lemma StepKeepsFolds(w: nat, es: seq<Record>, e: Record)
    requires w > 0
    ensures forall a :: IsFoldOf(w, es, a) && AccKey(w, a) != KeyOf(w, e) ==> IsFoldOf(w, es + [e], a)
  {
    hide Fold;
    forall a | IsFoldOf(w, es, a) && AccKey(w, a) != KeyOf(w, e)
      ensures IsFoldOf(w, es + [e], a)
    {
      GroupSnoc(w, es, e, AccKey(w, a));
    }
  }

  lemma StepLeavesBehind(w: nat, es: seq<Record>, e: Record, accs: map<string, Acc>, closed: seq<Acc>)
    requires w > 0 && OneSpelling(es + [e]) && Contiguous(w, es + [e])
    requires Represents(w, es, accs, closed)
    ensures LeavesBehind(w, es + [e], AccsStep(w, accs, e))
  {
    hide PoolKey;
    hide AddEventTo;
    hide IsFoldOf;
    var all := es + [e];
    StepFolds(w, es, e, accs, closed);
    forall i | 0 <= i < |all| && IsBehind(w, AccsStep(w, accs, e), KeyOf(w, all[i]))
      ensures LeftWindow(w, all, i)
    {
      if IsBehind(w, accs, KeyOf(w, es[i])) {
        var j :| i < j < |es| && SamePool(es[i], es[j]) && !SameWindow(w, es[i], es[j]);
        assert SamePool(all[i], all[j]) && !SameWindow(w, all[i], all[j]);
      } else {
        assert all[i] in all && all[|es|] in all;
        assert SamePool(all[i], all[|es|]) && !SameWindow(w, all[i], all[|es|]);
      }
    }
  }

  /** An iteration order is a listing of the pools that have an open window. */
  lemma FlushedIsGroupBy(w: nat, es: seq<Record>, order: seq<string>)
    requires w > 0 && OneSpelling(es) && Contiguous(w, es)
    requires ValidOrder(order, AccsAfter(w, es))
    ensures var f := Flushed(w, es, order);
      && (forall a :: a in f ==> IsFoldOf(w, es, a))
      && (forall i, j :: 0 <= i < j < |f| ==> AccKey(w, f[i]) != AccKey(w, f[j]))
      && (forall r :: r in es ==> exists a :: a in f && AccKey(w, a) == KeyOf(w, r))
  {
    hide PoolKey;
    hide IsFoldOf;
    hide AccsAfter;
    hide ClosedAfter;
    LoopRepresents(w, es);
    var accs, closed := AccsAfter(w, es), ClosedAfter(w, es);
    var open := InOrder(accs, order);
    var f := Flushed(w, es, order);
    assert f == closed + open;
    forall i, j | 0 <= i < j < |f|
      ensures AccKey(w, f[i]) != AccKey(w, f[j])
    {
      if j >= |closed| {
        assert f[j] == accs[order[j - |closed|]];
        if i >= |closed| {
          assert f[i] == accs[order[i - |closed|]];
        } else {
          assert f[i] in closed;
        }
      }
    }
    forall r | r in es
      ensures exists a :: a in f && AccKey(w, a) == KeyOf(w, r)
    {
      if IsBehind(w, accs, KeyOf(w, r)) {
        var a :| a in closed && AccKey(w, a) == KeyOf(w, r);
        assert a in f;
      } else {
        var n :| 0 <= n < |order| && order[n] == PoolKey(r.address);
        assert open[n] in f;
      }
    }
  }
}
