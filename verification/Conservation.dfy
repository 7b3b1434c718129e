/**
 * Nothing is counted twice and nothing is lost: at every point of the loop the swaps and volumes of all
 * accepted events are split between rows sent, rows pending, open windows, and windows dropped for missing
 * metadata.  This holds for every input, with no ordering assumption.
 */
module Conservation {
  import opened Base
  import opened Events
  import opened Accumulators
  import opened Stores
  import opened Stream
  import opened Refinement

  /** Swap count and volumes; a fee depends on the metadata of the window it is counted in. */
  function Flow(t: Totals): Totals {
    t.(fee0 := 0, fee1 := 0)
  }

  /** One swap and its absolute amounts; other events and swaps that do not parse move nothing. */
  function Moved(r: Record): Totals {
    match TradeOf(r)
    case Traded(a0, a1) => Totals(1, Abs(a0), Abs(a1), 0, 0)
    case _ => Zero()
  }

  /** The swap count and volumes of a sequence of events. */
  function FlowOf(es: seq<Record>): Totals {
    if es == [] then Zero() else FlowOf(es[..|es| - 1]).Plus(Moved(es[|es| - 1]))
  }

  function RowsFlow(ms: seq<Metrics>): Totals {
    if ms == [] then Zero() else RowsFlow(ms[..|ms| - 1]).Plus(Flow(ms[|ms| - 1].row.totals))
  }

  function AccsFlow(list: seq<Acc>): Totals {
    if list == [] then Zero() else AccsFlow(list[..|list| - 1]).Plus(Flow(list[|list| - 1].totals))
  }

  /** The accumulators that are dropped because their pool metadata is missing. */
  function Dropped(list: seq<Acc>): seq<Acc> {
    if list == [] then []
    else
      var rest := Dropped(list[..|list| - 1]);
      if list[|list| - 1].meta.Present() then rest else rest + [list[|list| - 1]]
  }

  ghost function OpenFlow(accs: map<string, Acc>): Totals
    decreases |accs|
  {
    if accs == map[] then Zero()
    else
      var k :| k in accs;
      SmallerMap(accs, k);
      Flow(accs[k].totals).Plus(OpenFlow(accs - {k}))
  }

  lemma SmallerMap(accs: map<string, Acc>, k: string)
    requires k in accs
    ensures |accs - {k}| < |accs|
  {
    assert (accs - {k}).Keys == accs.Keys - {k};
  }

  lemma PlusCommutes(a: Totals, b: Totals)
    ensures a.Plus(b) == b.Plus(a)
  {
  }

  /** The sum over a map may start with any key. */
  lemma {:induction false} OpenFlowPick(accs: map<string, Acc>, k: string)
    requires k in accs
    ensures OpenFlow(accs) == Flow(accs[k].totals).Plus(OpenFlow(accs - {k}))
    decreases |accs|
  {
    hide Totals.Plus;
    var j :| j in accs && OpenFlow(accs) == Flow(accs[j].totals).Plus(OpenFlow(accs - {j}));
    if j != k {
      var a, b, both := Flow(accs[j].totals), Flow(accs[k].totals), OpenFlow(accs - {j} - {k});
      SmallerMap(accs, j);
      SmallerMap(accs, k);
      OpenFlowPick(accs - {j}, k);
      OpenFlowPick(accs - {k}, j);
      assert accs - {j} - {k} == accs - {k} - {j};
      PlusAssociates(a, b, both);
      PlusAssociates(b, a, both);
      PlusCommutes(a, b);
    }
  }

  lemma OpenFlowUpdate(accs: map<string, Acc>, k: string, a: Acc)
    ensures OpenFlow(accs[k := a]) == Flow(a.totals).Plus(OpenFlow(accs - {k}))
  {
    OpenFlowPick(accs[k := a], k);
    assert accs[k := a] - {k} == accs - {k};
  }

  lemma AddEventFlow(a: Acc, r: Record)
    ensures Flow(AddEventTo(a, r).totals) == Flow(a.totals).Plus(Moved(r))
  {
    hide TradeOf;
  }

  /** One event moves into exactly one open window; closing a window moves its totals as they are. */
  lemma StepConserves(w: nat, accs: map<string, Acc>, closed: seq<Acc>, r: Record)
    requires w > 0
    ensures AccsFlow(closed + ClosedBy(w, accs, r)).Plus(OpenFlow(AccsStep(w, accs, r)))
         == AccsFlow(closed).Plus(OpenFlow(accs)).Plus(Moved(r))
  {
    hide PoolKey;
    hide AddEventTo;
    hide Contribution;
    hide Moved;
    hide Totals.Plus;
    hide Flow;
    var k := PoolKey(r.address);
    var c, rest, f := Moved(r), OpenFlow(accs - {k}), AccsFlow(closed);
    var a := if k in accs && ClosedBy(w, accs, r) == [] then accs[k] else NewAcc(r, w);
    OpenFlowUpdate(accs, k, AddEventTo(a, r));
    AddEventFlow(a, r);
    if k in accs {
      var o := Flow(accs[k].totals);
      OpenFlowPick(accs, k);
      if ClosedBy(w, accs, r) == [] {
        assert closed + [] == closed;
        SumsOfContinued(f, o, c, rest);
      } else {
        assert (closed + [accs[k]])[..|closed|] == closed;
        FlowZero();
        SumsOfReplaced(f, o, c, rest);
      }
    } else {
      assert closed + [] == closed;
      assert accs - {k} == accs;
      FlowZero();
      SumsOfOpened(f, c, rest);
    }
  }

  lemma FlowZero()
    ensures Flow(Zero()) == Zero()
  {
  }

  lemma SumsOfContinued(f: Totals, o: Totals, c: Totals, rest: Totals)
    ensures f.Plus(o.Plus(c).Plus(rest)) == f.Plus(o.Plus(rest)).Plus(c)
  {
  }

  lemma SumsOfReplaced(f: Totals, o: Totals, c: Totals, rest: Totals)
    ensures f.Plus(o).Plus(Zero().Plus(c).Plus(rest)) == f.Plus(o.Plus(rest)).Plus(c)
  {
  }

  lemma SumsOfOpened(f: Totals, c: Totals, rest: Totals)
    ensures f.Plus(Zero().Plus(c).Plus(rest)) == f.Plus(rest).Plus(c)
  {
  }

  lemma {:induction false} LoopConserves(w: nat, es: seq<Record>)
    requires w > 0
    ensures AccsFlow(ClosedAfter(w, es)).Plus(OpenFlow(AccsAfter(w, es))) == FlowOf(es)
  {
    hide AccsStep;
    hide ClosedBy;
    hide Moved;
    hide Totals.Plus;
    hide Flow;
    if es == [] {
      PlusZero(Zero());
      assert OpenFlow(map[]) == Zero();
    } else {
      var init := es[..|es| - 1];
      LoopConserves(w, init);
      StepConserves(w, AccsAfter(w, init), ClosedAfter(w, init), es[|es| - 1]);
    }
  }

  /** Flushed accumulators become rows or are dropped. */
  lemma {:induction false} RowsOrDropped(w: nat, list: seq<Acc>)
    ensures AccsFlow(list) == RowsFlow(RowsFor(w, list)).Plus(AccsFlow(Dropped(list)))
  {
    hide Totals.Plus;
    hide Flow;
    if list == [] {
      PlusZero(Zero());
    } else {
      var init, a := list[..|list| - 1], list[|list| - 1];
      RowsOrDropped(w, init);
      var x, y, z := RowsFlow(RowsFor(w, init)), AccsFlow(Dropped(init)), Flow(a.totals);
      PlusRight(x, y, z);
      assert (RowsFor(w, init) + [MetricsOf(w, a)])[..|RowsFor(w, init)|] == RowsFor(w, init);
      assert (Dropped(init) + [a])[..|Dropped(init)|] == Dropped(init);
    }
  }

  lemma {:induction false} RowsFlowConcat(s: seq<Metrics>, t: seq<Metrics>)
    ensures RowsFlow(s + t) == RowsFlow(s).Plus(RowsFlow(t))
  {
    hide Totals.Plus;
    hide Flow;
    if t == [] {
      assert s + t == s;
      PlusZero(RowsFlow(s));
    } else {
      var init := t[..|t| - 1];
      RowsFlowConcat(s, init);
      assert (s + t)[..|s + t| - 1] == s + init;
      PlusAssociates(RowsFlow(s), RowsFlow(init), Flow(t[|t| - 1].row.totals));
    }
  }

  /** Conservation at every loop point: sent + pending + dropped + open = everything accepted so far. */
  lemma Conserved(cfg: Config, start: nat, es: seq<Record>)
    requires cfg.windowSecs > 0
    ensures var (m, t) := Loop(cfg, Fresh(start), es);
      RowsFlow(RowsOf(t)).Plus(RowsFlow(m.batch))
        .Plus(AccsFlow(Dropped(ClosedAfter(cfg.windowSecs, es)))).Plus(OpenFlow(m.accs))
      == FlowOf(es)
  {
    hide Totals.Plus;
    hide Flow;
    hide Loop;
    hide ClosedAfter;
    hide AccsAfter;
    hide RowsFor;
    hide PoolsFor;
    var w := cfg.windowSecs;
    var (m, t) := Loop(cfg, Fresh(start), es);
    LoopMem(cfg, start, es);
    LoopEmits(cfg, start, es);
    LoopConserves(w, es);
    RowsOrDropped(w, ClosedAfter(w, es));
    RowsFlowConcat(RowsOf(t), m.batch);
  }

  lemma NothingOpen()
    ensures OpenFlow(map[]) == Zero()
  {
  }

  /** What is left of an iteration order without its last pool. */
  lemma OrderWithoutLast(accs: map<string, Acc>, order: seq<string>)
    requires ValidOrder(order, accs) && order != []
    ensures var init, k := order[..|order| - 1], order[|order| - 1];
      && k in accs && ValidOrder(init, accs - {k})
      && InOrder(accs, order) == InOrder(accs - {k}, init) + [accs[k]]
  {
    var init, k := order[..|order| - 1], order[|order| - 1];
    assert order == init + [k];
    forall j
      ensures j in init <==> j in accs - {k}
    {
      assert j in order <==> j in init || j == k;
    }
  }

  lemma AccsFlowSnoc(list: seq<Acc>, a: Acc)
    ensures AccsFlow(list + [a]) == AccsFlow(list).Plus(Flow(a.totals))
  {
    hide Totals.Plus;
    hide Flow;
    assert (list + [a])[..|list|] == list;
  }

  lemma {:induction false} OpenFlowInOrder(accs: map<string, Acc>, order: seq<string>)
    requires ValidOrder(order, accs)
    ensures AccsFlow(InOrder(accs, order)) == OpenFlow(accs)
    decreases |order|
  {
    hide Totals.Plus;
    hide Flow;
    hide OpenFlow;
    if order == [] {
      assert accs == map[];
      NothingOpen();
    } else {
      hide AccsFlow;
      hide InOrder;
      var init, k := order[..|order| - 1], order[|order| - 1];
      OrderWithoutLast(accs, order);
      hide ValidOrder;
      OpenFlowInOrder(accs - {k}, init);
      OpenFlowPick(accs, k);
      AccsFlowSnoc(InOrder(accs - {k}, init), accs[k]);
      PlusCommutes(Flow(accs[k].totals), OpenFlow(accs - {k}));
    }
  }

  /** Conservation over a whole run: the rows it sends and the windows it drops account for every event. */
  lemma RunConserves(cfg: Config, start: nat, es: seq<Record>, order: seq<string>)
    requires cfg.windowSecs > 0
    requires ValidOrder(order, AccsAfter(cfg.windowSecs, es))
    ensures RowsFlow(RowsOf(Trace(cfg, start, es, order)))
              .Plus(AccsFlow(Dropped(Flushed(cfg.windowSecs, es, order))))
         == FlowOf(es)
  {
    hide Totals.Plus;
    hide Flow;
    hide TraceFrom;
    hide ClosedAfter;
    hide AccsAfter;
    hide RowsFor;
    var w := cfg.windowSecs;
    var open := InOrder(AccsAfter(w, es), order);
    TraceEmits(cfg, start, es, order);
    LoopConserves(w, es);
    OpenFlowInOrder(AccsAfter(w, es), order);
    AccsFlowConcat(ClosedAfter(w, es), open);
    RowsOrDropped(w, Flushed(w, es, order));
  }

  lemma {:induction false} AccsFlowConcat(s: seq<Acc>, t: seq<Acc>)
    ensures AccsFlow(s + t) == AccsFlow(s).Plus(AccsFlow(t))
  {
    hide Totals.Plus;
    hide Flow;
    if t == [] {
      assert s + t == s;
      PlusZero(AccsFlow(s));
    } else {
      var init := t[..|t| - 1];
      AccsFlowConcat(s, init);
      assert (s + t)[..|s + t| - 1] == s + init;
      PlusAssociates(AccsFlow(s), AccsFlow(init), Flow(t[|t| - 1].totals));
    }
  }
}
