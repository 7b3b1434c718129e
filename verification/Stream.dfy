/**
 * The aggregation loop as a function of its input: the memory it keeps and the exact sequence of statements
 * it sends to the store.  Class Aggregator is proved against this module.
 */
module Stream {
  import opened Events
  import opened Windows
  import opened Accumulators
  import opened Stores
  import opened Scans

  /** `scans[n]` is the order in which a save after event n visits the accumulator map, when there is one. */
  datatype Config = Config(windowSecs: nat, batchSize: int, recomputeFrom: nat, scans: seq<seq<string>>)

  /** The aggregator's volatile state; all of it is lost in a crash. */
  datatype Mem = Mem(
    accs: map<string, Acc>, poolSeen: map<string, Pool>, batch: seq<Metrics>, pools: seq<Pool>, maxTs: nat)

  function Fresh(start: nat): Mem {
    Mem(map[], map[], [], [], start)
  }

  function AccKey(w: nat, a: Acc): RowKey {
    RowKey(a.chainId, a.address, w, a.windowStart)
  }

  function MetricsOf(w: nat, a: Acc): Metrics {
    Metrics(AccKey(w, a), Row(a.windowEnd, a.totals, a.lastBlock, a.meta.token0, a.meta.token1))
  }

  function PoolOf(a: Acc): Pool {
    Pool(a.chainId, a.address, a.meta.token0, a.meta.token1, a.meta.fee, a.meta.tickSpacing, a.firstBlock)
  }

  /** `registerPool`: a pool is reported again only when its first-seen block improves. */
  predicate Improves(poolSeen: map<string, Pool>, p: Pool) {
    PoolKey(p.address) in poolSeen ==> p.firstSeenBlock < poolSeen[PoolKey(p.address)].firstSeenBlock
  }

  /** `flushAccumulator` and the two appends after it; a window without pool metadata is dropped. */
  function FlushAcc(w: nat, m: Mem, a: Acc): Mem {
    if !a.meta.Present() then m
    else
      var withRow := m.(batch := m.batch + [MetricsOf(w, a)]);
      if !Improves(m.poolSeen, PoolOf(a)) then withRow
      else withRow.(poolSeen := m.poolSeen[PoolKey(a.address) := PoolOf(a)], pools := m.pools + [PoolOf(a)])
  }

  function FlushAll(w: nat, m: Mem, list: seq<Acc>): Mem {
    if list == [] then m else FlushAcc(w, FlushAll(w, m, list[..|list| - 1]), list[|list| - 1])
  }

  /** The accumulator an event closes: the open one of its pool, if it belongs to another window. */
  function ClosedBy(w: nat, accs: map<string, Acc>, r: Record): seq<Acc>
    requires w > 0
  {
    var k := PoolKey(r.address);
    if k in accs && accs[k].windowStart != WindowStart(r.timestamp, w) then [accs[k]] else []
  }

  /** The accumulator an event is added to: the open one of its window, or a new one. */
  function Current(w: nat, accs: map<string, Acc>, r: Record): Acc
    requires w > 0
  {
    var k := PoolKey(r.address);
    if k in accs && ClosedBy(w, accs, r) == [] then accs[k] else NewAcc(r, w)
  }

  function AccsStep(w: nat, accs: map<string, Acc>, r: Record): (next: map<string, Acc>)
    requires w > 0
    ensures next.Keys == accs.Keys + {PoolKey(r.address)}
  {
    accs[PoolKey(r.address) := AddEventTo(Current(w, accs, r), r)]
  }

  /** One pass of the loop up to the batch test. */
  function Consume(w: nat, m: Mem, r: Record): (next: Mem)
    requires w > 0
    ensures PoolKey(r.address) in next.accs
  {
    FlushAll(w, m, ClosedBy(w, m.accs, r)).(
      accs := AccsStep(w, m.accs, r),
      maxTs := if !TradeOf(r).Rejected? && r.timestamp > m.maxTs then r.timestamp else m.maxTs)
  }

  ghost predicate IsMinOpen(accs: map<string, Acc>, min: nat) {
    && (exists k :: k in accs && accs[k].windowStart == min)
    && forall k :: k in accs ==> min <= accs[k].windowStart
  }

  /** The start of the oldest open window. */
  ghost function MinOpen(accs: map<string, Acc>): (min: nat)
    requires accs != map[]
    ensures IsMinOpen(accs, min)
  {
    MinOpenExists(accs);
    var min: nat :| IsMinOpen(accs, min);
    min
  }

  lemma {:induction false} MinOpenExists(accs: map<string, Acc>)
    requires accs != map[]
    ensures exists min: nat :: IsMinOpen(accs, min)
    decreases |accs|
  {
    var k :| k in accs;
    var rest := accs - {k};
    if rest == map[] {
      assert forall j :: j in accs && j != k ==> j in rest;
      assert IsMinOpen(accs, accs[k].windowStart);
    } else {
      assert |rest| < |accs| by {
        assert rest.Keys == accs.Keys - {k};
      }
      MinOpenExists(rest);
      var min: nat :| IsMinOpen(rest, min);
      forall j | j in accs && j != k ensures j in rest {
      }
      var least := if accs[k].windowStart < min then accs[k].windowStart else min;
      assert IsMinOpen(accs, least);
    }
  }

  /** An order in which the accumulator map may be iterated. */
  ghost predicate ValidOrder(order: seq<string>, accs: map<string, Acc>) {
    && (forall i, j :: 0 <= i < j < |order| ==> order[i] != order[j])
    && (forall k :: k in order <==> k in accs)
  }

  function InOrder(accs: map<string, Acc>, order: seq<string>): seq<Acc>
    requires forall k :: k in order ==> k in accs
  {
    seq(|order|, i requires 0 <= i < |order| => accs[order[i]])
  }

  /** The window starts of the accumulator map in iteration order. */
  function StartsInOrder(accs: map<string, Acc>, order: seq<string>): seq<nat>
    requires forall k :: k in order ==> k in accs
  {
    seq(|order|, i requires 0 <= i < |order| => accs[order[i]].windowStart)
  }

  lemma ScanIsMinOpen(accs: map<string, Acc>, order: seq<string>)
    requires accs != map[] && ValidOrder(order, accs)
    requires forall k :: k in accs ==> accs[k].windowStart > 0
    ensures Scan(StartsInOrder(accs, order)) == MinOpen(accs)
  {
    var starts := StartsInOrder(accs, order);
    forall k | k in accs
      ensures accs[k].windowStart in starts
    {
      var i :| 0 <= i < |order| && order[i] == k;
      assert starts[i] == accs[k].windowStart;
    }
    assert starts != [] by {
      var k :| k in accs;
      assert accs[k].windowStart in starts;
    }
    ScanIsLeast(starts);
    hide Scan;
    var i :| 0 <= i < |starts| && starts[i] == Scan(starts);
    assert order[i] in accs;
  }

  lemma {:induction false} OrderExists(accs: map<string, Acc>) returns (order: seq<string>)
    ensures ValidOrder(order, accs)
    decreases |accs|
  {
    if accs == map[] {
      order := [];
    } else {
      var k :| k in accs;
      assert (accs - {k}).Keys == accs.Keys - {k};
      var rest := OrderExists(accs - {k});
      order := rest + [k];
    }
  }

  /** `saveState` with open windows: one second before the start the search found. */
  function SaveTs(min: nat, recomputeFrom: nat): nat {
    if min <= 1 then recomputeFrom else min - 1
  }

  /** What the search of a save after event `n` finds; without an order, the oldest start. */
  ghost function Found(scans: seq<seq<string>>, n: nat, accs: map<string, Acc>): nat
    requires accs != map[]
  {
    if n < |scans| && ValidOrder(scans[n], accs) then Scan(StartsInOrder(accs, scans[n])) else MinOpen(accs)
  }

  /** With no open window at 0 the order of the search does not matter. */
  lemma FoundIsMinOpen(scans: seq<seq<string>>, n: nat, accs: map<string, Acc>)
    requires accs != map[] && forall k :: k in accs ==> accs[k].windowStart > 0
    ensures Found(scans, n, accs) == MinOpen(accs) > 0
  {
    hide Scan;
    hide StartsInOrder;
    if n < |scans| && ValidOrder(scans[n], accs) {
      ScanIsMinOpen(accs, scans[n]);
    }
  }

  ghost function SafeTs(cfg: Config, n: nat, accs: map<string, Acc>): nat
    requires accs != map[]
  {
    SaveTs(Found(cfg.scans, n, accs), cfg.recomputeFrom)
  }

  /**
   * The saved value is the second before the oldest window, except that a window that starts at 1 makes it the
   * recompute value.
   */
  lemma SaveTsExact(min: nat, recomputeFrom: nat)
    requires min > 0
    ensures SaveTs(min, recomputeFrom) == min - 1 <==> min > 1 || recomputeFrom == 0
    ensures min == 1 ==> SaveTs(min, recomputeFrom) == recomputeFrom
    ensures SaveTs(0, recomputeFrom) == recomputeFrom
  {
  }

  function FlushWrites(m: Mem): seq<Write> {
    PoolWrites(m.pools) + RowWrites(m.batch)
  }

  /** One whole pass over event `n`: a rejected event skips the batch test. */
  ghost function Step(cfg: Config, n: nat, m: Mem, r: Record): (Mem, seq<Write>)
    requires cfg.windowSecs > 0
  {
    var m1 := Consume(cfg.windowSecs, m, r);
    if TradeOf(r).Rejected? then (m1, []) else BatchTest(cfg, n, m1)
  }

  /** A full batch is sent, followed by a checkpoint. */
  ghost function BatchTest(cfg: Config, n: nat, m: Mem): (Mem, seq<Write>)
    requires m.accs != map[]
  {
    if |m.batch| >= cfg.batchSize then
      (m.(batch := [], pools := []), FlushWrites(m) + [Save(SafeTs(cfg, n, m.accs))])
    else (m, [])
  }

  /** The loop over the accepted records. */
  ghost function Loop(cfg: Config, m: Mem, es: seq<Record>): (Mem, seq<Write>)
    requires cfg.windowSecs > 0
  {
    if es == [] then (m, [])
    else
      var (m1, t) := Loop(cfg, m, es[..|es| - 1]);
      var (m2, t') := Step(cfg, |es| - 1, m1, es[|es| - 1]);
      (m2, t + t')
  }

  /** The end of the run: flush what is open, then save the greatest accepted timestamp. */
  function Finish(cfg: Config, m: Mem, order: seq<string>): seq<Write>
    requires forall k :: k in order ==> k in m.accs
  {
    FlushWrites(FlushAll(cfg.windowSecs, m, InOrder(m.accs, order))) + [Save(m.maxTs)]
  }

  ghost function TraceFrom(cfg: Config, m: Mem, es: seq<Record>, order: seq<string>): seq<Write>
    requires cfg.windowSecs > 0
    requires ValidOrder(order, Loop(cfg, m, es).0.accs)
  {
    var (m', t) := Loop(cfg, m, es);
    t + Finish(cfg, m', order)
  }

  // ----- The loop without batching

  function AccsAfter(w: nat, es: seq<Record>): map<string, Acc>
    requires w > 0
  {
    if es == [] then map[] else AccsStep(w, AccsAfter(w, es[..|es| - 1]), es[|es| - 1])
  }

  /** The accumulators closed so far, in the order they were closed. */
  function ClosedAfter(w: nat, es: seq<Record>): seq<Acc>
    requires w > 0
  {
    if es == [] then []
    else
      var init := es[..|es| - 1];
      ClosedAfter(w, init) + ClosedBy(w, AccsAfter(w, init), es[|es| - 1])
  }

  function MaxTsAfter(start: nat, es: seq<Record>): nat {
    if es == [] then start
    else
      var m, r := MaxTsAfter(start, es[..|es| - 1]), es[|es| - 1];
      if !TradeOf(r).Rejected? && r.timestamp > m then r.timestamp else m
  }

  /** Every accumulator a run flushes, in order. */
  function Flushed(w: nat, es: seq<Record>, order: seq<string>): seq<Acc>
    requires w > 0
    requires forall k :: k in order ==> k in AccsAfter(w, es)
  {
    ClosedAfter(w, es) + InOrder(AccsAfter(w, es), order)
  }

  /** The rows of the accumulators that have pool metadata. */
  function RowsFor(w: nat, list: seq<Acc>): seq<Metrics> {
    if list == [] then []
    else
      var init, a := RowsFor(w, list[..|list| - 1]), list[|list| - 1];
      if a.meta.Present() then init + [MetricsOf(w, a)] else init
  }

  /** The pool records `registerPool` lets through, from an empty `poolSeen`. */
  function PoolsFor(w: nat, list: seq<Acc>): seq<Pool> {
    FlushAll(w, Fresh(0), list).pools
  }

  lemma {:induction false} FlushAllRows(w: nat, m: Mem, list: seq<Acc>)
    ensures FlushAll(w, m, list).batch == m.batch + RowsFor(w, list)
    ensures FlushAll(w, m, list).accs == m.accs && FlushAll(w, m, list).maxTs == m.maxTs
  {
    if list != [] {
      FlushAllRows(w, m, list[..|list| - 1]);
    }
  }

  lemma {:induction false} FlushAllConcat(w: nat, m: Mem, s: seq<Acc>, t: seq<Acc>)
    ensures FlushAll(w, m, s + t) == FlushAll(w, FlushAll(w, m, s), t)
  {
    if t == [] {
      assert s + t == s;
    } else {
      FlushAllConcat(w, m, s, t[..|t| - 1]);
      assert (s + t)[..|s + t| - 1] == s + t[..|t| - 1];
    }
  }

  /** Flushing does the same to two memories that have seen the same pools, whatever already left one of them. */
  lemma {:induction false} FlushAllShift(w: nat, m: Mem, u: Mem, sentPools: seq<Pool>, list: seq<Acc>)
    requires m.poolSeen == u.poolSeen && u.pools == sentPools + m.pools
    ensures FlushAll(w, m, list).poolSeen == FlushAll(w, u, list).poolSeen
    ensures FlushAll(w, u, list).pools == sentPools + FlushAll(w, m, list).pools
  {
    if list != [] {
      FlushAllShift(w, m, u, sentPools, list[..|list| - 1]);
    }
  }

  /**
   * Batching only delays: what was sent in `t` plus what is pending in `m` is what the unbatched loop emits
   * for the accumulators in `closed`.
   */
  ghost predicate Emits(w: nat, m: Mem, t: seq<Write>, closed: seq<Acc>) {
    && m.poolSeen == FlushAll(w, Fresh(0), closed).poolSeen
    && RowsOf(t) + m.batch == RowsFor(w, closed)
    && PoolsOf(t) + m.pools == PoolsFor(w, closed)
  }

  lemma FlushingEmits(w: nat, m: Mem, t: seq<Write>, closed: seq<Acc>, more: seq<Acc>)
    requires Emits(w, m, t, closed)
    ensures Emits(w, FlushAll(w, m, more), t, closed + more)
  {
    hide FlushAll;
    hide RowsFor;
    hide RowsOf;
    hide PoolsOf;
    var u := FlushAll(w, Fresh(0), closed);
    FlushAllConcat(w, Fresh(0), closed, more);
    FlushAllShift(w, m, u, PoolsOf(t), more);
    FlushAllRows(w, m, more);
    FlushAllRows(w, u, more);
    FlushAllRows(w, Fresh(0), closed);
    FlushAllRows(w, Fresh(0), closed + more);
    assert RowsOf(t) + (m.batch + RowsFor(w, more)) == (RowsOf(t) + m.batch) + RowsFor(w, more);
    assert [] + RowsFor(w, closed) == RowsFor(w, closed);
    assert [] + RowsFor(w, closed + more) == RowsFor(w, closed + more);
  }

  lemma SendingEmits(w: nat, m: Mem, t: seq<Write>, closed: seq<Acc>, ts: nat)
    requires Emits(w, m, t, closed)
    ensures Emits(w, m.(batch := [], pools := []), t + FlushWrites(m) + [Save(ts)], closed)
    ensures RowsOf(t + FlushWrites(m)) == RowsOf(t + FlushWrites(m) + [Save(ts)]) == RowsFor(w, closed)
    ensures PoolsOf(t + FlushWrites(m)) == PoolsOf(t + FlushWrites(m) + [Save(ts)]) == PoolsFor(w, closed)
  {
    hide FlushAll;
    hide RowsFor;
    ProjectFlushWrites(m, ts);
    ProjectConcat(t, FlushWrites(m));
    assert (t + FlushWrites(m) + [Save(ts)])[..|t + FlushWrites(m)|] == t + FlushWrites(m);
  }

  lemma StepEmits(cfg: Config, n: nat, m: Mem, t: seq<Write>, closed: seq<Acc>, r: Record)
    requires cfg.windowSecs > 0
    requires Emits(cfg.windowSecs, m, t, closed)
    ensures var (m2, t2) := Step(cfg, n, m, r);
      Emits(cfg.windowSecs, m2, t + t2, closed + ClosedBy(cfg.windowSecs, m.accs, r))
  {
    hide ClosedBy;
    hide AccsStep;
    hide FlushAll;
    hide RowsFor;
    hide FlushWrites;
    hide SafeTs;
    var w := cfg.windowSecs;
    var m1 := Consume(w, m, r);
    var closed' := closed + ClosedBy(w, m.accs, r);
    FlushingEmits(w, m, t, closed, ClosedBy(w, m.accs, r));
    assert Emits(w, m1, t, closed');
    if Step(cfg, n, m, r).1 == [] {
      assert t + [] == t;
    } else {
      var ts := SafeTs(cfg, n, m1.accs);
      SendingEmits(w, m1, t, closed', ts);
      assert t + (FlushWrites(m1) + [Save(ts)]) == t + FlushWrites(m1) + [Save(ts)];
    }
  }

  lemma StepMem(cfg: Config, n: nat, m: Mem, r: Record)
    requires cfg.windowSecs > 0
    ensures Step(cfg, n, m, r).0.accs == AccsStep(cfg.windowSecs, m.accs, r)
    ensures Step(cfg, n, m, r).0.maxTs ==
      if !TradeOf(r).Rejected? && r.timestamp > m.maxTs then r.timestamp else m.maxTs
  {
    hide ClosedBy;
    hide AccsStep;
    hide TradeOf;
  }

  lemma {:induction false} LoopMem(cfg: Config, start: nat, es: seq<Record>)
    requires cfg.windowSecs > 0
    ensures Loop(cfg, Fresh(start), es).0.accs == AccsAfter(cfg.windowSecs, es)
    ensures Loop(cfg, Fresh(start), es).0.maxTs == MaxTsAfter(start, es)
  {
    hide Step;
    if es != [] {
      LoopMem(cfg, start, es[..|es| - 1]);
      StepMem(cfg, |es| - 1, Loop(cfg, Fresh(start), es[..|es| - 1]).0, es[|es| - 1]);
    }
  }

  lemma {:induction false} LoopEmits(cfg: Config, start: nat, es: seq<Record>)
    requires cfg.windowSecs > 0
    ensures var (m, t) := Loop(cfg, Fresh(start), es);
      Emits(cfg.windowSecs, m, t, ClosedAfter(cfg.windowSecs, es))
  {
    hide Step;
    if es != [] {
      var init := es[..|es| - 1];
      LoopEmits(cfg, start, init);
      LoopMem(cfg, start, init);
      var (m, t) := Loop(cfg, Fresh(start), init);
      StepEmits(cfg, |init|, m, t, ClosedAfter(cfg.windowSecs, init), es[|es| - 1]);
    }
  }

  lemma ProjectFlushWrites(m: Mem, ts: nat)
    ensures RowsOf(FlushWrites(m)) == m.batch && PoolsOf(FlushWrites(m)) == m.pools
    ensures RowsOf(FlushWrites(m) + [Save(ts)]) == m.batch && PoolsOf(FlushWrites(m) + [Save(ts)]) == m.pools
  {
    ProjectPoolWrites(m.pools);
    ProjectRowWrites(m.batch);
    ProjectConcat(PoolWrites(m.pools), RowWrites(m.batch));
    assert (FlushWrites(m) + [Save(ts)])[..|FlushWrites(m)|] == FlushWrites(m);
  }

  /** A whole run, on any batch size, sends exactly the rows and pools of the accumulators it flushes, in order. */
  lemma TraceEmits(cfg: Config, start: nat, es: seq<Record>, order: seq<string>)
    requires cfg.windowSecs > 0
    requires ValidOrder(order, AccsAfter(cfg.windowSecs, es))
    ensures ValidOrder(order, Loop(cfg, Fresh(start), es).0.accs)
    ensures var t := TraceFrom(cfg, Fresh(start), es, order);
      && RowsOf(t) == RowsFor(cfg.windowSecs, Flushed(cfg.windowSecs, es, order))
      && PoolsOf(t) == PoolsFor(cfg.windowSecs, Flushed(cfg.windowSecs, es, order))
      && t != [] && t[|t| - 1] == Save(MaxTsAfter(start, es))
  {
    hide Emits;
    hide FlushAll;
    hide FlushWrites;
    hide Loop;
    hide MaxTsAfter;
    hide PoolsFor;
    hide RowsOf;
    hide PoolsOf;
    hide AccsAfter;
    hide ClosedAfter;
    hide RowsFor;
    var w := cfg.windowSecs;
    LoopMem(cfg, start, es);
    LoopEmits(cfg, start, es);
    var (m, t) := Loop(cfg, Fresh(start), es);
    var open := InOrder(m.accs, order);
    var last := FlushAll(w, m, open);
    FlushingEmits(w, m, t, ClosedAfter(w, es), open);
    SendingEmits(w, last, t, Flushed(w, es, order), m.maxTs);
    FlushAllRows(w, m, open);
    assert TraceFrom(cfg, Fresh(start), es, order) == t + FlushWrites(last) + [Save(m.maxTs)];
  }

  lemma {:induction false} LoopIsPrefix(cfg: Config, m: Mem, es: seq<Record>, n: nat)
    requires cfg.windowSecs > 0 && n <= |es|
    ensures Loop(cfg, m, es[..n]).1 <= Loop(cfg, m, es).1
  {
    hide Step;
    if n < |es| {
      LoopIsPrefix(cfg, m, es[..|es| - 1], n);
      assert es[..|es| - 1][..n] == es[..n];
    } else {
      assert es[..n] == es;
    }
  }

  /** The saves made so far do not depend on the orders of later ones. */
  lemma {:induction false} LoopScans(cfg: Config, more: seq<seq<string>>, m: Mem, es: seq<Record>)
    requires cfg.windowSecs > 0 && |es| <= |cfg.scans|
    ensures Loop(cfg.(scans := cfg.scans + more), m, es) == Loop(cfg, m, es)
  {
    hide Consume;
    hide SaveTs;
    hide Scan;
    hide StartsInOrder;
    hide ValidOrder;
    hide FlushWrites;
    if es != [] {
      LoopScans(cfg, more, m, es[..|es| - 1]);
      assert (cfg.scans + more)[|es| - 1] == cfg.scans[|es| - 1];
    }
  }
}
