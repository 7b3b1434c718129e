/**
 * The tables and the checkpoint a completed run leaves do not depend on the batch size, nor on the order in
 * which the accumulator map is iterated at the end.  This holds for every input, sorted or not.
 */
module Independence {
  import opened Base
  import opened Events
  import opened Accumulators
  import opened Stores
  import opened Stream
  import opened Refinement

  lemma {:induction false} OwnKeys(w: nat, es: seq<Record>)
    requires w > 0
    ensures forall k :: k in AccsAfter(w, es) ==> PoolKey(AccsAfter(w, es)[k].address) == k
  {
    hide PoolKey;
    if es != [] {
      OwnKeys(w, es[..|es| - 1]);
    }
  }

  /** The rows of the accumulators still open. */
  function OpenTable(w: nat, accs: map<string, Acc>): map<RowKey, Row>
    requires forall k :: k in accs ==> PoolKey(accs[k].address) == k
  {
    map k | k in accs && accs[k].meta.Present() :: AccKey(w, accs[k]) := MetricsOf(w, accs[k]).row
  }

  lemma OpenRowInTable(w: nat, accs: map<string, Acc>, order: seq<string>, m: Metrics)
    requires forall k :: k in accs ==> PoolKey(accs[k].address) == k
    requires ValidOrder(order, accs) && m in RowsFor(w, InOrder(accs, order))
    ensures m.key in OpenTable(w, accs) && OpenTable(w, accs)[m.key] == m.row
  {
    hide PoolKey;
    RowsForMembers(w, InOrder(accs, order), m);
    var a :| a in InOrder(accs, order) && a.meta.Present() && MetricsOf(w, a) == m;
    var i :| 0 <= i < |order| && accs[order[i]] == a;
    assert order[i] in accs;
  }

  lemma OpenTableHasRow(w: nat, accs: map<string, Acc>, order: seq<string>, key: RowKey)
    requires forall k :: k in accs ==> PoolKey(accs[k].address) == k
    requires ValidOrder(order, accs) && key in OpenTable(w, accs)
    ensures exists m :: m in RowsFor(w, InOrder(accs, order)) && m.key == key
  {
    hide PoolKey;
    var k :| k in accs && accs[k].meta.Present() && AccKey(w, accs[k]) == key;
    var i :| 0 <= i < |order| && order[i] == k;
    assert InOrder(accs, order)[i] == accs[k];
    RowsForMembers(w, InOrder(accs, order), MetricsOf(w, accs[k]));
  }

  lemma OpenRows(w: nat, accs: map<string, Acc>, order: seq<string>, rows: map<RowKey, Row>)
    requires forall k :: k in accs ==> PoolKey(accs[k].address) == k
    requires ValidOrder(order, accs)
    ensures UpsertRows(rows, RowsFor(w, InOrder(accs, order))) == rows + OpenTable(w, accs)
  {
    hide PoolKey;
    hide OpenTable;
    hide RowsFor;
    hide InOrder;
    hide UpsertRows;
    var ms := RowsFor(w, InOrder(accs, order));
    forall m | m in ms
      ensures m.key in OpenTable(w, accs) && OpenTable(w, accs)[m.key] == m.row
    {
      OpenRowInTable(w, accs, order, m);
    }
    forall key | key in OpenTable(w, accs)
      ensures exists m :: m in ms && m.key == key
    {
      OpenTableHasRow(w, accs, order, key);
    }
    UpsertTable(rows, ms, OpenTable(w, accs));
  }

  lemma {:induction false} UpsertRowsConcat(rows: map<RowKey, Row>, s: seq<Metrics>, t: seq<Metrics>)
    ensures UpsertRows(rows, s + t) == UpsertRows(UpsertRows(rows, s), t)
  {
    if t == [] {
      assert s + t == s;
    } else {
      UpsertRowsConcat(rows, s, t[..|t| - 1]);
      assert (s + t)[..|s + t| - 1] == s + t[..|t| - 1];
    }
  }

  lemma {:induction false} RowsForConcat(w: nat, s: seq<Acc>, t: seq<Acc>)
    ensures RowsFor(w, s + t) == RowsFor(w, s) + RowsFor(w, t)
  {
    if t == [] {
      assert s + t == s;
    } else {
      RowsForConcat(w, s, t[..|t| - 1]);
      assert (s + t)[..|s + t| - 1] == s + t[..|t| - 1];
    }
  }

  /** The records of one pool in a sequence of reports. */
  function ReportsOf(ps: seq<Pool>, id: PoolId): seq<Pool> {
    if ps == [] then []
    else
      var rest := ReportsOf(ps[..|ps| - 1], id);
      if ps[|ps| - 1].Id() == id then rest + [ps[|ps| - 1]] else rest
  }

  /** The stored record of a pool depends on the reports of that pool only. */
  lemma {:induction false} StoredFromReports(pools: map<PoolId, Pool>, ps: seq<Pool>, id: PoolId)
    ensures id in UpsertAllPools(pools, ps) <==> id in UpsertAllPools(pools, ReportsOf(ps, id))
    ensures id in UpsertAllPools(pools, ps) ==>
      UpsertAllPools(pools, ps)[id] == UpsertAllPools(pools, ReportsOf(ps, id))[id]
  {
    if ps != [] {
      StoredFromReports(pools, ps[..|ps| - 1], id);
    }
  }

  /** Flushing one accumulator reports its own pool only, if the block improves. */
  lemma FlushReports(w: nat, m: Mem, a: Acc, id: PoolId)
    ensures var m' := FlushAcc(w, m, a);
      && ReportsOf(m'.pools, id) == ReportsOf(m.pools, id) + FinalReport(m, a, id)
      && (PoolKey(a.address) != PoolKey(id.address) ==> SameSeen(m.poolSeen, m'.poolSeen, PoolKey(id.address)))
  {
    hide PoolKey;
    hide ReportsOf;
    ReportsOfSnoc(m.pools, PoolOf(a), id);
  }

  lemma FlushInOrder(w: nat, u: Mem, accs: map<string, Acc>, order: seq<string>)
    requires forall k :: k in order ==> k in accs
    ensures order == [] ==> FlushAll(w, u, InOrder(accs, order)) == u
    ensures order != [] ==>
      FlushAll(w, u, InOrder(accs, order)) ==
        FlushAcc(w, FlushAll(w, u, InOrder(accs, order[..|order| - 1])), accs[order[|order| - 1]])
  {
    hide FlushAcc;
    var open := InOrder(accs, order);
    if order != [] {
      assert open[..|open| - 1] == InOrder(accs, order[..|order| - 1]);
    }
  }

  /** At the end of the run each pool is reported at most once, and that does not depend on the others. */
  lemma {:induction false} FinalReports(w: nat, u: Mem, accs: map<string, Acc>, order: seq<string>, id: PoolId)
    requires forall k :: k in accs ==> PoolKey(accs[k].address) == k
    requires forall k :: k in order ==> k in accs
    requires forall i, j :: 0 <= i < j < |order| ==> order[i] != order[j]
    ensures var k, m := PoolKey(id.address), FlushAll(w, u, InOrder(accs, order));
      && (k !in order ==> ReportsOf(m.pools, id) == ReportsOf(u.pools, id) && SameSeen(u.poolSeen, m.poolSeen, k))
      && (k in order ==> ReportsOf(m.pools, id) == ReportsOf(u.pools, id) + FinalReport(u, accs[k], id))
  {
    hide PoolKey;
    hide FlushAll;
    hide FlushAcc;
    hide InOrder;
    hide ReportsOf;
    FlushInOrder(w, u, accs, order);
    if order != [] {
      var init, last := order[..|order| - 1], order[|order| - 1];
      assert order == init + [last] && last !in init;
      FinalReports(w, u, accs, init, id);
      FlushReports(w, FlushAll(w, u, InOrder(accs, init)), accs[last], id);
    }
  }

  lemma ReportsOfSnoc(ps: seq<Pool>, p: Pool, id: PoolId)
    ensures ReportsOf(ps + [p], id) == ReportsOf(ps, id) + (if p.Id() == id then [p] else [])
  {
    assert (ps + [p])[..|ps|] == ps;
  }

  predicate SameSeen(s: map<string, Pool>, t: map<string, Pool>, k: string) {
    (k in s <==> k in t) && (k in s ==> s[k] == t[k])
  }

  function FinalReport(u: Mem, a: Acc, id: PoolId): seq<Pool> {
    if a.meta.Present() && PoolOf(a).Id() == id && Improves(u.poolSeen, PoolOf(a)) then [PoolOf(a)] else []
  }

  lemma SamePools(
    w: nat, u: Mem, accs: map<string, Acc>, order: seq<string>, order': seq<string>, pools: map<PoolId, Pool>)
    requires forall k :: k in accs ==> PoolKey(accs[k].address) == k
    requires ValidOrder(order, accs) && ValidOrder(order', accs)
    ensures UpsertAllPools(pools, FlushAll(w, u, InOrder(accs, order)).pools)
         == UpsertAllPools(pools, FlushAll(w, u, InOrder(accs, order')).pools)
  {
    hide PoolKey;
    hide FlushAll;
    hide UpsertAllPools;
    hide ReportsOf;
    var p, p' := FlushAll(w, u, InOrder(accs, order)).pools, FlushAll(w, u, InOrder(accs, order')).pools;
    forall id: PoolId
      ensures id in UpsertAllPools(pools, p) <==> id in UpsertAllPools(pools, p')
      ensures id in UpsertAllPools(pools, p) ==> UpsertAllPools(pools, p)[id] == UpsertAllPools(pools, p')[id]
    {
      FinalReports(w, u, accs, order, id);
      FinalReports(w, u, accs, order', id);
      StoredFromReports(pools, p, id);
      StoredFromReports(pools, p', id);
    }
  }

  lemma SameRows(
    w: nat, closed: seq<Acc>, accs: map<string, Acc>, order: seq<string>, order': seq<string>, rows: map<RowKey, Row>)
    requires forall k :: k in accs ==> PoolKey(accs[k].address) == k
    requires ValidOrder(order, accs) && ValidOrder(order', accs)
    ensures UpsertRows(rows, RowsFor(w, closed + InOrder(accs, order)))
         == UpsertRows(rows, RowsFor(w, closed + InOrder(accs, order')))
  {
    hide PoolKey;
    hide RowsFor;
    hide UpsertRows;
    RowsForConcat(w, closed, InOrder(accs, order));
    RowsForConcat(w, closed, InOrder(accs, order'));
    UpsertRowsConcat(rows, RowsFor(w, closed), RowsFor(w, InOrder(accs, order)));
    UpsertRowsConcat(rows, RowsFor(w, closed), RowsFor(w, InOrder(accs, order')));
    OpenRows(w, accs, order, UpsertRows(rows, RowsFor(w, closed)));
    OpenRows(w, accs, order', UpsertRows(rows, RowsFor(w, closed)));
  }

  /** What a run leaves in each table, in terms of the accumulators it flushes. */
  lemma RunTables(cfg: Config, start: nat, es: seq<Record>, order: seq<string>, d: Durable)
    requires cfg.windowSecs > 0 && ValidOrder(order, AccsAfter(cfg.windowSecs, es))
    ensures var w := cfg.windowSecs;
      var accs, closed := AccsAfter(w, es), ClosedAfter(w, es);
      var out := Apply(d, Trace(cfg, start, es, order));
      && out.rows == UpsertRows(d.rows, RowsFor(w, closed + InOrder(accs, order)))
      && out.pools == UpsertAllPools(d.pools, FlushAll(w, FlushAll(w, Fresh(0), closed), InOrder(accs, order)).pools)
      && out.state == Some(MaxTsAfter(start, es))
  {
    hide TraceFrom;
    hide UpsertRows;
    hide UpsertAllPools;
    hide RowsFor;
    hide RowsOf;
    hide PoolsOf;
    hide Apply;
    hide AccsAfter;
    hide ClosedAfter;
    hide FlushAll;
    hide MaxTsAfter;
    TraceEmits(cfg, start, es, order);
    ApplyByTable(d, Trace(cfg, start, es, order));
    var w := cfg.windowSecs;
    FlushAllConcat(w, Fresh(0), ClosedAfter(w, es), InOrder(AccsAfter(w, es), order));
  }

  /** Two runs that differ in batch size and iteration order leave the same durable state. */
  lemma BatchAndOrderIndependent(
    cfg: Config, cfg': Config, start: nat, es: seq<Record>, order: seq<string>, order': seq<string>, d: Durable)
    requires cfg.windowSecs > 0 && cfg'.windowSecs == cfg.windowSecs
    requires ValidOrder(order, AccsAfter(cfg.windowSecs, es)) && ValidOrder(order', AccsAfter(cfg.windowSecs, es))
    ensures Apply(d, Trace(cfg, start, es, order)) == Apply(d, Trace(cfg', start, es, order'))
  {
    hide PoolKey;
    hide Trace;
    hide UpsertRows;
    hide UpsertAllPools;
    hide RowsFor;
    hide Apply;
    hide AccsAfter;
    hide ClosedAfter;
    hide FlushAll;
    hide MaxTsAfter;
    var w := cfg.windowSecs;
    var accs, closed := AccsAfter(w, es), ClosedAfter(w, es);
    OwnKeys(w, es);
    RunTables(cfg, start, es, order, d);
    RunTables(cfg', start, es, order', d);
    SameRows(w, closed, accs, order, order', d.rows);
    SamePools(w, FlushAll(w, Fresh(0), closed), accs, order, order', d.pools);
  }
}
