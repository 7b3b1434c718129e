/** The streaming run writes exactly the group-by table, whatever the batch size and the iteration order. */
module Refinement {
  import opened Base
  import opened Events
  import opened Accumulators
  import opened Stores
  import opened Stream
  import opened GroupBy

  /** The statements of one run that starts after `start` and reads `es`. */
  ghost function Trace(cfg: Config, start: nat, es: seq<Record>, order: seq<string>): seq<Write>
    requires cfg.windowSecs > 0
    requires ValidOrder(order, AccsAfter(cfg.windowSecs, es))
  {
    LoopMem(cfg, start, es);
    TraceFrom(cfg, Fresh(start), es, order)
  }

  lemma {:induction false} RowsForMembers(w: nat, list: seq<Acc>, m: Metrics)
    ensures m in RowsFor(w, list) <==> exists a :: a in list && a.meta.Present() && MetricsOf(w, a) == m
  {
    if list != [] {
      var init, last := list[..|list| - 1], list[|list| - 1];
      assert list == init + [last];
      RowsForMembers(w, init, m);
      if last.meta.Present() && MetricsOf(w, last) == m {
        assert last in list;
      }
    }
  }

  /** Rows written from folds of groups are rows of the group-by table. */
  lemma RowsAreGroups(w: nat, es: seq<Record>, list: seq<Acc>, m: Metrics)
    requires w > 0
    requires forall a :: a in list ==> IsFoldOf(w, es, a)
    requires m in RowsFor(w, list)
    ensures m.key in GroupTable(w, es) && GroupTable(w, es)[m.key] == m.row
  {
    hide Fold;
    hide Group;
    RowsForMembers(w, list, m);
    var a :| a in list && a.meta.Present() && MetricsOf(w, a) == m;
    FoldIdentity(w, es, a);
  }

  lemma GroupsHaveRows(w: nat, es: seq<Record>, list: seq<Acc>, key: RowKey)
    requires w > 0
    requires exists a :: a in list && AccKey(w, a) == key && IsFoldOf(w, es, a)
    requires HasRow(w, es, key)
    ensures exists m :: m in RowsFor(w, list) && m.key == key
  {
    hide Fold;
    var a :| a in list && AccKey(w, a) == key && IsFoldOf(w, es, a);
    FoldIdentity(w, es, a);
    RowsForMembers(w, list, MetricsOf(w, a));
  }

  lemma RowsForKeys(w: nat, list: seq<Acc>, m: Metrics)
    requires m in RowsFor(w, list)
    ensures exists i :: 0 <= i < |list| && AccKey(w, list[i]) == m.key
  {
    RowsForMembers(w, list, m);
  }

  lemma {:induction false} RowsForDistinct(w: nat, list: seq<Acc>)
    requires forall i, j :: 0 <= i < j < |list| ==> AccKey(w, list[i]) != AccKey(w, list[j])
    ensures var ms := RowsFor(w, list); forall i, j :: 0 <= i < j < |ms| ==> ms[i].key != ms[j].key
  {
    if list != [] {
      var init, last := list[..|list| - 1], list[|list| - 1];
      RowsForDistinct(w, init);
      var ms, rest := RowsFor(w, list), RowsFor(w, init);
      forall i | 0 <= i < |rest|
        ensures rest[i].key != AccKey(w, last)
      {
        RowsForKeys(w, init, rest[i]);
        var k :| 0 <= k < |init| && AccKey(w, init[k]) == rest[i].key;
        assert init[k] == list[k];
      }
      assert ms == rest || ms == rest + [MetricsOf(w, last)];
    }
  }

  /**
   * Streaming refines group-by: a run sends one row for each group whose first event has pool metadata, no
   * group twice, and each row is the fold of its group.
   */
  lemma RunSendsGroupTable(cfg: Config, start: nat, es: seq<Record>, order: seq<string>)
    requires cfg.windowSecs > 0 && OneSpelling(es) && Contiguous(cfg.windowSecs, es)
    requires ValidOrder(order, AccsAfter(cfg.windowSecs, es))
    ensures var ms := RowsOf(Trace(cfg, start, es, order));
      var table := GroupTable(cfg.windowSecs, es);
      && (forall m :: m in ms ==> m.key in table && table[m.key] == m.row)
      && (forall key :: key in table ==> exists m :: m in ms && m.key == key)
      && (forall i, j :: 0 <= i < j < |ms| ==> ms[i].key != ms[j].key)
  {
    hide Group;
    hide IsFoldOf;
    hide TraceFrom;
    hide PoolKey;
    hide Flushed;
    var w := cfg.windowSecs;
    TraceEmits(cfg, start, es, order);
    FlushedIsGroupBy(w, es, order);
    var f := Flushed(w, es, order);
    RowsForDistinct(w, f);
    forall m | m in RowsFor(w, f)
      ensures m.key in GroupTable(w, es) && GroupTable(w, es)[m.key] == m.row
    {
      RowsAreGroups(w, es, f, m);
    }
    forall key | key in GroupTable(w, es)
      ensures exists m :: m in RowsFor(w, f) && m.key == key
    {
      GroupsHaveRows(w, es, f, key);
    }
  }

  lemma UpsertTable(rows: map<RowKey, Row>, ms: seq<Metrics>, table: map<RowKey, Row>)
    requires forall m :: m in ms ==> m.key in table && table[m.key] == m.row
    requires forall key :: key in table ==> exists m :: m in ms && m.key == key
    ensures UpsertRows(rows, ms) == rows + table
  {
    var out := UpsertRows(rows, ms);
    forall key
      ensures key in out <==> key in rows + table
      ensures key in out ==> out[key] == (rows + table)[key]
    {
      UpsertRowsLookup(rows, ms, key);
    }
  }

  /** The metrics table after an uninterrupted run is the old table overridden by the group-by. */
  lemma RunWritesGroupTable(cfg: Config, start: nat, es: seq<Record>, order: seq<string>, d: Durable)
    requires cfg.windowSecs > 0 && OneSpelling(es) && Contiguous(cfg.windowSecs, es)
    requires ValidOrder(order, AccsAfter(cfg.windowSecs, es))
    ensures Apply(d, Trace(cfg, start, es, order)).rows == d.rows + GroupTable(cfg.windowSecs, es)
  {
    hide Trace;
    hide GroupTable;
    hide AccsAfter;
    hide Apply;
    hide UpsertRows;
    hide UpsertAllPools;
    hide RowsOf;
    hide PoolsOf;
    hide LastSave;
    hide Contiguous;
    hide OneSpelling;
    var t := Trace(cfg, start, es, order);
    RunSendsGroupTable(cfg, start, es, order);
    ApplyByTable(d, t);
    UpsertTable(d.rows, RowsOf(t), GroupTable(cfg.windowSecs, es));
  }

  lemma EndOfTrace(cfg: Config, start: nat, es: seq<Record>, order: seq<string>)
    requires cfg.windowSecs > 0 && ValidOrder(order, AccsAfter(cfg.windowSecs, es))
    ensures var t := Trace(cfg, start, es, order); t != [] && t[|t| - 1] == Save(MaxTsAfter(start, es))
  {
    hide TraceFrom;
    hide Loop;
    hide Flushed;
    hide RowsFor;
    hide PoolsFor;
    hide AccsAfter;
    hide RowsOf;
    hide PoolsOf;
    hide MaxTsAfter;
    hide ValidOrder;
    TraceEmits(cfg, start, es, order);
  }

  /** An uninterrupted run also leaves the greatest accepted timestamp as checkpoint. */
  lemma RunLeaves(cfg: Config, start: nat, es: seq<Record>, order: seq<string>, d: Durable)
    requires cfg.windowSecs > 0 && OneSpelling(es) && Contiguous(cfg.windowSecs, es)
    requires ValidOrder(order, AccsAfter(cfg.windowSecs, es))
    ensures var out := Apply(d, Trace(cfg, start, es, order));
      out.rows == d.rows + GroupTable(cfg.windowSecs, es) && out.state == Some(MaxTsAfter(start, es))
  {
    hide Trace;
    hide GroupTable;
    hide Contiguous;
    hide OneSpelling;
    hide AccsAfter;
    hide Apply;
    hide UpsertRows;
    hide UpsertAllPools;
    hide RowsOf;
    hide PoolsOf;
    hide MaxTsAfter;
    RunWritesGroupTable(cfg, start, es, order, d);
    EndOfTrace(cfg, start, es, order);
    ApplyByTable(d, Trace(cfg, start, es, order));
  }
}
