/** When the loop sends what is pending, and which pools it reports more than once. */
module Batches {
  import opened Events
  import opened Accumulators
  import opened Stores
  import opened Stream
  import opened Refinement

  lemma SentParts(m: Mem, ts: nat)
    ensures var t := FlushWrites(m) + [Save(ts)];
      RowsOf(t) == m.batch && PoolsOf(t) == m.pools && t[|t| - 1] == Save(ts)
  {
    hide RowsOf;
    hide PoolsOf;
    ProjectPoolWrites(m.pools);
    ProjectRowWrites(m.batch);
    ProjectConcat(PoolWrites(m.pools), RowWrites(m.batch));
    ProjectConcat(FlushWrites(m), [Save(ts)]);
    SaveProjects(ts);
    assert m.batch + [] == m.batch && [] + m.batch == m.batch && m.pools + [] == m.pools;
  }

  lemma SaveProjects(ts: nat)
    ensures RowsOf([Save(ts)]) == [] && PoolsOf([Save(ts)]) == []
  {
    assert [Save(ts)][..0] == [];
  }

  /**
   * What one pass sends: nothing while fewer rows than the batch size are pending, otherwise all pending pools
   * and rows and one checkpoint.  After a rejected swap nothing is sent, however much is pending.
   */
  lemma SendsWhenFull(cfg: Config, n: nat, m: Mem, r: Record)
    requires cfg.windowSecs > 0
    ensures var (m', t) := Step(cfg, n, m, r);
      var pending := Consume(cfg.windowSecs, m, r);
      && (t != [] <==> !TradeOf(r).Rejected? && |pending.batch| >= cfg.batchSize)
      && (t == [] ==> m' == pending)
      && (t != [] ==>
            && RowsOf(t) == pending.batch && PoolsOf(t) == pending.pools && t[|t| - 1].Save?
            && m' == pending.(batch := [], pools := []))
  {
    hide Consume;
    hide FlushWrites;
    hide RowsOf;
    hide PoolsOf;
    hide SafeTs;
    hide TradeOf;
    var pending := Consume(cfg.windowSecs, m, r);
    if !TradeOf(r).Rejected? && |pending.batch| >= cfg.batchSize {
      SentParts(pending, SafeTs(cfg, n, pending.accs));
    }
  }

  /** After an event that is not rejected fewer rows are pending than a batch holds. */
  lemma PendingBelowBatch(cfg: Config, start: nat, es: seq<Record>)
    requires cfg.windowSecs > 0 && cfg.batchSize > 0 && es != [] && !TradeOf(es[|es| - 1]).Rejected?
    ensures |Loop(cfg, Fresh(start), es).0.batch| < cfg.batchSize
  {
    hide Step;
    hide TradeOf;
    var (m, t) := Loop(cfg, Fresh(start), es[..|es| - 1]);
    SendsWhenFull(cfg, |es| - 1, m, es[|es| - 1]);
  }

  // ----- Repeated reports

  /** What is remembered for a pool is its last report, and no report repeats or raises a block. */
  ghost predicate Improving(m: Mem) {
    && (forall p :: p in m.pools ==>
          PoolKey(p.address) in m.poolSeen && m.poolSeen[PoolKey(p.address)].firstSeenBlock <= p.firstSeenBlock)
    && forall i, j :: 0 <= i < j < |m.pools| && PoolKey(m.pools[i].address) == PoolKey(m.pools[j].address) ==>
         m.pools[j].firstSeenBlock < m.pools[i].firstSeenBlock
  }

  lemma {:induction false} FlushesImprove(w: nat, list: seq<Acc>)
    ensures Improving(FlushAll(w, Fresh(0), list))
  {
    hide PoolKey;
    if list != [] {
      var init, a := list[..|list| - 1], list[|list| - 1];
      FlushesImprove(w, init);
      var m, m' := FlushAll(w, Fresh(0), init), FlushAll(w, Fresh(0), list);
      if m'.pools != m.pools {
        assert m'.pools == m.pools + [PoolOf(a)];
        assert forall i :: 0 <= i < |m.pools| ==> m.pools[i] in m.pools;
      }
    }
  }

  /** A run reports a pool again only with a lower first-seen block. */
  lemma ReportsImprove(cfg: Config, start: nat, es: seq<Record>, order: seq<string>, i: nat, j: nat)
    requires cfg.windowSecs > 0 && ValidOrder(order, AccsAfter(cfg.windowSecs, es))
    requires var ps := PoolsOf(Trace(cfg, start, es, order));
      i < j < |ps| && PoolKey(ps[i].address) == PoolKey(ps[j].address)
    ensures var ps := PoolsOf(Trace(cfg, start, es, order)); ps[j].firstSeenBlock < ps[i].firstSeenBlock
  {
    hide PoolKey;
    hide AccsAfter;
    hide PoolsOf;
    hide FlushAll;
    TraceEmits(cfg, start, es, order);
    FlushesImprove(cfg.windowSecs, Flushed(cfg.windowSecs, es, order));
  }
}
