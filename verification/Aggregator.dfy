/** The aggregator object, proved against the functions of module Stream for every crash point. */
module Aggregators {
  import opened Base
  import opened Events
  import opened Windows
  import opened Accumulators
  import opened Stores
  import opened Scans
  import opened Stream

  /** Two stretches of statements, sent one after the other, survive like one. */
  lemma SurvivesConcat(d: Durable, s: seq<Write>, t: seq<Write>, budget: nat)
    ensures |s| > budget ==> Apply(d, Survives(s + t, budget)) == Apply(d, Survives(s, budget))
    ensures |s| <= budget ==>
      Apply(d, Survives(s + t, budget)) == Apply(Apply(d, Survives(s, budget)), Survives(t, budget - |s|))
  {
    if |s| > budget {
      assert (s + t)[..budget] == s[..budget];
    } else {
      ApplyConcat(d, s, Survives(t, budget - |s|));
      assert Survives(s + t, budget) == s + Survives(t, budget - |s|);
    }
  }

  lemma FlushOne(w: nat, m: Mem, a: Acc)
    ensures FlushAll(w, m, []) == m && FlushAll(w, m, [a]) == FlushAcc(w, m, a)
  {
    hide FlushAcc;
    assert [a][..0] == [];
  }

  lemma NothingSent(d: Durable, budget: nat)
    ensures Apply(d, Survives([], budget)) == d
  {
  }

  lemma ConsumeParts(w: nat, m: Mem, r: Record)
    requires w > 0
    ensures var m' := FlushAll(w, m, ClosedBy(w, m.accs, r));
      Consume(w, m, r) == Mem(AccsStep(w, m.accs, r), m'.poolSeen, m'.batch, m'.pools,
        if !TradeOf(r).Rejected? && r.timestamp > m.maxTs then r.timestamp else m.maxTs)
  {
    hide FlushAll;
    hide AccsStep;
    hide ClosedBy;
    hide TradeOf;
  }

  lemma NextRecord(lines: seq<Line>, i: nat, start: nat)
    requires i < |lines|
    ensures Accepted(lines[..i + 1], start) ==
      if lines[i].Event? && lines[i].record.timestamp > start then Accepted(lines[..i], start) + [lines[i].record]
      else Accepted(lines[..i], start)
  {
    assert lines[..i + 1][..i] == lines[..i];
  }

  /** The loop over one more record, with the order in which a save after it visits the map. */
  lemma LoopSnoc(cfg: Config, scan: seq<string>, m: Mem, es: seq<Record>, r: Record)
    requires cfg.windowSecs > 0 && |cfg.scans| == |es|
    ensures var cfg' := cfg.(scans := cfg.scans + [scan]);
      var (m1, t) := Loop(cfg, m, es);
      var (m2, t') := Step(cfg', |es|, m1, r);
      Loop(cfg', m, es + [r]) == (m2, t + t')
  {
    hide Step;
    LoopScans(cfg, [scan], m, es);
    assert (es + [r])[..|es|] == es;
  }

  lemma LoopStart(cfg: Config, m: Mem, d: Durable)
    requires cfg.windowSecs > 0
    ensures Loop(cfg, m, []) == (m, []) && Apply(d, []) == d
  {
  }

  /** A save after the next event finds what the order it visits gives. */
  lemma FoundInOrder(cfg: Config, scan: seq<string>, accs: map<string, Acc>)
    requires accs != map[] && ValidOrder(scan, accs)
    ensures SafeTs(cfg.(scans := cfg.scans + [scan]), |cfg.scans|, accs)
         == SaveTs(Scan(StartsInOrder(accs, scan)), cfg.recomputeFrom)
  {
    hide Scan;
    hide SaveTs;
    hide StartsInOrder;
  }

  /** Statements sent after `t` got through. */
  lemma AfterStep(d: Durable, t: seq<Write>, t': seq<Write>, budget: nat)
    requires |t| <= budget
    ensures Apply(Apply(d, t), Survives(t', budget - |t|)) == Apply(d, Survives(t + t', budget))
    ensures |t'| <= budget - |t| ==> Apply(d, Survives(t + t', budget)) == Apply(d, t + t')
  {
    hide Apply;
    SurvivesConcat(d, t, t', budget);
  }

  lemma WholeTrace(cfg: Config, m: Mem, es: seq<Record>, order: seq<string>)
    requires cfg.windowSecs > 0 && ValidOrder(order, Loop(cfg, m, es).0.accs)
    ensures var (m', t) := Loop(cfg, m, es);
      var last := FlushAll(cfg.windowSecs, m', InOrder(m'.accs, order));
      TraceFrom(cfg, m, es, order) == t + (PoolWrites(last.pools) + RowWrites(last.batch) + [Save(m'.maxTs)])
  {
    hide Loop;
    hide FlushAll;
  }

  /** A run lost inside the loop has sent the first statements of its whole trace. */
  lemma LostRun(cfg: Config, m: Mem, lines: seq<Line>, n: nat, start: nat, budget: nat) returns (order: seq<string>)
    requires cfg.windowSecs > 0 && n <= |lines|
    requires |Loop(cfg, m, Accepted(lines[..n], start)).1| > budget
    ensures var es := Accepted(lines, start);
      && ValidOrder(order, Loop(cfg, m, es).0.accs)
      && |TraceFrom(cfg, m, es, order)| > budget
      && Survives(TraceFrom(cfg, m, es, order), budget) ==
           Survives(Loop(cfg, m, Accepted(lines[..n], start)).1, budget)
  {
    hide Loop;
    hide Finish;
    hide Accepted;
    var head, es := Accepted(lines[..n], start), Accepted(lines, start);
    order := OrderExists(Loop(cfg, m, es).0.accs);
    AcceptedConcat(lines[..n], lines[n..], start);
    assert lines[..n] + lines[n..] == lines;
    LoopIsPrefix(cfg, m, es, |head|);
    assert es[..|head|] == head;
  }

  class Aggregator {
    const windowSecs: nat
    var batchSize: int
    var recomputeFrom: nat
    const store: Store
    var accumulators: map<string, Accumulator>
    var poolSeen: map<string, Pool>

    constructor (windowSecs: nat, batchSize: int, recomputeFrom: nat, store: Store)
      ensures this.windowSecs == windowSecs && this.batchSize == batchSize && this.recomputeFrom == recomputeFrom
      ensures this.store == store && accumulators == map[] && poolSeen == map[] && Distinct()
    {
      this.windowSecs, this.batchSize, this.recomputeFrom, this.store := windowSecs, batchSize, recomputeFrom, store;
      accumulators, poolSeen := map[], map[];
    }

    /** No accumulator object is shared between pools. */
    ghost predicate Distinct()
      reads this`accumulators
    {
      forall j, k :: j in accumulators && k in accumulators && j != k ==> accumulators[j] != accumulators[k]
    }

    ghost function Accs(): map<string, Acc>
      reads this`accumulators, accumulators.Values
    {
      map k | k in accumulators :: accumulators[k].Value()
    }

    /** Iterates over the map in some order, as `range` does; 0 stands for unset. */
    method MinOpenWindowStart() returns (min: nat, ghost order: seq<string>)
      ensures accumulators == map[] ==> min == 0
      ensures accumulators != map[] && (forall k :: k in accumulators ==> accumulators[k].windowStart > 0) ==>
        IsMinOpen(Accs(), min)
      ensures ValidOrder(order, Accs()) && min == Scan(StartsInOrder(Accs(), order))
    {
      min, order := 0, [];
      var rest := accumulators.Keys;
      while rest != {}
        invariant rest <= accumulators.Keys
        invariant forall k :: k in order <==> k in accumulators.Keys - rest
        invariant forall i, j :: 0 <= i < j < |order| ==> order[i] != order[j]
        invariant min == Scan(StartsInOrder(Accs(), order))
        invariant accumulators == map[] ==> min == 0
        decreases rest
      {
        var k :| k in rest;
        rest := rest - {k};
        var start := accumulators[k].windowStart;
        ghost var before := order;
        assert k !in before;
        order := order + [k];
        assert StartsInOrder(Accs(), order)[..|before|] == StartsInOrder(Accs(), before);
        if min == 0 || start < min {
          min := start;
        }
      }
      AccsNotEmpty();
      if accumulators != map[] && forall k :: k in Accs() ==> Accs()[k].windowStart > 0 {
        ScanIsMinOpen(Accs(), order);
      }
    }

    lemma AccsNotEmpty()
      ensures accumulators != map[] ==> Accs() != map[]
    {
      if accumulators != map[] {
        var k :| k in accumulators;
        assert k in Accs();
      }
    }

    lemma AccsEmpty()
      ensures accumulators == map[] ==> Accs() == map[]
    {
    }

    /** What `SaveState` saves when it visits the map in the order `scan`. */
    ghost function StateTs(scan: seq<string>): nat
      requires accumulators == map[] || ValidOrder(scan, Accs())
      reads this, accumulators.Values
    {
      if accumulators == map[] then recomputeFrom else SaveTs(Scan(StartsInOrder(Accs(), scan)), recomputeFrom)
    }

    /** Saves one second before the oldest open window, or `recomputeFrom` when nothing is open. */
    method SaveState() returns (ok: bool, ghost scan: seq<string>)
      modifies store
      ensures ValidOrder(scan, Accs())
      ensures store.Value() == Apply(old(store.Value()), Survives([Save(StateTs(scan))], old(store.writesLeft)))
      ensures ok == (1 <= old(store.writesLeft))
      ensures store.writesLeft == if ok then old(store.writesLeft) - 1 else 0
    {
      hide Apply;
      hide Scan;
      hide StartsInOrder;
      hide ApplyOne;
      if accumulators == map[] {
        scan := [];
        ok := store.SaveState(recomputeFrom);
      } else {
        var safeTs;
        safeTs, scan := MinOpenWindowStart();
        if safeTs > 0 {
          safeTs := safeTs - 1;
        }
        if safeTs == 0 {
          safeTs := recomputeFrom;
        }
        ok := store.SaveState(safeTs);
      }
    }

    /** Sends the pending rows and pools, then a checkpoint. */
    method FlushAndSave(batch: seq<Metrics>, pools: seq<Pool>) returns (ok: bool, ghost scan: seq<string>)
      modifies store
      ensures ValidOrder(scan, Accs())
      ensures var t := PoolWrites(pools) + RowWrites(batch) + [Save(StateTs(scan))];
        && store.Value() == Apply(old(store.Value()), Survives(t, old(store.writesLeft)))
        && ok == (|t| <= old(store.writesLeft))
        && (ok ==> store.writesLeft == old(store.writesLeft) - |t|)
    {
      hide Apply;
      hide StateTs;
      ghost var d, budget := store.Value(), store.writesLeft;
      ghost var t := PoolWrites(pools) + RowWrites(batch);
      ok := FlushBatches(batch, pools);
      if ok {
        ok, scan := SaveState();
      } else {
        scan := OrderExists(Accs());
      }
      SurvivesConcat(d, t, [Save(StateTs(scan))], budget);
    }

    method FlushBatches(batch: seq<Metrics>, pools: seq<Pool>) returns (ok: bool)
      modifies store
      ensures var t := PoolWrites(pools) + RowWrites(batch);
        && store.Value() == Apply(old(store.Value()), Survives(t, old(store.writesLeft)))
        && ok == (|t| <= old(store.writesLeft))
        && store.writesLeft == if ok then old(store.writesLeft) - |t| else 0
    {
      hide Apply;
      ghost var d, budget := store.Value(), store.writesLeft;
      ghost var ps, rs := PoolWrites(pools), RowWrites(batch);
      SurvivesConcat(d, ps, rs, budget);
      NothingSent(d, budget);
      ok := true;
      if |pools| > 0 {
        ok := store.UpsertPools(pools);
        if !ok {
          return;
        }
      }
      NothingSent(store.Value(), store.writesLeft);
      if |batch| > 0 {
        ok := store.UpsertWindowMetrics(batch);
      }
    }

    method RegisterPool(acc: Accumulator) returns (pool: Option<Pool>)
      modifies this`poolSeen
      ensures var p := PoolOf(acc.Value());
        if Improves(old(poolSeen), p) then pool == Some(p) && poolSeen == old(poolSeen)[PoolKey(p.address) := p]
        else pool == None && poolSeen == old(poolSeen)
    {
      var key := PoolKey(acc.poolAddress);
      var p := Pool(acc.chainId, acc.poolAddress, acc.poolMeta.token0, acc.poolMeta.token1,
                    acc.poolMeta.fee, acc.poolMeta.tickSpacing, acc.firstBlock);
      if key in poolSeen {
        if poolSeen[key].firstSeenBlock <= p.firstSeenBlock {
          return None;
        }
      }
      poolSeen := poolSeen[key := p];
      pool := Some(p);
    }

    /** Turns one accumulator into a row and possibly a pool record, and appends them to the pending work. */
    method FlushInto(acc: Accumulator, batch: seq<Metrics>, pools: seq<Pool>, ghost m: Mem)
      returns (batch': seq<Metrics>, pools': seq<Pool>)
      requires m.poolSeen == poolSeen && m.batch == batch && m.pools == pools
      modifies this`poolSeen
      ensures var m' := FlushAcc(windowSecs, m, acc.Value());
        m'.poolSeen == poolSeen && m'.batch == batch' && m'.pools == pools'
    {
      batch', pools' := batch, pools;
      if acc.poolMeta.token0 == "" || acc.poolMeta.token1 == "" {
        return;
      }
      var pool := RegisterPool(acc);
      var totals := Totals(acc.swapCount, acc.volume0, acc.volume1, acc.fee0, acc.fee1);
      var row := Row(acc.windowEnd, totals, acc.lastBlock, acc.poolMeta.token0, acc.poolMeta.token1);
      batch' := batch + [Metrics(RowKey(acc.chainId, acc.poolAddress, windowSecs, acc.windowStart), row)];
      if pool.Some? {
        pools' := pools + [pool.value];
      }
    }

    /** Puts a new accumulator in the pool's place; the others are untouched. */
    method Open(key: string, r: Record, start: nat, end: uint64) returns (acc: Accumulator)
      requires Distinct()
      modifies this`accumulators
      ensures Distinct() && fresh(acc) && accumulators == old(accumulators)[key := acc]
      ensures acc.Value() == Acc(r.chainId, r.address, r.meta, start, end, Zero(), r.block, r.timestamp, r.block)
      ensures Accs() == old(Accs())[key := acc.Value()]
    {
      acc := new Accumulator(r, start, end);
      accumulators := accumulators[key := acc];
    }

    /** Finds the accumulator for the record's window, flushing the pool's previous window if it changed. */
    method OpenWindow(r: Record, batch: seq<Metrics>, pools: seq<Pool>, ghost m: Mem)
      returns (batch': seq<Metrics>, pools': seq<Pool>, acc: Accumulator)
      requires windowSecs > 0 && Distinct()
      requires m.accs == Accs() && m.poolSeen == poolSeen && m.batch == batch && m.pools == pools
      modifies this`poolSeen, this`accumulators
      ensures Distinct()
      ensures accumulators == old(accumulators)[PoolKey(r.address) := acc]
      ensures Accs() == m.accs[PoolKey(r.address) := acc.Value()]
      ensures acc.Value() == Current(windowSecs, m.accs, r)
      ensures fresh(acc) || acc in old(accumulators.Values)
      ensures var m' := FlushAll(windowSecs, m, ClosedBy(windowSecs, m.accs, r));
        m'.poolSeen == poolSeen && m'.batch == batch' && m'.pools == pools'
    {
      hide TradeOf;
      hide PoolKey;
      hide FlushAcc;
      hide FlushAll;
      hide Wrap64;
      hide WindowStart;
      FlushOne(windowSecs, m, NewAcc(r, windowSecs));
      batch', pools' := batch, pools;
      var start := WindowStart(r.timestamp, windowSecs);
      var end := Wrap64(start + windowSecs);
      var key := PoolKey(r.address);
      if key !in accumulators {
        acc := Open(key, r, start, end);
      } else {
        acc := accumulators[key];
        if acc.windowStart != start {
          FlushOne(windowSecs, m, acc.Value());
          batch', pools' := FlushInto(acc, batch, pools, m);
          acc := Open(key, r, start, end);
        }
      }
    }

    /** Adds an event to the open accumulator of a pool; no other accumulator changes. */
    method AddTo(key: string, r: Record) returns (ok: bool)
      requires Distinct() && key in accumulators
      modifies accumulators[key]
      ensures Accs() == old(Accs())[key := AddEventTo(old(accumulators[key].Value()), r)]
      ensures ok == !TradeOf(r).Rejected?
    {
      hide AddEventTo;
      hide TradeOf;
      ok := accumulators[key].AddEvent(r);
    }

    /** One record: its window is opened or continued, then the event is added to it. */
    method ConsumeRecord(r: Record, batch: seq<Metrics>, pools: seq<Pool>, ghost m: Mem)
      returns (batch': seq<Metrics>, pools': seq<Pool>, ok: bool)
      requires windowSecs > 0 && Distinct()
      requires m.accs == Accs() && m.poolSeen == poolSeen && m.batch == batch && m.pools == pools
      modifies this`poolSeen, this`accumulators, accumulators.Values
      ensures Distinct() && Accs() == AccsStep(windowSecs, m.accs, r)
      ensures var m' := FlushAll(windowSecs, m, ClosedBy(windowSecs, m.accs, r));
        m'.poolSeen == poolSeen && m'.batch == batch' && m'.pools == pools'
      ensures ok == !TradeOf(r).Rejected?
      ensures forall k :: k in accumulators ==> accumulators[k] in old(accumulators.Values) || fresh(accumulators[k])
    {
      hide AddEventTo;
      hide TradeOf;
      hide PoolKey;
      hide FlushAll;
      hide Current;
      hide ClosedBy;
      hide Distinct;
      var acc;
      batch', pools', acc := OpenWindow(r, batch, pools, m);
      ghost var between := Accs();
      assert between == m.accs[PoolKey(r.address) := acc.Value()];
      ok := AddTo(PoolKey(r.address), r);
      assert Accs() == between[PoolKey(r.address) := AddEventTo(between[PoolKey(r.address)], r)];
    }

    method LoadStartTimestamp() returns (start: nat)
      ensures start == if recomputeFrom > 0 then recomputeFrom - 1 else store.Value().state.GetOr(0)
    {
      if recomputeFrom > 0 {
        return recomputeFrom - 1;
      }
      var last := store.LoadState();
      start := match last case None => 0 case Some(ts) => ts;
    }

    /** Sends the pending work and a checkpoint if the batch is full. */
    method FlushIfFull(batch: seq<Metrics>, pools: seq<Pool>, ghost cfg: Config, ghost m: Mem)
      returns (batch': seq<Metrics>, pools': seq<Pool>, ok: bool, ghost scan: seq<string>)
      requires cfg.batchSize == batchSize && cfg.recomputeFrom == recomputeFrom
      requires m.accs == Accs() && m.batch == batch && m.pools == pools && m.accs != map[]
      modifies store
      ensures var (m', t) := BatchTest(cfg.(scans := cfg.scans + [scan]), |cfg.scans|, m);
        && store.Value() == Apply(old(store.Value()), Survives(t, old(store.writesLeft)))
        && ok == (|t| <= old(store.writesLeft))
        && (ok ==> store.writesLeft == old(store.writesLeft) - |t|)
        && m' == m.(batch := batch', pools := pools')
    {
      hide Apply;
      hide SafeTs;
      hide Scan;
      hide StartsInOrder;
      NothingSent(store.Value(), store.writesLeft);
      batch', pools', ok, scan := batch, pools, true, [];
      AccsEmpty();
      if |batch| >= batchSize {
        ok, scan := FlushAndSave(batch, pools);
        FoundInOrder(cfg, scan, Accs());
        batch', pools' := [], [];
      }
    }

    /** One whole pass of the loop, with the batch test; `ok` is false when a statement did not get through. */
    method ProcessRecord(r: Record, batch: seq<Metrics>, pools: seq<Pool>, maxTs: nat, ghost cfg: Config, ghost m: Mem)
      returns (batch': seq<Metrics>, pools': seq<Pool>, maxTs': nat, ok: bool, ghost scan: seq<string>)
      requires windowSecs > 0 && Distinct() && cfg == Config(windowSecs, batchSize, recomputeFrom, cfg.scans)
      requires m == Mem(Accs(), poolSeen, batch, pools, maxTs)
      modifies this`poolSeen, this`accumulators, accumulators.Values, store
      ensures Distinct()
      ensures forall k :: k in accumulators ==> accumulators[k] in old(accumulators.Values) || fresh(accumulators[k])
      ensures var (m', t) := Step(cfg.(scans := cfg.scans + [scan]), |cfg.scans|, m, r);
        && store.Value() == Apply(old(store.Value()), Survives(t, old(store.writesLeft)))
        && ok == (|t| <= old(store.writesLeft))
        && (ok ==> store.writesLeft == old(store.writesLeft) - |t|)
        && (ok ==> m' == Mem(Accs(), poolSeen, batch', pools', maxTs'))
    {
      hide AccsStep;
      hide ClosedBy;
      hide FlushAll;
      hide TradeOf;
      hide Apply;
      hide Consume;
      hide BatchTest;
      hide Distinct;
      hide Accs;
      NothingSent(store.Value(), store.writesLeft);
      ConsumeParts(windowSecs, m, r);
      maxTs', scan := maxTs, [];
      var added;
      batch', pools', added := ConsumeRecord(r, batch, pools, m);
      if !added {
        return batch', pools', maxTs', true, [];
      }
      if r.timestamp > maxTs {
        maxTs' := r.timestamp;
      }
      batch', pools', ok, scan := FlushIfFull(batch', pools', cfg, Consume(windowSecs, m, r));
    }

    /** Flushes every open window, in whatever order the map is iterated. */
    method FlushOpen(batch: seq<Metrics>, pools: seq<Pool>, ghost m: Mem)
      returns (batch': seq<Metrics>, pools': seq<Pool>, ghost order: seq<string>)
      requires m.accs == Accs() && m.poolSeen == poolSeen && m.batch == batch && m.pools == pools
      modifies this`poolSeen
      ensures ValidOrder(order, m.accs)
      ensures var m' := FlushAll(windowSecs, m, InOrder(m.accs, order));
        m'.poolSeen == poolSeen && m'.batch == batch' && m'.pools == pools'
    {
      hide FlushAcc;
      batch', pools', order := batch, pools, [];
      var rest := accumulators.Keys;
      while rest != {}
        invariant rest <= accumulators.Keys && m.accs == Accs()
        invariant forall k :: k in order <==> k in accumulators.Keys - rest
        invariant forall i, j :: 0 <= i < j < |order| ==> order[i] != order[j]
        invariant var m' := FlushAll(windowSecs, m, InOrder(m.accs, order));
          m'.poolSeen == poolSeen && m'.batch == batch' && m'.pools == pools'
        decreases rest
      {
        var k :| k in rest;
        rest := rest - {k};
        ghost var before := InOrder(m.accs, order);
        ghost var m' := FlushAll(windowSecs, m, before);
        assert k !in order;
        order := order + [k];
        assert InOrder(m.accs, order)[..|before|] == before;
        batch', pools' := FlushInto(accumulators[k], batch', pools', m');
      }
    }

    /** The end of a run: the last rows and pools, then the greatest accepted timestamp as checkpoint. */
    method FinishRun(batch: seq<Metrics>, pools: seq<Pool>, maxTs: nat) returns (ok: bool)
      requires accumulators == map[]
      modifies this`recomputeFrom, store
      ensures var t := PoolWrites(pools) + RowWrites(batch) + [Save(maxTs)];
        && store.Value() == Apply(old(store.Value()), Survives(t, old(store.writesLeft)))
        && ok == (|t| <= old(store.writesLeft))
      ensures ok ==> recomputeFrom == maxTs
    {
      hide Apply;
      ghost var d, budget := store.Value(), store.writesLeft;
      SurvivesConcat(d, PoolWrites(pools) + RowWrites(batch), [Save(maxTs)], budget);
      ok := true;
      if |batch| > 0 || |pools| > 0 {
        ok := FlushBatches(batch, pools);
      } else {
        NothingSent(d, budget);
      }
      if ok {
        recomputeFrom := maxTs;
        ghost var scan;
        ok, scan := SaveState();
      }
    }

    /** The loop over the input lines; on failure the statements that got through are the first of the whole trace. */
    method ReadLines(lines: seq<Line>, start: nat)
      returns (batch: seq<Metrics>, pools: seq<Pool>, maxTs: nat, ok: bool,
               ghost scans: seq<seq<string>>, ghost order: seq<string>)
      requires windowSecs > 0 && Distinct()
      modifies this`poolSeen, this`accumulators, accumulators.Values, store
      ensures Distinct()
      ensures var cfg := Config(windowSecs, batchSize, recomputeFrom, scans);
        var es, m0 := Accepted(lines, start), old(Mem(Accs(), poolSeen, [], [], start));
        && (ok ==>
              && Loop(cfg, m0, es).0 == Mem(Accs(), poolSeen, batch, pools, maxTs)
              && |Loop(cfg, m0, es).1| <= old(store.writesLeft)
              && store.writesLeft == old(store.writesLeft) - |Loop(cfg, m0, es).1|
              && store.Value() == Apply(old(store.Value()), Loop(cfg, m0, es).1))
        && (!ok ==>
              && ValidOrder(order, Loop(cfg, m0, es).0.accs)
              && |TraceFrom(cfg, m0, es, order)| > old(store.writesLeft)
              && store.Value() ==
                   Apply(old(store.Value()), Survives(TraceFrom(cfg, m0, es, order), old(store.writesLeft))))
    {
      hide Apply;
      hide Step;
      hide FlushAll;
      hide TraceFrom;
      hide Loop;
      hide Survives;
      ok, scans, order := true, [], [];
      ghost var d, budget := store.Value(), store.writesLeft;
      batch, pools, maxTs := [], [], start;
      ghost var cfg, m0 := Config(windowSecs, batchSize, recomputeFrom, []), Mem(Accs(), poolSeen, batch, pools, maxTs);
      ghost var m, t := m0, [];
      LoopStart(cfg, m0, d);
      for i := 0 to |lines|
        invariant Distinct()
        invariant forall k :: k in accumulators ==>
          accumulators[k] in old(accumulators.Values) || fresh(accumulators[k])
        invariant m == Mem(Accs(), poolSeen, batch, pools, maxTs)
        invariant cfg == Config(windowSecs, batchSize, recomputeFrom, scans) && |scans| == |Accepted(lines[..i], start)|
        invariant (m, t) == Loop(cfg, m0, Accepted(lines[..i], start))
        invariant |t| <= budget && store.writesLeft == budget - |t|
        invariant store.Value() == Apply(d, t)
        invariant ok
      {
        NextRecord(lines, i, start);
        if lines[i].Event? && lines[i].record.timestamp > start {
          var r := lines[i].record;
          ghost var scan;
          batch, pools, maxTs, ok, scan := ProcessRecord(r, batch, pools, maxTs, cfg, m);
          LoopSnoc(cfg, scan, m0, Accepted(lines[..i], start), r);
          scans := scans + [scan];
          cfg := cfg.(scans := scans);
          ghost var (m', t') := Step(cfg, |scans| - 1, m, r);
          AfterStep(d, t, t', budget);
          if !ok {
            order := LostRun(cfg, m0, lines, i + 1, start, budget);
            return;
          }
          m, t := m', t + t';
        }
      }
      assert lines[..|lines|] == lines;
    }

    /** `Run` once the settings and the start are known. */
    method RunFrom(lines: seq<Line>, start: nat)
      returns (ok: bool, ghost scans: seq<seq<string>>, ghost order: seq<string>)
      requires windowSecs > 0 && Distinct()
      modifies this`poolSeen, this`accumulators, this`recomputeFrom, accumulators.Values, store
      ensures Distinct()
      ensures var cfg := Config(windowSecs, batchSize, old(recomputeFrom), scans);
        var es, m0 := Accepted(lines, start), old(Mem(Accs(), poolSeen, [], [], start));
        && ValidOrder(order, Loop(cfg, m0, es).0.accs)
        && store.Value() == Apply(old(store.Value()), Survives(TraceFrom(cfg, m0, es, order), old(store.writesLeft)))
        && ok == (|TraceFrom(cfg, m0, es, order)| <= old(store.writesLeft))
        && (ok ==> accumulators == map[] && recomputeFrom == Loop(cfg, m0, es).0.maxTs)
    {
      hide Apply;
      hide FlushAll;
      hide TraceFrom;
      hide Loop;
      hide Survives;
      ghost var d, budget := store.Value(), store.writesLeft;
      ghost var es, m0 := Accepted(lines, start), Mem(Accs(), poolSeen, [], [], start);
      var batch, pools, maxTs;
      batch, pools, maxTs, ok, scans, order := ReadLines(lines, start);
      ghost var cfg := Config(windowSecs, batchSize, recomputeFrom, scans);
      if !ok {
        return;
      }
      ghost var (m, t) := Loop(cfg, m0, es);
      batch, pools, order := FlushOpen(batch, pools, m);
      WholeTrace(cfg, m0, es, order);
      accumulators := map[];
      ok := FinishRun(batch, pools, maxTs);
      AfterStep(d, t, PoolWrites(pools) + RowWrites(batch) + [Save(maxTs)], budget);
    }

    /**
     * A run against a store that accepts `writesLeft` more statements: the store receives exactly the first
     * `writesLeft` statements of the run's trace, and the run succeeds exactly when that is all of them.  The
     * run starts from whatever windows and pools the object holds; `NewAggregator` makes it hold none.
     */
    method Run(lines: seq<Line>) returns (ok: bool, ghost scans: seq<seq<string>>, ghost order: seq<string>)
      requires Distinct()
      modifies this, accumulators.Values, store
      ensures Distinct()
      ensures windowSecs == 0 ==> !ok && store.Value() == old(store.Value())
      ensures windowSecs > 0 ==>
        var start := old(if recomputeFrom > 0 then recomputeFrom - 1 else store.Value().state.GetOr(0));
        var cfg := Config(windowSecs, old(if batchSize <= 0 then 1000 else batchSize), old(recomputeFrom), scans);
        var es, m0 := Accepted(lines, start), Mem(old(Accs()), old(poolSeen), [], [], start);
        && ValidOrder(order, Loop(cfg, m0, es).0.accs)
        && store.Value() == Apply(old(store.Value()), Survives(TraceFrom(cfg, m0, es, order), old(store.writesLeft)))
        && ok == (|TraceFrom(cfg, m0, es, order)| <= old(store.writesLeft))
        && (ok ==> accumulators == map[] && recomputeFrom == Loop(cfg, m0, es).0.maxTs)
    {
      hide Apply;
      hide FlushAll;
      hide TraceFrom;
      hide Loop;
      hide Survives;
      ok, scans, order := false, [], [];
      if windowSecs == 0 {
        return;
      }
      if batchSize <= 0 {
        batchSize := 1000;
      }
      var start := LoadStartTimestamp();
      assert Mem(Accs(), poolSeen, [], [], start) == old(Mem(Accs(), poolSeen, [], [], start));
      ok, scans, order := RunFrom(lines, start);
    }
  }
}
