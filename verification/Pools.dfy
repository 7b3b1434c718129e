/** The pools table: what `registerPool` and the LEAST upsert make of the first-seen block together. */
module Pools {
  import opened Base
  import opened Events
  import opened Windows
  import opened Accumulators
  import opened Stores
  import opened Stream
  import opened GroupBy
  import opened Refinement
  import opened Checkpoints

  function IdOf(key: RowKey): PoolId {
    PoolId(key.chainId, key.address)
  }

  /** The first block of a group of events. */
  function FirstBlockOf(w: nat, es: seq<Record>, key: RowKey): uint64
    requires w > 0 && Group(w, es, key) != []
  {
    Fold(w, Group(w, es, key)).firstBlock
  }

  ghost predicate Reports(ps: seq<Pool>, address: string, block: uint64) {
    exists p :: p in ps && PoolKey(p.address) == PoolKey(address) && p.firstSeenBlock <= block
  }

  /** `p` is the pool record of the group `key` of `es`. */
  ghost predicate IsPoolOfGroup(w: nat, es: seq<Record>, p: Pool, key: RowKey)
    requires w > 0
  {
    && key in GroupTable(w, es) && IdOf(key) == p.Id()
    && p == PoolOf(Fold(w, Group(w, es, key)))
  }

  ghost predicate FromGroup(w: nat, es: seq<Record>, p: Pool)
    requires w > 0
  {
    exists key :: IsPoolOfGroup(w, es, p, key)
  }

  /** Some record in `ps` gives the pool of `key` a first-seen block no later than the group's. */
  ghost predicate Seen(w: nat, es: seq<Record>, ps: seq<Pool>, key: RowKey)
    requires w > 0 && Group(w, es, key) != []
  {
    exists p :: p in ps && p.Id() == IdOf(key) && p.firstSeenBlock <= FirstBlockOf(w, es, key)
  }

  /** The pools kept in `poolSeen` have all been reported. */
  ghost predicate SeenReported(m: Mem) {
    forall k :: k in m.poolSeen ==> PoolKey(m.poolSeen[k].address) == k && m.poolSeen[k] in m.pools
  }

  ghost predicate FromAcc(list: seq<Acc>, p: Pool) {
    exists a :: a in list && a.meta.Present() && PoolOf(a) == p
  }

  lemma {:induction false} PoolsForOrigin(w: nat, list: seq<Acc>)
    ensures forall p :: p in PoolsFor(w, list) ==> FromAcc(list, p)
  {
    if list != [] {
      var init, last := list[..|list| - 1], list[|list| - 1];
      assert list == init + [last];
      PoolsForOrigin(w, init);
      forall p | p in PoolsFor(w, list)
        ensures FromAcc(list, p)
      {
        if p in PoolsFor(w, init) {
          assert FromAcc(init, p);
        } else {
          assert p == PoolOf(last);
        }
      }
    }
  }

  lemma {:induction false} PoolsForSeen(w: nat, list: seq<Acc>)
    ensures SeenReported(FlushAll(w, Fresh(0), list))
  {
    hide PoolKey;
    if list != [] {
      PoolsForSeen(w, list[..|list| - 1]);
    }
  }

  lemma {:induction false} PoolsForReports(w: nat, list: seq<Acc>, a: Acc)
    requires a in list && a.meta.Present()
    ensures Reports(PoolsFor(w, list), a.address, a.firstBlock)
  {
    hide PoolKey;
    var init, last := list[..|list| - 1], list[|list| - 1];
    assert list == init + [last];
    var m, m' := FlushAll(w, Fresh(0), init), FlushAll(w, Fresh(0), list);
    if a in init {
      PoolsForReports(w, init, a);
      assert forall p :: p in m.pools ==> p in m'.pools;
    } else {
      PoolsForSeen(w, init);
      var p := if Improves(m.poolSeen, PoolOf(a)) then PoolOf(a) else m.poolSeen[PoolKey(a.address)];
      assert p in m'.pools;
    }
  }

  /** Pools reported for folds of groups carry the pool, the block and the metadata of one of the groups. */
  lemma ReportedPoolsAreGroups(w: nat, es: seq<Record>, list: seq<Acc>, p: Pool)
    requires w > 0 && (forall a :: a in list ==> IsFoldOf(w, es, a)) && p in PoolsFor(w, list)
    ensures FromGroup(w, es, p)
  {
    hide Fold;
    hide Group;
    hide FlushAll;
    PoolsForOrigin(w, list);
    var a :| a in list && a.meta.Present() && PoolOf(a) == p;
    FoldIdentity(w, es, a);
    assert IsPoolOfGroup(w, es, p, AccKey(w, a));
  }

  /** Two groups of pools with one accumulator key are groups of one pool. */
  lemma SameKeySamePool(w: nat, es: seq<Record>, a: Acc, b: Acc)
    requires w > 0 && OneSpelling(es) && IsFoldOf(w, es, a) && IsFoldOf(w, es, b)
    requires PoolKey(a.address) == PoolKey(b.address)
    ensures a.address == b.address && a.chainId == b.chainId
  {
    hide Fold;
    hide PoolKey;
    FoldIdentity(w, es, a);
    FoldIdentity(w, es, b);
    var r :| r in es && KeyOf(w, r) == AccKey(w, a);
    var s :| s in es && KeyOf(w, s) == AccKey(w, b);
  }

  /** Every flushed group with a row has its pool reported with a block that is no later. */
  lemma GroupsAreReported(w: nat, es: seq<Record>, list: seq<Acc>, key: RowKey)
    requires w > 0 && OneSpelling(es) && (forall b :: b in list ==> IsFoldOf(w, es, b))
    requires HasRow(w, es, key) && exists a :: a in list && AccKey(w, a) == key
    ensures Seen(w, es, PoolsFor(w, list), key)
  {
    hide FlushAll;
    hide PoolKey;
    hide PoolsFor;
    hide Fold;
    hide Group;
    hide OneSpelling;
    var a :| a in list && AccKey(w, a) == key;
    FoldIdentity(w, es, a);
    PoolsForOrigin(w, list);
    PoolsForReports(w, list, a);
    var p :| p in PoolsFor(w, list) && PoolKey(p.address) == PoolKey(a.address) && p.firstSeenBlock <= a.firstBlock;
    var b :| b in list && b.meta.Present() && PoolOf(b) == p;
    assert b.address == p.address;
    SameKeySamePool(w, es, a, b);
    assert p.Id() == IdOf(key);
  }

  /** What a run reports about pools, in terms of the groups it reads. */
  lemma RunReportsPools(cfg: Config, start: nat, es: seq<Record>, order: seq<string>)
    requires cfg.windowSecs > 0 && OneSpelling(es) && Contiguous(cfg.windowSecs, es)
    requires ValidOrder(order, AccsAfter(cfg.windowSecs, es))
    ensures var ps, w := PoolsOf(Trace(cfg, start, es, order)), cfg.windowSecs;
      && (forall p :: p in ps ==> FromGroup(w, es, p))
      && (forall key :: key in GroupTable(w, es) ==> Seen(w, es, ps, key))
  {
    hide Fold;
    hide TraceFrom;
    hide PoolKey;
    hide Flushed;
    hide PoolsFor;
    hide Contiguous;
    var w := cfg.windowSecs;
    TraceEmits(cfg, start, es, order);
    FlushedIsGroupBy(w, es, order);
    var f := Flushed(w, es, order);
    forall p | p in PoolsFor(w, f)
      ensures FromGroup(w, es, p)
    {
      ReportedPoolsAreGroups(w, es, f, p);
    }
    forall key | key in GroupTable(w, es)
      ensures Seen(w, es, PoolsFor(w, f), key)
    {
      var r :| r in es && KeyOf(w, r) == key;
      GroupsAreReported(w, es, f, key);
    }
  }

  /** Checkpoint safety for pools: at a save, every group the checkpoint covers has its pool reported. */
  lemma SaveCoversPools(cfg: Config, start: nat, es: seq<Record>, i: nat, key: RowKey)
    requires cfg.windowSecs > 0 && SavesOldest(cfg, start)
    requires OneSpelling(es) && WindowSorted(cfg.windowSecs, es)
    requires forall r :: r in es ==> WindowStart(r.timestamp, cfg.windowSecs) > start
    requires i < |Loop(cfg, Fresh(start), es).1| && Loop(cfg, Fresh(start), es).1[i].Save?
    requires key in GroupTable(cfg.windowSecs, es) && key.windowStart <= Loop(cfg, Fresh(start), es).1[i].ts
    ensures Seen(cfg.windowSecs, es, PoolsOf(Loop(cfg, Fresh(start), es).1[..i]), key)
  {
    hide PoolKey;
    hide AccsAfter;
    hide ClosedAfter;
    hide Loop;
    hide Fold;
    hide Group;
    hide MaxTsAfter;
    hide SafeTs;
    hide WindowSorted;
    hide PoolsFor;
    SavesAreSynced(cfg, start, es, i);
    var w, t := cfg.windowSecs, Loop(cfg, Fresh(start), es).1;
    var n: nat :| SyncedAt(cfg, start, es, t, i, n);
    SafeTsBounds(cfg, start, es, n);
    var a := OldGroupsAreClosed(w, es, n, key);
    PrefixKeepsOrder(w, es, n);
    LoopRepresents(w, es[..n]);
    GroupsAreReported(w, es[..n], ClosedAfter(w, es[..n]), key);
  }

  /** Two pool records that differ at most in the first-seen block. */
  predicate SameColumns(p: Pool, q: Pool) {
    p.(firstSeenBlock := q.firstSeenBlock) == q
  }

  /** The stored first-seen block is the least one ever sent or stored; a sent record replaces the other columns. */
  lemma {:induction false} UpsertPoolsLookup(pools: map<PoolId, Pool>, ps: seq<Pool>, id: PoolId)
    ensures var out := UpsertAllPools(pools, ps);
      && (id in out <==> id in pools || exists p :: p in ps && p.Id() == id)
      && (id in out ==>
            || ((forall p :: p in ps ==> p.Id() != id) && id in pools && out[id] == pools[id])
            || exists p :: p in ps && p.Id() == id && SameColumns(p, out[id]))
      && (forall p :: p in ps && p.Id() == id ==> out[id].firstSeenBlock <= p.firstSeenBlock)
      && (id in pools ==> out[id].firstSeenBlock <= pools[id].firstSeenBlock)
      && (id in out ==>
            || (id in pools && out[id].firstSeenBlock == pools[id].firstSeenBlock)
            || exists p :: p in ps && p.Id() == id && out[id].firstSeenBlock == p.firstSeenBlock)
  {
    if ps != [] {
      var init, last := ps[..|ps| - 1], ps[|ps| - 1];
      assert ps == init + [last];
      UpsertPoolsLookup(pools, init, id);
      assert last in ps;
    }
  }
}
