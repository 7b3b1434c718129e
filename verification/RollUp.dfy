/**
 * Windows of different sizes agree: with constant, present metadata a row of window size k*w is the sum of the
 * k rows of size w inside it, so a pool's totals do not depend on the window size.
 */
module RollUp {
  import opened Base
  import opened Events
  import opened Arithmetic
  import opened Windows
  import opened Accumulators
  import opened Stores
  import opened Stream
  import opened GroupBy
  import opened Refinement
  import opened Pools
  import opened PoolHistory
  import opened Crash

  /** The start of the i-th window of size `w` from `start`. */
  function SubStart(start: nat, w: nat, i: nat): nat {
    if i == 0 then start else SubStart(start, w, i - 1) + w
  }

  function SubKey(w: nat, key: RowKey, i: nat): RowKey {
    RowKey(key.chainId, key.address, w, SubStart(key.windowStart, w, i))
  }

  lemma {:induction false} SubStartValue(start: nat, w: nat, i: nat)
    ensures SubStart(start, w, i) == start + Times(w, i)
  {
    if i > 0 {
      SubStartValue(start, w, i - 1);
    }
  }

  lemma {:induction false} SubStartAligned(start: nat, w: nat, i: nat)
    requires w > 0 && IsBoundary(start, w)
    ensures IsBoundary(SubStart(start, w, i), w)
  {
    if i > 0 {
      SubStartAligned(start, w, i - 1);
    }
  }

  lemma {:induction false} SubStartGrows(start: nat, w: nat, i: nat, j: nat)
    requires i < j
    ensures SubStart(start, w, i) + w <= SubStart(start, w, j)
  {
    if i < j - 1 {
      SubStartGrows(start, w, i, j - 1);
    }
  }

  /** A timestamp inside the first n small windows lies in one of them. */
  lemma {:induction false} FindSub(start: nat, w: nat, n: nat, ts: nat) returns (i: nat)
    requires w > 0 && IsBoundary(start, w) && start <= ts < SubStart(start, w, n)
    ensures i < n && WindowStart(ts, w) == SubStart(start, w, i)
  {
    if ts < SubStart(start, w, n - 1) {
      i := FindSub(start, w, n - 1, ts);
    } else {
      i := n - 1;
      SubStartAligned(start, w, i);
      WindowStartUnique(ts, w, SubStart(start, w, i));
    }
  }

  lemma BigAligned(start: nat, w: nat, k: nat)
    requires w > 0 && k > 0 && Times(w, k) > 0 && IsBoundary(start, Times(w, k))
    ensures IsBoundary(start, w)
  {
    hide IsBoundary;
    hide Times;
    TimesIsProduct(w, k);
    var big := Times(w, k);
    BoundaryIsMultiple(start, big);
    var q := start / big;
    Associate(w, k, q);
    assert start == big * q == w * (k * q);
    QuotientUnique(start, w, k * q, 0);
    BoundaryIsMultiple(start, w);
  }

  ghost predicate InSub(w: nat, key: RowKey, n: nat, r: Record)
    requires w > 0
  {
    exists i :: 0 <= i < n && KeyOf(w, r) == SubKey(w, key, i)
  }

  /** An event belongs to the big window exactly when it belongs to one of the small ones. */
  lemma BigIsUnion(w: nat, k: nat, key: RowKey, r: Record)
    requires w > 0 && k > 0 && Times(w, k) > 0
    requires key.windowSecs == Times(w, k) && IsBoundary(key.windowStart, Times(w, k))
    ensures KeyOf(Times(w, k), r) == key <==> InSub(w, key, k, r)
  {
    hide SubStart;
    hide WindowStart;
    BigAligned(key.windowStart, w, k);
    if KeyOf(Times(w, k), r) == key {
      BigHoldsSub(w, k, key.windowStart, r.timestamp);
      var i: nat :| i < k && WindowStart(r.timestamp, w) == SubStart(key.windowStart, w, i);
      assert KeyOf(w, r) == SubKey(w, key, i);
    }
    if i :| 0 <= i < k && KeyOf(w, r) == SubKey(w, key, i) {
      SubInBig(w, k, key.windowStart, i, r.timestamp);
    }
  }

  lemma BigHoldsSub(w: nat, k: nat, start: nat, ts: nat)
    requires w > 0 && Times(w, k) > 0 && IsBoundary(start, w) && WindowStart(ts, Times(w, k)) == start
    ensures exists i: nat :: i < k && WindowStart(ts, w) == SubStart(start, w, i)
  {
    SubStartValue(start, w, k);
    var i := FindSub(start, w, k, ts);
  }

  lemma SubInBig(w: nat, k: nat, start: nat, i: nat, ts: nat)
    requires w > 0 && Times(w, k) > 0 && IsBoundary(start, Times(w, k))
    requires i < k && WindowStart(ts, w) == SubStart(start, w, i)
    ensures WindowStart(ts, Times(w, k)) == start
  {
    SubStartGrows(start, w, i, k);
    SubStartValue(start, w, k);
    SubStartValue(start, w, i);
    WindowStartUnique(ts, Times(w, k), start);
  }

  /** The sum of the first n small groups. */
  function SubSum(w: nat, es: seq<Record>, key: RowKey, n: nat, fee: uint32): Totals
    requires w > 0
  {
    if n == 0 then Zero()
    else SubSum(w, es, key, n - 1, fee).Plus(Sum(Group(w, es, SubKey(w, key, n - 1)), fee))
  }

  lemma GroupSumSnoc(w: nat, es: seq<Record>, e: Record, key: RowKey, fee: uint32)
    requires w > 0
    ensures Sum(Group(w, es + [e], key), fee) ==
      Sum(Group(w, es, key), fee).Plus(if KeyOf(w, e) == key then Contribution(e, fee) else Zero())
  {
    hide Totals.Plus;
    hide Contribution;
    hide Group;
    var g := Group(w, es, key);
    GroupSnoc(w, es, e, key);
    assert (g + [e])[..|g|] == g;
    assert g + [] == g;
    PlusZero(Sum(g, fee));
  }

  lemma InSubSplit(w: nat, key: RowKey, n: nat, e: Record)
    requires w > 0 && n > 0
    ensures InSub(w, key, n, e) <==> InSub(w, key, n - 1, e) || KeyOf(w, e) == SubKey(w, key, n - 1)
    ensures !(InSub(w, key, n - 1, e) && KeyOf(w, e) == SubKey(w, key, n - 1))
  {
    if InSub(w, key, n - 1, e) {
      var i :| 0 <= i < n - 1 && KeyOf(w, e) == SubKey(w, key, i);
      SubStartGrows(key.windowStart, w, i, n - 1);
    }
  }

  lemma {:induction false} SubSumSnoc(w: nat, es: seq<Record>, e: Record, key: RowKey, n: nat, fee: uint32)
    requires w > 0
    ensures SubSum(w, es + [e], key, n, fee) ==
      SubSum(w, es, key, n, fee).Plus(if InSub(w, key, n, e) then Contribution(e, fee) else Zero())
  {
    hide Totals.Plus;
    hide Contribution;
    hide Group;
    hide Sum;
    if n == 0 {
      PlusZero(Zero());
    } else {
      hide InSub;
      hide SubKey;
      hide KeyOf;
      SubSumSnoc(w, es, e, key, n - 1, fee);
      var sub := SubKey(w, key, n - 1);
      var a, b, c := SubSum(w, es, key, n - 1, fee), Sum(Group(w, es, sub), fee), Contribution(e, fee);
      GroupSumSnoc(w, es, e, sub, fee);
      InSubSplit(w, key, n, e);
      PlusZero(a);
      PlusZero(b);
      PlusZero(a.Plus(b));
      PlusAssociates(a, b, c);
      PlusRight(a, b, c);
    }
  }

  lemma {:induction false} SubSumEmpty(w: nat, key: RowKey, n: nat, fee: uint32)
    requires w > 0
    ensures SubSum(w, [], key, n, fee) == Zero()
  {
    if n > 0 {
      SubSumEmpty(w, key, n - 1, fee);
      PlusZero(Zero());
    }
  }

  /** Folding the big group is folding the small ones and adding up, for every fee tier. */
  lemma {:induction false} GroupsAddUp(w: nat, k: nat, es: seq<Record>, key: RowKey, fee: uint32)
    requires w > 0 && k > 0 && Times(w, k) > 0
    requires key.windowSecs == Times(w, k) && IsBoundary(key.windowStart, Times(w, k))
    ensures Sum(Group(Times(w, k), es, key), fee) == SubSum(w, es, key, k, fee)
  {
    hide Totals.Plus;
    hide Contribution;
    hide InSub;
    hide SubSum;
    if es == [] {
      SubSumEmpty(w, key, k, fee);
    } else {
      var init, e := es[..|es| - 1], es[|es| - 1];
      assert es == init + [e];
      GroupsAddUp(w, k, init, key, fee);
      SubSumSnoc(w, init, e, key, k, fee);
      BigIsUnion(w, k, key, e);
      GroupSumSnoc(Times(w, k), init, e, key, fee);
    }
  }

  /** What a metrics table holds for a key; an absent row counts as nothing. */
  function TotalsAt(rows: map<RowKey, Row>, key: RowKey): Totals {
    if key in rows then rows[key].totals else Zero()
  }

  function RowsSum(rows: map<RowKey, Row>, w: nat, key: RowKey, n: nat): Totals {
    if n == 0 then Zero() else RowsSum(rows, w, key, n - 1).Plus(TotalsAt(rows, SubKey(w, key, n - 1)))
  }

  /** `fee` is the fee tier of the pool in every event (any number if it has none). */
  ghost predicate IsFeeOf(es: seq<Record>, id: PoolId, fee: uint32) {
    forall r :: r in es && PoolId(r.chainId, r.address) == id ==> r.meta.fee == fee
  }

  lemma FeeExists(es: seq<Record>, id: PoolId) returns (fee: uint32)
    requires ConstantMeta(es)
    ensures IsFeeOf(es, id, fee)
  {
    hide PoolKey;
    fee := 0;
    if r :| r in es && PoolId(r.chainId, r.address) == id {
      fee := r.meta.fee;
    }
  }

  lemma GroupTotals(w: nat, es: seq<Record>, key: RowKey, fee: uint32)
    requires w > 0 && ConstantMeta(es) && IsFeeOf(es, IdOf(key), fee)
    ensures TotalsAt(GroupTable(w, es), key) == Sum(Group(w, es, key), fee)
  {
    hide Fold;
    hide PoolKey;
    var g := Group(w, es, key);
    GroupKeys(w, es, key);
    if g != [] {
      assert g[0] in g;
      FoldIsSum(w, g);
    }
  }

  lemma {:induction false} SubRows(w: nat, es: seq<Record>, key: RowKey, n: nat, fee: uint32)
    requires w > 0 && ConstantMeta(es) && IsFeeOf(es, IdOf(key), fee)
    ensures RowsSum(GroupTable(w, es), w, key, n) == SubSum(w, es, key, n, fee)
  {
    hide Totals.Plus;
    hide GroupTable;
    hide PoolKey;
    hide ConstantMeta;
    hide IsFeeOf;
    hide TotalsAt;
    hide Group;
    hide Sum;
    if n > 0 {
      SubRows(w, es, key, n - 1, fee);
      GroupTotals(w, es, SubKey(w, key, n - 1), fee);
    }
  }

  /** A key of the coarse table: a window of size k*w. */
  predicate IsBigKey(w: nat, k: nat, key: RowKey)
    requires Times(w, k) > 0
  {
    key.windowSecs == Times(w, k) && IsBoundary(key.windowStart, Times(w, k))
  }

  lemma TablesAddUp(w: nat, k: nat, es: seq<Record>, key: RowKey)
    requires w > 0 && k > 0 && Times(w, k) > 0 && ConstantMeta(es) && IsBigKey(w, k, key)
    ensures TotalsAt(GroupTable(Times(w, k), es), key) == RowsSum(GroupTable(w, es), w, key, k)
  {
    hide PoolKey;
    hide ConstantMeta;
    hide IsFeeOf;
    hide Group;
    hide Fold;
    hide SubSum;
    hide RowsSum;
    hide HasRow;
    hide TotalsAt;
    var fee := FeeExists(es, IdOf(key));
    GroupsAddUp(w, k, es, key, fee);
    SubRows(w, es, key, k, fee);
    GroupTotals(Times(w, k), es, key, fee);
  }

  /**
   * Two completed runs over the same events, one with windows of size w and one with windows of size k*w: for
   * every window of the coarse table the totals are the sum over the k fine windows inside it.
   */
  lemma RollUpConsistent(
    small: Config, big: Config, k: nat, start: nat, es: seq<Record>, order: seq<string>, order': seq<string>,
    d: Durable, d': Durable, key: RowKey)
    requires small.windowSecs > 0 && k > 0 && big.windowSecs == Times(small.windowSecs, k) && big.windowSecs > 0
    requires OneSpelling(es) && WindowSorted(small.windowSecs, es) && ConstantMeta(es)
    requires ValidOrder(order, AccsAfter(small.windowSecs, es)) && ValidOrder(order', AccsAfter(big.windowSecs, es))
    requires d.rows == map[] && d'.rows == map[] && IsBigKey(small.windowSecs, k, key)
    ensures TotalsAt(Apply(d', Trace(big, start, es, order')).rows, key)
         == RowsSum(Apply(d, Trace(small, start, es, order)).rows, small.windowSecs, key, k)
  {
    hide ConstantMeta;
    hide OneSpelling;
    hide Contiguous;
    hide RowsSum;
    hide TotalsAt;
    SortedInBig(small.windowSecs, k, es);
    RunFromEmpty(small, start, es, order, d);
    RunFromEmpty(big, start, es, order', d');
    TablesAddUp(small.windowSecs, k, es, key);
  }

  /** Events whose small windows are in order have their big windows in order. */
  lemma SortedInBig(w: nat, k: nat, es: seq<Record>)
    requires w > 0 && Times(w, k) > 0 && WindowSorted(w, es)
    ensures Contiguous(w, es) && Contiguous(Times(w, k), es)
  {
    hide Contiguous;
    hide PoolKey;
    forall i, j | 0 <= i < j < |es|
      ensures WindowStart(es[i].timestamp, Times(w, k)) <= WindowStart(es[j].timestamp, Times(w, k))
    {
      BigOfSmall(w, k, es[i].timestamp);
      BigOfSmall(w, k, es[j].timestamp);
      WindowStartMonotone(WindowStart(es[i].timestamp, w), WindowStart(es[j].timestamp, w), Times(w, k));
    }
    SortedIsContiguous(w, es);
    SortedIsContiguous(Times(w, k), es);
  }

  /** The big window of a timestamp is that of its small window. */
  lemma BigOfSmall(w: nat, k: nat, ts: nat)
    requires w > 0 && Times(w, k) > 0
    ensures WindowStart(WindowStart(ts, w), Times(w, k)) == WindowStart(ts, Times(w, k))
  {
    hide WindowStart;
    var big := WindowStart(ts, Times(w, k));
    WindowStartAligned(ts, Times(w, k));
    if k > 0 {
      BigAligned(big, w, k);
    }
    WindowAfterBoundary(ts, w, big);
    WindowStartUnique(WindowStart(ts, w), Times(w, k), big);
  }

  lemma RunFromEmpty(cfg: Config, start: nat, es: seq<Record>, order: seq<string>, d: Durable)
    requires cfg.windowSecs > 0 && OneSpelling(es) && Contiguous(cfg.windowSecs, es)
    requires ValidOrder(order, AccsAfter(cfg.windowSecs, es)) && d.rows == map[]
    ensures Apply(d, Trace(cfg, start, es, order)).rows == GroupTable(cfg.windowSecs, es)
  {
    hide Trace;
    hide AccsAfter;
    hide Apply;
    hide PoolKey;
    hide GroupTable;
    hide Contiguous;
    RunWritesGroupTable(cfg, start, es, order, d);
    assert map[] + GroupTable(cfg.windowSecs, es) == GroupTable(cfg.windowSecs, es);
  }

  /** The events of one pool. */
  function PoolEvents(es: seq<Record>, id: PoolId): seq<Record> {
    if es == [] then []
    else
      var rest, e := PoolEvents(es[..|es| - 1], id), es[|es| - 1];
      if PoolId(e.chainId, e.address) == id then rest + [e] else rest
  }

  /** A window large enough to hold every event holds all events of a pool. */
  lemma {:induction false} WholeWindow(w: nat, es: seq<Record>, id: PoolId)
    requires w > 0 && forall r :: r in es ==> r.timestamp < w
    ensures Group(w, es, RowKey(id.chainId, id.address, w, 0)) == PoolEvents(es, id)
  {
    if es != [] {
      var init, e := es[..|es| - 1], es[|es| - 1];
      assert es == init + [e];
      assert forall r :: r in init ==> r in es;
      WholeWindow(w, init, id);
      WindowStartUnique(e.timestamp, w, 0);
    }
  }

  /** The rows of a pool add up to what its events contribute, whatever the window size. */
  lemma PoolTotals(w: nat, k: nat, es: seq<Record>, id: PoolId, fee: uint32)
    requires w > 0 && k > 0 && Times(w, k) > 0 && ConstantMeta(es) && IsFeeOf(es, id, fee)
    requires forall r :: r in es ==> r.timestamp < Times(w, k)
    ensures RowsSum(GroupTable(w, es), w, RowKey(id.chainId, id.address, Times(w, k), 0), k)
         == Sum(PoolEvents(es, id), fee)
  {
    hide ConstantMeta;
    hide GroupTable;
    hide RowsSum;
    hide SubSum;
    hide Group;
    hide Sum;
    hide PoolEvents;
    var key := RowKey(id.chainId, id.address, Times(w, k), 0);
    WholeWindow(Times(w, k), es, id);
    GroupsAddUp(w, k, es, key, fee);
    SubRows(w, es, key, k, fee);
  }

  /**
   * Pool totals do not depend on the window size: two completed runs over the same events with any two window
   * sizes leave, for every pool, rows with the same sum, the sum of what the pool's events contribute.
   */
  lemma PoolTotalsAgree(
    cfg: Config, k: nat, cfg': Config, k': nat, start: nat, es: seq<Record>, order: seq<string>, order': seq<string>,
    d: Durable, d': Durable, id: PoolId)
    requires cfg.windowSecs > 0 && k > 0 && Times(cfg.windowSecs, k) > 0
    requires cfg'.windowSecs > 0 && k' > 0 && Times(cfg'.windowSecs, k') > 0
    requires OneSpelling(es) && Contiguous(cfg.windowSecs, es) && Contiguous(cfg'.windowSecs, es) && ConstantMeta(es)
    requires forall r :: r in es ==> r.timestamp < Times(cfg.windowSecs, k) && r.timestamp < Times(cfg'.windowSecs, k')
    requires ValidOrder(order, AccsAfter(cfg.windowSecs, es)) && ValidOrder(order', AccsAfter(cfg'.windowSecs, es))
    requires d.rows == map[] && d'.rows == map[]
    ensures RowsSum(Apply(d, Trace(cfg, start, es, order)).rows, cfg.windowSecs,
                    RowKey(id.chainId, id.address, Times(cfg.windowSecs, k), 0), k)
         == RowsSum(Apply(d', Trace(cfg', start, es, order')).rows, cfg'.windowSecs,
                    RowKey(id.chainId, id.address, Times(cfg'.windowSecs, k'), 0), k')
  {
    hide ConstantMeta;
    hide RowsSum;
    hide IsFeeOf;
    hide Apply;
    hide Trace;
    hide GroupTable;
    hide OneSpelling;
    hide Contiguous;
    var fee := FeeExists(es, id);
    RunFromEmpty(cfg, start, es, order, d);
    RunFromEmpty(cfg', start, es, order', d');
    PoolTotals(cfg.windowSecs, k, es, id, fee);
    PoolTotals(cfg'.windowSecs, k', es, id, fee);
  }
}
