/** What a metrics row says about the input lines, column by column. */
module Rows {
  import opened Base
  import opened Numerals
  import opened Events
  import opened Windows
  import opened Accumulators
  import opened Stores
  import opened Stream
  import opened GroupBy
  import opened Crash

  /** An event belongs to a row by chain, address as spelled, and the window around its timestamp. */
  lemma GroupMeans(w: nat, es: seq<Record>, key: RowKey, r: Record)
    requires w > 0
    ensures r in Group(w, es, key) <==>
      && r in es && r.chainId == key.chainId && r.address == key.address && key.windowSecs == w
      && key.windowStart == r.timestamp - r.timestamp % w
  {
    WindowStartIsMod(r.timestamp, w);
  }

  /** The events of a row keep their order and their repeats. */
  lemma GroupKeepsOrder(w: nat, es: seq<Record>, r: Record, key: RowKey)
    requires w > 0
    ensures Group(w, [], key) == []
    ensures Group(w, es + [r], key) == Group(w, es, key) + (if r in Group(w, [r], key) then [r] else [])
  {
    GroupSnoc(w, es, r, key);
    assert [r][..0] == [];
  }

  /** The amounts of the swaps of a group whose amounts can be read. */
  function SwapsIn(g: seq<Record>): seq<(int, int)> {
    if g == [] then []
    else
      var rest, r := SwapsIn(g[..|g| - 1]), g[|g| - 1];
      if ToLower(r.eventName) != "swap" || r.swap.None? then rest
      else
        match (ParseBigInt(r.swap.value.amount0), ParseBigInt(r.swap.value.amount1))
        case (Some(x), Some(y)) => rest + [(x, y)]
        case _ => rest
  }

  function Volume0(s: seq<(int, int)>): nat {
    if s == [] then 0 else Volume0(s[..|s| - 1]) + Abs(s[|s| - 1].0)
  }

  function Volume1(s: seq<(int, int)>): nat {
    if s == [] then 0 else Volume1(s[..|s| - 1]) + Abs(s[|s| - 1].1)
  }

  /** The fees on token0: each swap that takes token0 in pays its tier in millionths, rounded down. */
  function Fee0(s: seq<(int, int)>, tier: nat): nat {
    if s == [] then 0
    else
      var (x, y) := s[|s| - 1];
      Fee0(s[..|s| - 1], tier) + if y < 0 < x then Paid(x, tier) else 0
  }

  function Fee1(s: seq<(int, int)>, tier: nat): nat {
    if s == [] then 0
    else
      var (x, y) := s[|s| - 1];
      Fee1(s[..|s| - 1], tier) + if x < 0 < y then Paid(y, tier) else 0
  }

  function Paid(amount: nat, tier: nat): nat {
    amount * tier / 1_000_000
  }

  lemma SwapsSnoc(s: seq<(int, int)>, x: int, y: int, tier: uint32)
    ensures Volume0(s + [(x, y)]) == Volume0(s) + Abs(x) && Volume1(s + [(x, y)]) == Volume1(s) + Abs(y)
    ensures Fee0(s + [(x, y)], tier) == Fee0(s, tier) + if y < 0 < x then FeeFromAmount(x, tier) else 0
    ensures Fee1(s + [(x, y)], tier) == Fee1(s, tier) + if x < 0 < y then FeeFromAmount(y, tier) else 0
  {
    FeeIsQuotient(x, tier);
    FeeIsQuotient(y, tier);
    hide FeeFromAmount;
    assert (s + [(x, y)])[..|s|] == s;
  }

  lemma SwapsLast(g: seq<Record>)
    requires g != []
    ensures var init := SwapsIn(g[..|g| - 1]);
      match TradeOf(g[|g| - 1])
      case Traded(x, y) => SwapsIn(g) == init + [(x, y)]
      case _ => SwapsIn(g) == init
  {
    hide ToLower;
    hide ParseBigInt;
  }

  /** The sums `t` are those of the swaps `s`. */
  predicate AreSumsOf(t: Totals, s: seq<(int, int)>, tier: nat) {
    && t.swaps == |s| && t.volume0 == Volume0(s) && t.volume1 == Volume1(s)
    && t.fee0 == Fee0(s, tier) && t.fee1 == Fee1(s, tier)
  }

  lemma OneMoreSwap(t: Totals, s: seq<(int, int)>, x: int, y: int, tier: uint32)
    requires AreSumsOf(t, s, tier)
    ensures AreSumsOf(t.Plus(SwapTotals(x, y, tier)), s + [(x, y)], tier)
  {
    SwapsSnoc(s, x, y, tier);
    hide FeeFromAmount;
    hide Volume0;
    hide Volume1;
    hide Fee0;
    hide Fee1;
  }

  /** The sums of a group, from its lines alone. */
  lemma {:induction false} SumMeans(g: seq<Record>, tier: uint32)
    ensures AreSumsOf(Sum(g, tier), SwapsIn(g), tier)
  {
    if g != [] {
      hide TradeOf;
      hide SwapsIn;
      hide SwapTotals;
      hide AreSumsOf;
      hide Totals.Plus;
      var init, r := g[..|g| - 1], g[|g| - 1];
      SumMeans(init, tier);
      SwapsLast(g);
      PlusZero(Sum(init, tier));
      match TradeOf(r)
      case Traded(x, y) => OneMoreSwap(Sum(init, tier), SwapsIn(init), x, y, tier);
      case _ =>
    }
  }

  /** The block of the latest event; of two at the same time, that of the later line. */
  ghost predicate IsLastBlock(g: seq<Record>, block: uint64) {
    exists i :: 0 <= i < |g| && g[i].block == block && IsLatest(g, i)
  }

  ghost predicate IsLatest(g: seq<Record>, i: nat)
    requires i < |g|
  {
    && (forall j :: 0 <= j < |g| ==> g[j].timestamp <= g[i].timestamp)
    && forall j :: i < j < |g| ==> g[j].timestamp < g[i].timestamp
  }

  /**
   * The row of a group: it ends its window one window size after the start, in a 64-bit register, carries the
   * block of the latest event, names the tokens of the first event in their order, and its sums are those of the
   * swaps of the group at the first event's fee tier.
   */
  ghost predicate ShowsGroup(row: Row, key: RowKey, w: nat, g: seq<Record>)
    requires g != []
  {
    var s, tier := SwapsIn(g), g[0].meta.fee;
    && row.token0 == g[0].meta.token0 && row.token1 == g[0].meta.token1
    && row.windowEnd == (key.windowStart + w) % 18_446_744_073_709_551_616
    && IsLastBlock(g, row.lastBlock)
    && row.totals.swaps == |s| && row.totals.volume0 == Volume0(s) && row.totals.volume1 == Volume1(s)
    && row.totals.fee0 == Fee0(s, tier) && row.totals.fee1 == Fee1(s, tier)
  }

  lemma RowShowsGroup(w: nat, g: seq<Record>, key: RowKey)
    requires w > 0 && g != [] && KeyOf(w, g[0]) == key
    ensures ShowsGroup(RowOf(w, g), key, w, g)
  {
    hide Fold;
    hide Sum;
    hide SwapsIn;
    hide IsLastBlock;
    hide Volume0;
    hide Volume1;
    hide Fee0;
    hide Fee1;
    hide WindowStart;
    FoldIsSum(w, g);
    SumMeans(g, g[0].meta.fee);
    RowLastBlock(w, g);
  }

  lemma RowLastBlock(w: nat, g: seq<Record>)
    requires w > 0 && g != []
    ensures IsLastBlock(g, Fold(w, g).lastBlock)
  {
    hide Fold;
    var i := FoldLastBlock(w, g);
  }

  /** A group has a row exactly if its first event names both tokens, and the row shows the group. */
  lemma RowMeans(w: nat, es: seq<Record>, key: RowKey)
    requires w > 0
    ensures var g, table := Group(w, es, key), GroupTable(w, es);
      && (key in table <==> g != [] && g[0].meta.token0 != "" && g[0].meta.token1 != "")
      && (key in table ==> ShowsGroup(table[key], key, w, g))
  {
    hide Fold;
    hide ShowsGroup;
    var g := Group(w, es, key);
    GroupKeys(w, es, key);
    if g != [] {
      assert g[0] in g;
      RowShowsGroup(w, g, key);
    }
  }

  /**
   * From any safe state one completed run leaves such a row for every group of the whole input whose first event
   * names both tokens, and every other row as it was at the start.
   */
  lemma CompletedRows(job: Job, d0: Durable, d: Durable, a: Attempt, d': Durable, key: RowKey)
    requires job.windowSecs > 0 && Sound(job, d0) && Safe(job, d0, d) && Completes(job, d, a, d')
    ensures var g := Group(job.windowSecs, InputOf(job, d0), key);
      if g != [] && g[0].meta.token0 != "" && g[0].meta.token1 != "" then
        key in d'.rows && ShowsGroup(d'.rows[key], key, job.windowSecs, g)
      else
        (key in d'.rows <==> key in d0.rows) && (key in d'.rows ==> d'.rows[key] == d0.rows[key])
  {
    hide Sound;
    hide Safe;
    hide Completes;
    hide GroupTable;
    hide Group;
    hide ShowsGroup;
    hide MaxTsAfter;
    hide InputOf;
    CompletionFromSafe(job, d0, d, a, d');
    RowMeans(job.windowSecs, InputOf(job, d0), key);
  }
}
