/**
 * Windows cut by the start of a run: a run that reads only part of a window overwrites its row.  A completed run
 * saves the greatest timestamp it accepted without rejecting the event, not a window boundary, so a later run may
 * start there.
 */
module CutWindows {
  import opened Base
  import opened Events
  import opened Windows
  import opened Accumulators
  import opened Stores
  import opened Stream
  import opened GroupBy
  import opened Refinement
  import opened PoolHistory
  import opened Crash
  import opened ReRun

  lemma {:induction false} AfterGroup(w: nat, es: seq<Record>, s: nat, key: RowKey)
    requires w > 0
    ensures Group(w, After(es, s), key) == After(Group(w, es, key), s)
  {
    if es != [] {
      var init, e := es[..|es| - 1], es[|es| - 1];
      AfterGroup(w, init, s, key);
      if e.timestamp > s {
        GroupSnoc(w, After(init, s), e, key);
      }
      if KeyOf(w, e) == key {
        assert (Group(w, init, key) + [e])[..|Group(w, init, key)|] == Group(w, init, key);
      }
    }
  }

  lemma ContributionIsZero(r: Record, fee: uint32)
    ensures Contribution(r, fee).swaps == 0 <==> !TradeOf(r).Traded?
    ensures Contribution(r, fee).swaps == 0 ==> Contribution(r, fee) == Zero()
  {
    hide TradeOf;
    hide FeeFromAmount;
  }

  lemma PlusSwaps(a: Totals, b: Totals)
    ensures a.Plus(b).swaps == a.swaps + b.swaps
  {
  }

  lemma {:induction false} SumNothing(g: seq<Record>, fee: uint32)
    ensures Sum(g, fee).swaps == 0 <==> forall r :: r in g ==> !TradeOf(r).Traded?
    ensures Sum(g, fee).swaps == 0 ==> Sum(g, fee) == Zero()
  {
    hide TradeOf;
    hide Contribution;
    if g != [] {
      hide Totals.Plus;
      SumNothing(g[..|g| - 1], fee);
      PlusSwaps(Sum(g[..|g| - 1], fee), Contribution(g[|g| - 1], fee));
      PlusZero(Zero());
      ContributionIsZero(g[|g| - 1], fee);
      assert g == g[..|g| - 1] + [g[|g| - 1]];
    }
  }

  /** The events up to `s`, which a run that starts after `s` skips. */
  function UpTo(g: seq<Record>, s: nat): seq<Record> {
    if g == [] then []
    else
      var rest, e := UpTo(g[..|g| - 1], s), g[|g| - 1];
      if e.timestamp <= s then rest + [e] else rest
  }

  lemma {:induction false} UpToMembers(g: seq<Record>, s: nat, r: Record)
    ensures r in UpTo(g, s) <==> r in g && r.timestamp <= s
  {
    if g != [] {
      UpToMembers(g[..|g| - 1], s, r);
      assert g == g[..|g| - 1] + [g[|g| - 1]];
    }
  }

  lemma SumSnoc(g: seq<Record>, e: Record, fee: uint32)
    ensures Sum(g + [e], fee) == Sum(g, fee).Plus(Contribution(e, fee))
  {
    hide Contribution;
    hide Totals.Plus;
    assert (g + [e])[..|g|] == g;
  }

  /** Skipped and read events add up to the whole. */
  lemma {:induction false} SumSplit(g: seq<Record>, s: nat, fee: uint32)
    ensures Sum(g, fee) == Sum(UpTo(g, s), fee).Plus(Sum(After(g, s), fee))
  {
    hide Contribution;
    hide Totals.Plus;
    if g == [] {
      PlusZero(Zero());
    } else {
      var init, e := g[..|g| - 1], g[|g| - 1];
      SumSplit(init, s, fee);
      SumSnoc(UpTo(init, s), e, fee);
      SumSnoc(After(init, s), e, fee);
      PlusRight(Sum(UpTo(init, s), fee), Sum(After(init, s), fee), Contribution(e, fee));
    }
  }

  lemma LastOfOne(w: nat, e: Record)
    requires w > 0
    ensures Fold(w, [e]).lastTs == e.timestamp && Fold(w, [e]).lastBlock == e.block
  {
  }

  lemma LastSnoc(w: nat, g: seq<Record>, e: Record)
    requires w > 0 && g != []
    ensures var a, a' := Fold(w, g), Fold(w, g + [e]);
      && a'.lastTs == (if e.timestamp >= a.lastTs then e.timestamp else a.lastTs)
      && a'.lastBlock == if e.timestamp >= a.lastTs then e.block else a.lastBlock
  {
    hide Contribution;
    hide Totals.Plus;
    assert (g + [e])[..|g|] == g;
  }

  /** The last event of a window is also the last one read. */
  lemma {:induction false} TailLast(w: nat, g: seq<Record>, s: nat)
    requires w > 0 && g != []
    ensures After(g, s) == [] ==> Fold(w, g).lastTs <= s
    ensures After(g, s) != [] ==>
      && Fold(w, g).lastTs == Fold(w, After(g, s)).lastTs > s
      && Fold(w, g).lastBlock == Fold(w, After(g, s)).lastBlock
  {
    hide Fold;
    var init, e := g[..|g| - 1], g[|g| - 1];
    assert g == init + [e];
    LastOfOne(w, e);
    if |g| > 1 {
      TailLast(w, init, s);
      LastSnoc(w, init, e);
      if After(init, s) != [] {
        LastSnoc(w, After(init, s), e);
      } else {
        assert [] + [e] == [e];
      }
    } else {
      assert init == [] && After(init, s) == [];
    }
  }

  lemma {:induction false} SwapsIgnoreFee(g: seq<Record>, fee: uint32, fee': uint32)
    ensures Sum(g, fee).swaps == Sum(g, fee').swaps
  {
    hide TradeOf;
    hide FeeFromAmount;
    if g != [] {
      SwapsIgnoreFee(g[..|g| - 1], fee, fee');
    }
  }

  /**
   * The events up to `s` make no difference to the row of a group: none of them is a well-formed swap, and the
   * first event after `s` names the same tokens and gives the same fees.
   */
  ghost predicate SameRow(g: seq<Record>, s: nat) {
    && g != [] && After(g, s) != []
    && (forall r :: r in g && r.timestamp <= s ==> !TradeOf(r).Traded?)
    && g[0].meta.token0 == After(g, s)[0].meta.token0 && g[0].meta.token1 == After(g, s)[0].meta.token1
    && Sum(After(g, s), g[0].meta.fee) == Sum(After(g, s), After(g, s)[0].meta.fee)
  }

  /**
   * A window whose events up to `s` were skipped gets its full row exactly when they make no difference; with
   * the same fee tier the row falls short by exactly their sum.
   */
  lemma TailRow(w: nat, g: seq<Record>, s: nat)
    requires w > 0 && g != [] && After(g, s) != []
    requires forall r, t :: r in g && t in g ==> KeyOf(w, r) == KeyOf(w, t)
    ensures var whole, part := RowOf(w, g), RowOf(w, After(g, s));
      && (g[0].meta.fee == After(g, s)[0].meta.fee ==>
            whole.totals == Sum(UpTo(g, s), g[0].meta.fee).Plus(part.totals))
      && (part == whole <==> SameRow(g, s))
  {
    hide Contribution;
    hide TradeOf;
    hide Fold;
    hide Sum;
    hide After;
    hide UpTo;
    var head, tail, fee := UpTo(g, s), After(g, s), g[0].meta.fee;
    forall r
      ensures r in head <==> r in g && r.timestamp <= s
      ensures r in tail <==> r in g && r.timestamp > s
    {
      UpToMembers(g, s, r);
      AfterMembers(g, s, r);
    }
    assert tail[0] in tail && g[0] in g;
    FoldIsSum(w, g);
    FoldIsSum(w, tail);
    SumSplit(g, s, fee);
    SumNothing(head, fee);
    TailLast(w, g, s);
    SwapsIgnoreFee(tail, fee, tail[0].meta.fee);
    PlusSwaps(Sum(head, fee), Sum(tail, fee));
    PlusZero(Sum(tail, fee));
  }

  lemma SameKeys(w: nat, es: seq<Record>, key: RowKey)
    requires w > 0
    ensures var g := Group(w, es, key);
      forall r, t :: r in g && t in g ==> KeyOf(w, r) == KeyOf(w, t)
  {
  }

  lemma InTable(w: nat, es: seq<Record>, key: RowKey)
    requires w > 0
    ensures key in GroupTable(w, es) <==> HasRow(w, es, key)
    ensures HasRow(w, es, key) ==> GroupTable(w, es)[key] == RowOf(w, Group(w, es, key))
  {
    hide Fold;
    GroupKeys(w, es, key);
  }

  /** The row of a window in the group-by of the events after `s`, against its row in the group-by of all. */
  lemma CutRow(w: nat, es: seq<Record>, s: nat, key: RowKey)
    requires w > 0 && HasRow(w, After(es, s), key)
    ensures key in GroupTable(w, After(es, s))
    ensures key in GroupTable(w, es) && GroupTable(w, After(es, s))[key] == GroupTable(w, es)[key] <==>
      HasRow(w, es, key) && SameRow(Group(w, es, key), s)
  {
    hide RowOf;
    hide SameRow;
    hide GroupTable;
    AfterGroup(w, es, s, key);
    SameKeys(w, es, key);
    InTable(w, es, key);
    InTable(w, After(es, s), key);
    AfterOfNothing(s);
    TailRow(w, Group(w, es, key), s);
  }

  lemma AfterOfNothing(s: nat)
    ensures After([], s) == []
  {
  }

  /** With constant metadata only the skipped swaps matter. */
  lemma ConstantRow(w: nat, es: seq<Record>, s: nat, key: RowKey)
    requires w > 0 && ConstantMeta(es) && Group(w, After(es, s), key) != []
    ensures HasRow(w, es, key) && HasRow(w, After(es, s), key)
    ensures SameRow(Group(w, es, key), s) <==>
      forall r :: r in Group(w, es, key) && r.timestamp <= s ==> !TradeOf(r).Traded?
  {
    hide TradeOf;
    hide PoolKey;
    hide Sum;
    hide WindowStart;
    var g, tail := Group(w, es, key), Group(w, After(es, s), key);
    AfterGroup(w, es, s, key);
    AfterOfNothing(s);
    AfterMembers(g, s, tail[0]);
    assert tail[0] in tail && g[0] in g;
  }

  /** A swap of the window that is still to be read, and a swap of it that was counted. */
  ghost predicate SharesWindow(w: nat, es: seq<Record>, s: nat, r: Record, q: Record)
    requires w > 0
  {
    r in es && q in es && q.timestamp <= s < r.timestamp && KeyOf(w, q) == KeyOf(w, r)
  }

  /** The row the second run writes for a group is the one that is stored. */
  ghost predicate KeepsRow(w: nat, es: seq<Record>, s: nat, rows: map<RowKey, Row>, key: RowKey)
    requires w > 0 && HasRow(w, After(es, s), key)
  {
    if HasRow(w, es, key) then SameRow(Group(w, es, key), s)
    else key in rows && rows[key] == RowOf(w, Group(w, After(es, s), key))
  }

  /**
   * The exact condition for the second run to leave the metrics table as it is: every window it opens keeps its
   * row.  With constant metadata that means: no rejected swap that is later than every event that was not
   * rejected shares its window with a well-formed one.
   */
  lemma TableUnchanged(job: Job, d0: Durable, d: Durable, a: Attempt, d1: Durable, b: Attempt, d2: Durable)
    requires job.windowSecs > 0 && job.recomputeFrom == 0
    requires Sound(job, d0) && Safe(job, d0, d) && Completes(job, d, a, d1)
    requires Completes(job, d1, b, d2)
    ensures var w, es, s := job.windowSecs, InputOf(job, d0), StartOf(job, d1);
      && (d2.rows == d1.rows <==> forall key :: HasRow(w, After(es, s), key) ==> KeepsRow(w, es, s, d0.rows, key))
      && (ConstantMeta(es) ==>
            (d2.rows == d1.rows <==> forall r, q :: SharesWindow(w, es, s, r, q) ==> !TradeOf(q).Traded?))
  {
    hide Sound;
    hide Safe;
    hide TradeOf;
    hide PoolKey;
    hide Trace;
    hide MaxTsAfter;
    hide GroupTable;
    hide ConstantMeta;
    hide OneSpelling;
    hide Contiguous;
    hide HasRow;
    hide KeepsRow;
    hide SharesWindow;
    var w, es, s := job.windowSecs, InputOf(job, d0), StartOf(job, d1);
    OnlyRejectedRemain(job, d0, d, a, d1);
    CompletionFromSafe(job, d0, d, a, d1);
    RestIsSorted(job, d0, d1);
    RunWritesGroupTable(ConfigOf(job, b), s, After(es, s), b.order, d1);
    RestUnchanged(w, es, s, d0.rows);
    if ConstantMeta(es) {
      KeptWindows(w, es, s, d0.rows);
    }
  }

  lemma RestUnchanged(w: nat, es: seq<Record>, s: nat, rows: map<RowKey, Row>)
    requires w > 0
    ensures var full := rows + GroupTable(w, es);
      full + GroupTable(w, After(es, s)) == full <==>
        forall key :: HasRow(w, After(es, s), key) ==> KeepsRow(w, es, s, rows, key)
  {
    hide GroupTable;
    hide HasRow;
    hide RowOf;
    hide SameRow;
    hide After;
    var full, rest := rows + GroupTable(w, es), GroupTable(w, After(es, s));
    forall key: RowKey
      ensures key in rest <==> HasRow(w, After(es, s), key)
      ensures key in rest ==> (key in full && full[key] == rest[key] <==> KeepsRow(w, es, s, rows, key))
    {
      InTable(w, After(es, s), key);
      InTable(w, es, key);
      if HasRow(w, After(es, s), key) {
        CutRow(w, es, s, key);
      }
    }
    if full + rest == full {
      forall key | key in rest
        ensures key in full && full[key] == rest[key]
      {
        assert key in full + rest;
      }
    }
  }

  /** With constant metadata a window keeps its row exactly when no skipped swap of it was counted. */
  lemma KeptWindows(w: nat, es: seq<Record>, s: nat, rows: map<RowKey, Row>)
    requires w > 0 && ConstantMeta(es)
    ensures (forall key :: HasRow(w, After(es, s), key) ==> KeepsRow(w, es, s, rows, key)) <==>
      forall r, q :: SharesWindow(w, es, s, r, q) ==> !TradeOf(q).Traded?
  {
    hide TradeOf;
    hide PoolKey;
    hide ConstantMeta;
    hide SameRow;
    hide WindowStart;
    if forall r, q :: SharesWindow(w, es, s, r, q) ==> !TradeOf(q).Traded? {
      forall key | HasRow(w, After(es, s), key)
        ensures KeepsRow(w, es, s, rows, key)
      {
        var r := Group(w, After(es, s), key)[0];
        assert r in Group(w, After(es, s), key);
        AfterMembers(es, s, r);
        ConstantRow(w, es, s, key);
        forall q | q in Group(w, es, key) && q.timestamp <= s
          ensures !TradeOf(q).Traded?
        {
          assert SharesWindow(w, es, s, r, q);
        }
      }
    } else {
      var r, q :| SharesWindow(w, es, s, r, q) && TradeOf(q).Traded?;
      var key := KeyOf(w, r);
      AfterMembers(es, s, r);
      assert r in Group(w, After(es, s), key) && q in Group(w, es, key);
      ConstantRow(w, es, s, key);
      assert !KeepsRow(w, es, s, rows, key);
    }
  }

  /**
   * A run from an arbitrary start (an unaligned `--recompute-from`, or the checkpoint of a completed run on
   * input that was extended inside its last window): it writes a row for a group when the first event it reads
   * of it has metadata, and that row is the group-by row exactly when the events it skips make no difference;
   * with constant metadata, when no well-formed swap of the group lies at or before the start.
   */
  lemma CutWindowRow(cfg: Config, start: nat, es: seq<Record>, order: seq<string>, d: Durable, key: RowKey)
    requires cfg.windowSecs > 0 && OneSpelling(es) && WindowSorted(cfg.windowSecs, es)
    requires ValidOrder(order, AccsAfter(cfg.windowSecs, After(es, start)))
    ensures var out := Apply(d, Trace(cfg, start, After(es, start), order)).rows;
      var w, table, g := cfg.windowSecs, GroupTable(cfg.windowSecs, es), Group(cfg.windowSecs, es, key);
      && (HasRow(w, After(es, start), key) ==>
            key in out && (key in table && out[key] == table[key] <==> HasRow(w, es, key) && SameRow(g, start)))
      && (!HasRow(w, After(es, start), key) ==>
            (key in out <==> key in d.rows) && (key in out ==> out[key] == d.rows[key]))
      && (ConstantMeta(es) && Group(w, After(es, start), key) != [] ==>
            HasRow(w, es, key) && HasRow(w, After(es, start), key)
            && (SameRow(g, start) <==> forall r :: r in g && r.timestamp <= start ==> !TradeOf(r).Traded?))
  {
    hide TradeOf;
    hide AccsAfter;
    hide Trace;
    hide PoolKey;
    hide Apply;
    hide GroupTable;
    hide Group;
    hide WindowSorted;
    hide Contiguous;
    hide ConstantMeta;
    hide SameRow;
    hide HasRow;
    hide After;
    var w, rest := cfg.windowSecs, After(es, start);
    AfterSorted(w, es, start);
    SortedIsContiguous(w, rest);
    forall r | r in rest
      ensures r in es
    {
      AfterMembers(es, start, r);
    }
    RunWritesGroupTable(cfg, start, rest, order, d);
    InTable(w, rest, key);
    if HasRow(w, rest, key) {
      CutRow(w, es, start, key);
    }
    if ConstantMeta(es) && Group(w, rest, key) != [] {
      ConstantRow(w, es, start, key);
    }
  }

  lemma GroupInTable(w: nat, es: seq<Record>, key: RowKey)
    requires w > 0 && Group(w, es, key) != [] && forall r :: r in es ==> r.meta.Present()
    ensures key in GroupTable(w, es) && GroupTable(w, es)[key] == RowOf(w, Group(w, es, key))
  {
    hide Fold;
    var g := Group(w, es, key);
    assert g[0] in g;
  }

  // ----- Where the plain claims fail

  /** A well-formed swap followed, in the same window, by a swap whose payload does not decode. */
  ghost predicate GoodThenBad(good: Record, bad: Record) {
    && TradeOf(good).Traded? && TradeOf(bad).Rejected?
    && good.address == bad.address && good.chainId == bad.chainId
    && good.meta.Present() && bad.meta.Present()
    && 100 <= good.timestamp < bad.timestamp && WindowStart(good.timestamp, 100) == WindowStart(bad.timestamp, 100)
  }

  lemma GoodThenBadExists()
    ensures exists good, bad :: GoodThenBad(good, bad)
  {
    var meta := PoolMeta("A", "B", 2500, 50);
    var good := Record(56, "0xP", 7, 105, "Swap", Some(SwapAmounts("5", "-3")), meta);
    var bad := Record(56, "0xP", 8, 108, "Swap", None, meta);
    assert ToLower("Swap") == "swap" by {
      assert LowerChar('S') == 's';
    }
    assert Numerals.AllDigits("5") && Numerals.AllDigits("-3"[1..]);
    assert GoodThenBad(good, bad);
  }

  lemma GroupOfTwo(w: nat, r: Record, s: Record)
    requires w > 0 && KeyOf(w, r) == KeyOf(w, s)
    ensures Group(w, [r], KeyOf(w, r)) == [r] && Group(w, [r, s], KeyOf(w, r)) == [r, s]
  {
    assert [r][..0] == [];
    assert [r, s][..1] == [r];
  }

  /**
   * Re-running an unchanged input is not idempotent when the last event is a rejected swap: the completed run
   * counted one swap, the second run overwrites the row with an empty window.
   */
  lemma RejectedTailOverwrites(good: Record, bad: Record, a: Attempt, d1: Durable, b: Attempt, d2: Durable)
    requires GoodThenBad(good, bad)
    requires var job := Job(100, 0, [Event(good), Event(bad)]);
      Completes(job, Durable(map[], map[], None), a, d1) && Completes(job, d1, b, d2)
    ensures var key := KeyOf(100, good);
      && key in d1.rows && d1.rows[key].totals.swaps == 1
      && key in d2.rows && d2.rows[key].totals.swaps == 0
  {
    hide GoodThenBad;
    hide Completes;
    hide GroupTable;
    FirstRun(good, bad, a, d1);
    SecondRun(Job(100, 0, [Event(good), Event(bad)]), d1, b, d2, bad);
    RowsOfTwo(good, bad);
  }

  lemma FirstRun(good: Record, bad: Record, a: Attempt, d1: Durable)
    requires GoodThenBad(good, bad)
    requires Completes(Job(100, 0, [Event(good), Event(bad)]), Durable(map[], map[], None), a, d1)
    ensures d1.rows == GroupTable(100, [good, bad])
    ensures InputOf(Job(100, 0, [Event(good), Event(bad)]), d1) == [bad]
  {
    hide TradeOf;
    hide Completes;
    hide GroupTable;
    hide Sound;
    hide Safe;
    hide MaxTsAfter;
    hide Accepted;
    var job, d0 := Job(100, 0, [Event(good), Event(bad)]), Durable(map[], map[], None);
    TwoLines(good, bad, 0);
    TwoLines(good, bad, good.timestamp);
    SoundTwo(good, bad);
    StartIsSafe(job, d0);
    CompletionFromSafe(job, d0, d0, a, d1);
    MaxTsOfTwo(good, bad);
    assert InputOf(job, d0) == [good, bad];
    assert d1.rows == map[] + GroupTable(100, [good, bad]);
    assert StartOf(job, d1) == good.timestamp;
    assert [] + [bad] == [bad];
  }

  lemma RowsOfTwo(good: Record, bad: Record)
    requires GoodThenBad(good, bad)
    ensures var key, both, tail := KeyOf(100, good), GroupTable(100, [good, bad]), GroupTable(100, [bad]);
      && key in both && both[key].totals.swaps == 1
      && key in tail && tail[key].totals.swaps == 0
  {
    hide TradeOf;
    hide GroupTable;
    hide Fold;
    var es, key := [good, bad], KeyOf(100, good);
    GroupOfTwo(100, good, bad);
    GroupOfTwo(100, bad, bad);
    GroupInTable(100, es, key);
    GroupInTable(100, [bad], key);
    SwapsOfTwo(good, bad);
    FoldIsSum(100, es);
    FoldIsSum(100, [bad]);
  }

  lemma TwoLines(good: Record, bad: Record, start: nat)
    ensures Accepted([Event(good), Event(bad)], start) ==
      (if good.timestamp > start then [good] else []) + (if bad.timestamp > start then [bad] else [])
  {
    assert [Event(good), Event(bad)][..1] == [Event(good)];
    assert [Event(good)][..0] == [];
    assert Accepted([Event(good)], start) == if good.timestamp > start then [good] else [];
  }

  lemma SoundTwo(good: Record, bad: Record)
    requires GoodThenBad(good, bad)
    ensures Sound(Job(100, 0, [Event(good), Event(bad)]), Durable(map[], map[], None))
  {
    hide TradeOf;
    hide PoolKey;
    TwoLines(good, bad, 0);
    WindowAfterBoundary(good.timestamp, 100, 100);
  }

  lemma MaxTsOfTwo(good: Record, bad: Record)
    requires GoodThenBad(good, bad)
    ensures MaxTsAfter(0, [good, bad]) == good.timestamp
  {
    hide TradeOf;
    assert [good, bad][..1] == [good];
    assert [good][..0] == [];
    assert MaxTsAfter(0, [good]) == good.timestamp;
  }

  lemma SecondRun(job: Job, d1: Durable, b: Attempt, d2: Durable, bad: Record)
    requires job.windowSecs > 0 && Completes(job, d1, b, d2) && InputOf(job, d1) == [bad]
    ensures d2.rows == d1.rows + GroupTable(job.windowSecs, [bad])
  {
    hide GroupTable;
    hide Trace;
    hide PoolKey;
    RunWritesGroupTable(ConfigOf(job, b), StartOf(job, d1), [bad], b.order, d1);
  }

  lemma SwapsOfTwo(good: Record, bad: Record)
    requires GoodThenBad(good, bad)
    ensures Sum([good, bad], good.meta.fee).swaps == 1 && Sum([bad], bad.meta.fee).swaps == 0
  {
    hide TradeOf;
    hide FeeFromAmount;
    hide WindowStart;
    assert [good, bad][..1] == [good];
    assert [good][..0] == [] && [bad][..0] == [];
    assert Sum([good], good.meta.fee).swaps == 1;
  }

  /** Two well-formed swaps of one window of 100 seconds, on the two sides of 105. */
  ghost predicate Straddles(first: Record, second: Record) {
    && TradeOf(first).Traded? && TradeOf(second).Traded?
    && first.address == second.address && first.chainId == second.chainId
    && first.meta == second.meta && first.meta.Present()
    && first.timestamp <= 105 < second.timestamp
    && WindowStart(first.timestamp, 100) == WindowStart(second.timestamp, 100)
  }

  lemma StraddlesExists()
    ensures exists first, second :: Straddles(first, second)
  {
    var first := Record(56, "0xP", 7, 105, "Swap", Some(SwapAmounts("5", "-3")), PoolMeta("A", "B", 2500, 50));
    var second := first.(block := 8, timestamp := 108);
    assert ToLower("Swap") == "swap" by {
      assert LowerChar('S') == 's';
    }
    assert Numerals.AllDigits("5") && Numerals.AllDigits("-3"[1..]);
    assert Straddles(first, second);
  }

  /**
   * A start inside a window loses a swap: a run that starts after 105 leaves a row with one of the two swaps,
   * where the group-by row has both, although the input meets every condition on its order and its pools.
   */
  lemma CutWindowLosesSwap(first: Record, second: Record, cfg: Config, order: seq<string>, d: Durable)
    requires Straddles(first, second) && cfg.windowSecs == 100
    requires ValidOrder(order, AccsAfter(100, After([first, second], 105)))
    ensures var es, key := [first, second], KeyOf(100, second);
      && OneSpelling(es) && WindowSorted(100, es) && ConstantMeta(es)
      && var out, table := Apply(d, Trace(cfg, 105, After(es, 105), order)).rows, GroupTable(100, es);
         && key in out && out[key].totals.swaps == 1
         && key in table && table[key].totals.swaps == 2
  {
    hide Straddles;
    hide AccsAfter;
    hide Trace;
    hide Apply;
    hide GroupTable;
    hide After;
    StraddlingInput(first, second);
    StraddlingRows(first, second);
    RunWritesGroupTable(cfg, 105, [second], order, d);
  }

  lemma StraddlingInput(first: Record, second: Record)
    requires Straddles(first, second)
    ensures var es := [first, second];
      && OneSpelling(es) && WindowSorted(100, es) && ConstantMeta(es)
      && After(es, 105) == [second] && OneSpelling([second]) && Contiguous(100, [second])
  {
    hide TradeOf;
    hide PoolKey;
    assert [first, second][..1] == [first] && [first][..0] == [];
    assert After([first], 105) == [];
    assert [] + [second] == [second];
  }

  lemma StraddlingRows(first: Record, second: Record)
    requires Straddles(first, second)
    ensures var key, both, tail := KeyOf(100, second), GroupTable(100, [first, second]), GroupTable(100, [second]);
      && key in both && both[key].totals.swaps == 2
      && key in tail && tail[key].totals.swaps == 1
  {
    hide TradeOf;
    hide GroupTable;
    hide Fold;
    var es, key := [first, second], KeyOf(100, second);
    GroupOfTwo(100, first, second);
    GroupOfTwo(100, second, second);
    GroupInTable(100, es, key);
    GroupInTable(100, [second], key);
    TwoSwaps(first, second);
    FoldIsSum(100, es);
    FoldIsSum(100, [second]);
  }

  lemma TwoSwaps(r: Record, q: Record)
    requires TradeOf(r).Traded? && TradeOf(q).Traded?
    ensures Sum([r, q], r.meta.fee).swaps == 2 && Sum([q], q.meta.fee).swaps == 1
  {
    hide TradeOf;
    hide FeeFromAmount;
    assert [r, q][..1] == [r];
    assert [r][..0] == [] && [q][..0] == [];
    assert Sum([r], r.meta.fee).swaps == 1;
  }
}
