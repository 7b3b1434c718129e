/** Bounds on the fees of a whole window: each swap's fee is floored separately. */
module Fees {
  import opened Arithmetic
  import opened Base
  import opened Events
  import opened Accumulators
  import opened Stores
  import opened GroupBy

  /** The swaps of a group that take token0 in and give token1 out, and the other way around. */
  function Inputs0(g: seq<Record>): seq<nat> {
    if g == [] then []
    else
      match TradeOf(g[|g| - 1])
      case Traded(a0, a1) => if a1 < 0 < a0 then Inputs0(g[..|g| - 1]) + [a0] else Inputs0(g[..|g| - 1])
      case _ => Inputs0(g[..|g| - 1])
  }

  function Inputs1(g: seq<Record>): seq<nat> {
    if g == [] then []
    else
      match TradeOf(g[|g| - 1])
      case Traded(a0, a1) => if a0 < 0 < a1 then Inputs1(g[..|g| - 1]) + [a1] else Inputs1(g[..|g| - 1])
      case _ => Inputs1(g[..|g| - 1])
  }

  function SumOf(s: seq<nat>): nat {
    if s == [] then 0 else SumOf(s[..|s| - 1]) + s[|s| - 1]
  }

  /** The fees of a sequence of input amounts, each floored. */
  function FeesOf(s: seq<nat>, f: uint32): nat {
    if s == [] then 0 else FeesOf(s[..|s| - 1], f) + FeeFromAmount(s[|s| - 1], f)
  }

  lemma Floor(p: nat)
    ensures 1_000_000 * (p / 1_000_000) <= p <= 1_000_000 * (p / 1_000_000) + 999_999
  {
  }

  lemma FeeIsFloor(a: nat, f: uint32)
    ensures 1_000_000 * FeeFromAmount(a, f) <= a * f <= 1_000_000 * FeeFromAmount(a, f) + 999_999
    ensures f <= 1_000_000 ==> FeeFromAmount(a, f) <= a
  {
    hide FeeFromAmount;
    FeeIsQuotient(a, f);
    Floor(a * f);
    if a > 0 {
      ScaleOrder(a, f, 1_000_000);
    }
  }

  lemma {:induction false} FloorSum(s: seq<nat>, f: uint32)
    ensures 1_000_000 * FeesOf(s, f) <= SumOf(s) * f <= 1_000_000 * FeesOf(s, f) + 999_999 * |s|
    ensures f <= 1_000_000 ==> FeesOf(s, f) <= SumOf(s)
  {
    if s != [] {
      var init, a := s[..|s| - 1], s[|s| - 1];
      FloorSum(init, f);
      FeeIsFloor(a, f);
      Distribute(f, SumOf(init), a);
      hide FeeFromAmount;
    }
  }

  lemma SnocSums(s: seq<nat>, a: nat, f: uint32)
    ensures SumOf(s + [a]) == SumOf(s) + a && FeesOf(s + [a], f) == FeesOf(s, f) + FeeFromAmount(a, f)
  {
    hide FeeFromAmount;
    assert (s + [a])[..|s|] == s;
  }

  /** The sums of a group, split by the direction of its swaps. */
  lemma {:induction false} SumByDirection(g: seq<Record>, f: uint32)
    ensures var t := Sum(g, f);
      && t.fee0 == FeesOf(Inputs0(g), f) && t.fee1 == FeesOf(Inputs1(g), f)
      && SumOf(Inputs0(g)) <= t.volume0 && SumOf(Inputs1(g)) <= t.volume1
      && |Inputs0(g)| + |Inputs1(g)| <= t.swaps
  {
    hide TradeOf;
    hide FeeFromAmount;
    hide FeesOf;
    hide SumOf;
    if g == [] {
      assert FeesOf([], f) == 0 && SumOf([]) == 0 by {
        EmptySums(f);
      }
    } else {
      var init, e := g[..|g| - 1], g[|g| - 1];
      SumByDirection(init, f);
      match TradeOf(e)
      case Traded(a0, a1) =>
        if a1 < 0 < a0 {
          SnocSums(Inputs0(init), a0, f);
        }
        if a0 < 0 < a1 {
          SnocSums(Inputs1(init), a1, f);
        }
      case _ =>
    }
  }

  lemma EmptySums(f: uint32)
    ensures FeesOf([], f) == 0 && SumOf([]) == 0
  {
  }

  /** Fee bounds for every row of a metrics table, with `f` the fee tier of the group's first event. */
  lemma WindowFees(w: nat, es: seq<Record>, key: RowKey)
    requires w > 0 && key in GroupTable(w, es)
    ensures var g := Group(w, es, key);
      var f, t := g[0].meta.fee, GroupTable(w, es)[key].totals;
      var in0, in1, n0, n1 := SumOf(Inputs0(g)), SumOf(Inputs1(g)), |Inputs0(g)|, |Inputs1(g)|;
      && 1_000_000 * t.fee0 <= in0 * f <= 1_000_000 * t.fee0 + 999_999 * n0
      && 1_000_000 * t.fee1 <= in1 * f <= 1_000_000 * t.fee1 + 999_999 * n1
      && n0 + n1 <= t.swaps
      && (f <= 1_000_000 ==> t.fee0 <= t.volume0 && t.fee1 <= t.volume1)
  {
    hide Fold;
    hide Sum;
    hide FeesOf;
    hide SumOf;
    hide Inputs0;
    hide Inputs1;
    var g := Group(w, es, key);
    var f := g[0].meta.fee;
    FoldIsSum(w, g);
    SumByDirection(g, f);
    FloorSum(Inputs0(g), f);
    FloorSum(Inputs1(g), f);
  }
}
