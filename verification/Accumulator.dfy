/** One pool's open window: the accumulator object, its value, and what the value means. */
module Accumulators {
  import opened Arithmetic
  import opened Base
  import opened Numerals
  import opened Events
  import opened Windows

  const FEE_DENOMINATOR := 1_000_000

  /** The five running sums of an accumulator. */
  datatype Totals = Totals(swaps: nat, volume0: nat, volume1: nat, fee0: nat, fee1: nat) {
    function Plus(t: Totals): Totals {
      Totals(swaps + t.swaps, volume0 + t.volume0, volume1 + t.volume1, fee0 + t.fee0, fee1 + t.fee1)
    }
  }

  function Zero(): Totals {
    Totals(0, 0, 0, 0, 0)
  }

  /** Fee in the input token, floored; `feeRate` is in millionths. */
  function FeeFromAmount(amountIn: int, feeRate: uint32): nat {
    Times(Abs(amountIn), feeRate) / FEE_DENOMINATOR
  }

  /** The fee is computed as in the source. */
  lemma FeeIsQuotient(a: int, f: uint32)
    ensures FeeFromAmount(a, f) == Abs(a) * f / 1_000_000
  {
    TimesIsProduct(Abs(a), f);
  }

  /** What a swap of two signed amounts adds; the fee is taken from the side that goes in. */
  function SwapTotals(amount0: int, amount1: int, feeRate: uint32): Totals {
    var fee0 := if amount1 < 0 < amount0 then FeeFromAmount(amount0, feeRate) else 0;
    var fee1 := if amount0 < 0 < amount1 then FeeFromAmount(amount1, feeRate) else 0;
    Totals(1, Abs(amount0), Abs(amount1), fee0, fee1)
  }

  /** What one event adds to a pool whose fee tier is `feeRate`; a rejected swap adds nothing. */
  function Contribution(r: Record, feeRate: uint32): Totals {
    match TradeOf(r)
    case Traded(a0, a1) => SwapTotals(a0, a1, feeRate)
    case _ => Zero()
  }

  /** The sum of the contributions of a group of events. */
  function Sum(g: seq<Record>, feeRate: uint32): Totals {
    if g == [] then Zero()
    else Sum(g[..|g| - 1], feeRate).Plus(Contribution(g[|g| - 1], feeRate))
  }

  /** The value of an accumulator object. */
  datatype Acc = Acc(
    chainId: uint64, address: string, meta: PoolMeta, windowStart: nat, windowEnd: uint64,
    totals: Totals, lastBlock: uint64, lastTs: uint64, firstBlock: uint64)

  function NewAcc(r: Record, w: nat): Acc
    requires w > 0
  {
    var start := WindowStart(r.timestamp, w);
    Acc(r.chainId, r.address, r.meta, start, Wrap64(start + w), Zero(), r.block, r.timestamp, r.block)
  }

  /** The value after `AddEvent`; block and time bounds move even when the swap is rejected. */
  function AddEventTo(a: Acc, r: Record): Acc {
    var seen := a.(
      lastTs := if r.timestamp >= a.lastTs then r.timestamp else a.lastTs,
      lastBlock := if r.timestamp >= a.lastTs then r.block else a.lastBlock,
      firstBlock := if a.firstBlock == 0 || r.block < a.firstBlock then r.block else a.firstBlock);
    seen.(totals := a.totals.Plus(Contribution(r, a.meta.fee)))
  }

  /**
   * What one event does to the sums, for every record.  An event whose name is not "swap" in any letter case is
   * never rejected and moves no sum, whatever its payload; a swap without payload, or with an amount that is no
   * integer, is rejected and moves none either; any other swap counts once, adds the sizes of its two amounts to
   * the volumes, and its fee, rounded down, on the side that goes in.
   */
  lemma EventMeans(a: Acc, r: Record)
    ensures var isSwap := ToLower(r.eventName) == "swap";
      var x := if r.swap.Some? then ParseBigInt(r.swap.value.amount0) else None;
      var y := if r.swap.Some? then ParseBigInt(r.swap.value.amount1) else None;
      var t, t', f := a.totals, AddEventTo(a, r).totals, a.meta.fee;
      && (TradeOf(r).Rejected? <==> isSwap && (x.None? || y.None?))
      && (!isSwap || x.None? || y.None? ==> t' == t)
      && (isSwap && x.Some? && y.Some? ==>
            && t'.swaps == t.swaps + 1
            && t'.volume0 == t.volume0 + Abs(x.value) && t'.volume1 == t.volume1 + Abs(y.value)
            && t'.fee0 == t.fee0 + (if y.value < 0 < x.value then x.value * f / 1_000_000 else 0)
            && t'.fee1 == t.fee1 + if x.value < 0 < y.value then y.value * f / 1_000_000 else 0)
  {
    hide ParseBigInt;
    hide ToLower;
    match TradeOf(r)
    case Traded(x, y) =>
      FeeIsQuotient(x, a.meta.fee);
      FeeIsQuotient(y, a.meta.fee);
      hide FeeFromAmount;
    case _ =>
  }

  class Accumulator {
    const chainId: uint64
    const poolAddress: string
    const poolMeta: PoolMeta
    const windowStart: nat
    const windowEnd: uint64
    var swapCount: nat
    var volume0: nat
    var volume1: nat
    var fee0: nat
    var fee1: nat
    var lastBlock: uint64
    var lastTs: uint64
    var firstBlock: uint64

    ghost function Value(): Acc
      reads this
    {
      Acc(chainId, poolAddress, poolMeta, windowStart, windowEnd,
          Totals(swapCount, volume0, volume1, fee0, fee1), lastBlock, lastTs, firstBlock)
    }

    constructor (r: Record, windowStart: nat, windowEnd: uint64)
      ensures Value() ==
        Acc(r.chainId, r.address, r.meta, windowStart, windowEnd, Zero(), r.block, r.timestamp, r.block)
    {
      this.chainId, this.poolAddress, this.poolMeta := r.chainId, r.address, r.meta;
      this.windowStart, this.windowEnd := windowStart, windowEnd;
      swapCount, volume0, volume1, fee0, fee1 := 0, 0, 0, 0, 0;
      lastBlock, lastTs, firstBlock := r.block, r.timestamp, r.block;
    }

    /**
     * `ok` is false exactly when the event is a swap whose payload or amounts do not parse; other events leave
     * the sums alone, whatever their payload.
     */
    method AddEvent(r: Record) returns (ok: bool)
      modifies this
      ensures Value() == AddEventTo(old(Value()), r)
      ensures ok == !TradeOf(r).Rejected?
      ensures ToLower(r.eventName) != "swap" ==> ok && Value().totals == old(Value().totals)
      ensures ToLower(r.eventName) == "swap" ==>
        (ok <==>
           r.swap.Some? && ParseBigInt(r.swap.value.amount0).Some? && ParseBigInt(r.swap.value.amount1).Some?)
    {
      if r.timestamp >= lastTs {
        lastTs := r.timestamp;
        lastBlock := r.block;
      }
      if firstBlock == 0 || r.block < firstBlock {
        firstBlock := r.block;
      }
      ok := true;
      if ToLower(r.eventName) == "swap" {
        if r.swap.None? {
          return false;
        }
        ok := ApplySwap(r.swap.value);
      }
    }

    method ApplySwap(swap: SwapAmounts) returns (ok: bool)
      modifies this
      ensures ok == (ParseBigInt(swap.amount0).Some? && ParseBigInt(swap.amount1).Some?)
      ensures !ok ==> Value() == old(Value())
      ensures ok ==>
        var amount0, amount1 := ParseBigInt(swap.amount0).value, ParseBigInt(swap.amount1).value;
        Value() == old(Value()).(totals := old(Value()).totals.Plus(SwapTotals(amount0, amount1, poolMeta.fee)))
    {
      hide ParseBigInt;
      var parsed0 := ParseBigInt(swap.amount0);
      if parsed0.None? {
        return false;
      }
      var parsed1 := ParseBigInt(swap.amount1);
      if parsed1.None? {
        return false;
      }
      var amount0, amount1 := parsed0.value, parsed1.value;
      volume0 := volume0 + Abs(amount0);
      volume1 := volume1 + Abs(amount1);
      var feeRate := poolMeta.fee;
      if feeRate == 0 {
        swapCount := swapCount + 1;
        return true;
      }
      if amount0 < 0 && amount1 > 0 {
        fee1 := fee1 + FeeFromAmount(amount1, feeRate);
      } else if amount1 < 0 && amount0 > 0 {
        fee0 := fee0 + FeeFromAmount(amount0, feeRate);
      }
      swapCount := swapCount + 1;
      ok := true;
    }
  }

  /** The accumulator a non-empty group of events of one pool and window leaves behind. */
  function Fold(w: nat, g: seq<Record>): Acc
    requires w > 0 && g != []
  {
    if |g| == 1 then AddEventTo(NewAcc(g[0], w), g[0])
    else AddEventTo(Fold(w, g[..|g| - 1]), g[|g| - 1])
  }

  /** The fold keeps the identity and metadata of the first event and sums what every event contributes. */
  lemma {:induction false} FoldIsSum(w: nat, g: seq<Record>)
    requires w > 0 && g != []
    ensures var a := Fold(w, g);
      && a.chainId == g[0].chainId && a.address == g[0].address && a.meta == g[0].meta
      && a.windowStart == WindowStart(g[0].timestamp, w) && a.windowEnd == Wrap64(a.windowStart + w)
      && a.totals == Sum(g, g[0].meta.fee)
  {
    hide Contribution;
    hide Totals.Plus;
    hide Wrap64;
    hide WindowStart;
    if |g| == 1 {
      assert g[..0] == [];
    } else {
      FoldIsSum(w, g[..|g| - 1]);
    }
  }

  /** With real (non-zero) block numbers the first block is the least one of the group. */
  lemma {:induction false} FoldFirstBlock(w: nat, g: seq<Record>)
    requires w > 0 && g != []
    requires forall r :: r in g ==> r.block > 0
    ensures forall r :: r in g ==> Fold(w, g).firstBlock <= r.block
    ensures exists r :: r in g && r.block == Fold(w, g).firstBlock
  {
    if |g| > 1 {
      var init := g[..|g| - 1];
      FoldFirstBlock(w, init);
      assert g == init + [g[|g| - 1]];
      var r :| r in init && r.block == Fold(w, init).firstBlock;
      assert r in g;
      assert g[|g| - 1] in g;
    } else {
      assert g[0] in g;
    }
  }

  /**
   * Block 0 stands for unset: the first block is the least one after the last event at block 0 (event i - 1, if
   * i > 0), and 0 if no event comes after that.
   */
  lemma {:induction false} FirstBlockAfterZero(w: nat, g: seq<Record>, i: nat)
    requires w > 0 && g != [] && i <= |g| && (i > 0 ==> g[i - 1].block == 0)
    requires forall j :: i <= j < |g| ==> g[j].block > 0
    ensures i == |g| ==> Fold(w, g).firstBlock == 0
    ensures i < |g| ==>
      && (forall j :: i <= j < |g| ==> Fold(w, g).firstBlock <= g[j].block)
      && exists j :: i <= j < |g| && Fold(w, g).firstBlock == g[j].block
  {
    hide Contribution;
    hide Totals.Plus;
    hide Wrap64;
    var init, n := g[..|g| - 1], |g| - 1;
    if n > 0 && i <= n {
      FirstBlockAfterZero(w, init, i);
      assert forall j :: 0 <= j < n ==> init[j] == g[j];
      if i < n {
        var j :| i <= j < n && Fold(w, init).firstBlock == init[j].block;
        assert g[j].block == init[j].block;
      }
      assert g[n].block > 0;
    }
  }

  /** The last block is that of the latest event, the later in the input among equals. */
  lemma {:induction false} FoldLastBlock(w: nat, g: seq<Record>) returns (i: nat)
    requires w > 0 && g != []
    ensures i < |g| && Fold(w, g).lastBlock == g[i].block && Fold(w, g).lastTs == g[i].timestamp
    ensures forall j :: 0 <= j < |g| ==> g[j].timestamp <= g[i].timestamp
    ensures forall j :: i < j < |g| ==> g[j].timestamp < g[i].timestamp
  {
    hide Contribution;
    hide Totals.Plus;
    hide Wrap64;
    i := |g| - 1;
    if |g| > 1 {
      var init := g[..|g| - 1];
      var k := FoldLastBlock(w, init);
      if g[|g| - 1].timestamp < g[k].timestamp {
        i := k;
      }
    }
  }

  lemma PlusAssociates(a: Totals, b: Totals, c: Totals)
    ensures a.Plus(b.Plus(c)) == a.Plus(b).Plus(c)
  {
  }

  lemma PlusRight(a: Totals, b: Totals, c: Totals)
    ensures a.Plus(b).Plus(c) == a.Plus(c).Plus(b) == a.Plus(b.Plus(c))
  {
  }

  lemma PlusZero(t: Totals)
    ensures t.Plus(Zero()) == t == Zero().Plus(t)
  {
  }
}
