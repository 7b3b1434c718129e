/** The text columns of a metrics row, computed from its totals, the token decimals and the TVL. */
module Columns {
  import opened Base
  import opened Stores
  import opened Rationals
  import Helpers
  import Hex

  /** What the chain answers: the decimals of a token, its balance of a pool at a block (None is the latest). */
  datatype Oracle = Oracle(
    decimals: string -> Option<nat>,
    balance: (string, string, Option<uint64>) -> Option<nat>)

  /** `getTokenDecimals`, with 0 where the caller only logs the error. */
  function DecimalsOf(o: Oracle, token: string): nat {
    if !Hex.IsHexAddress(token) then 0 else o.decimals(token).GetOr(0)
  }

  datatype TvlMethod = AtBlock | AtLatest | Unavailable

  datatype Tvl = Tvl(balances: Option<(nat, nat)>, how: TvlMethod)

  function Balances(o: Oracle, token0: string, token1: string, pool: string, at: Option<uint64>): Option<(nat, nat)> {
    match (o.balance(token0, pool, at), o.balance(token1, pool, at))
    case (Some(x), Some(y)) => Some((x, y))
    case _ => None
  }

  /** `fetchTVL`: both balances at the block, or else both at the latest one. */
  function FetchTvl(o: Oracle, token0: string, token1: string, pool: string, block: uint64): (t: Tvl)
    ensures var first := Balances(o, token0, token1, pool, Some(block));
      var second := Balances(o, token0, token1, pool, None);
      var valid := Hex.IsHexAddress(token0) && Hex.IsHexAddress(token1) && Hex.IsHexAddress(pool);
      && (t.balances.Some? <==> t.how != Unavailable)
      && (t.how == AtBlock <==> valid && first.Some?)
      && (t.how == AtLatest <==> valid && first.None? && second.Some?)
      && (t.how == AtBlock ==> t.balances == first)
      && (t.how == AtLatest ==> t.balances == second)
  {
    if !Hex.IsHexAddress(token0) || !Hex.IsHexAddress(token1) || !Hex.IsHexAddress(pool) then Tvl(None, Unavailable)
    else
      match (Balances(o, token0, token1, pool, Some(block)), Balances(o, token0, token1, pool, None))
      case (Some(b), _) => Tvl(Some(b), AtBlock)
      case (None, Some(b)) => Tvl(Some(b), AtLatest)
      case _ => Tvl(None, Unavailable)
  }

  /** The TVL of a row: that at the last block of its window, if there is one. */
  function TvlOf(m: Metrics, o: Oracle): Tvl {
    if m.row.lastBlock > 0 then FetchTvl(o, m.row.token0, m.row.token1, m.key.address, m.row.lastBlock)
    else Tvl(None, Unavailable)
  }

  function MethodText(how: TvlMethod): string {
    match how
    case AtBlock => "balance_of_block"
    case AtLatest => "balance_of_latest"
    case Unavailable => "unavailable"
  }

  datatype Columns = Columns(
    windowEnd: uint64, swapCount: nat, volume0: string, volume1: string, fee0: string, fee1: string,
    feeRate0: Option<string>, feeRate1: Option<string>, tvl0: Option<string>, tvl1: Option<string>,
    apr: Option<string>, feeMethod: string, tvlMethod: string)

  /** `flushAccumulator` after the metadata check. */
  function ColumnsOf(m: Metrics, o: Oracle): Columns
    requires m.key.windowSecs < TWO_64
  {
    var row, d0, d1, tvl := m.row, DecimalsOf(o, m.row.token0), DecimalsOf(o, m.row.token1), TvlOf(m, o);
    var tvl0: Option<int> := match tvl.balances case Some((x, _)) => Some(x) case None => None;
    var tvl1: Option<int> := match tvl.balances case Some((_, y)) => Some(y) case None => None;
    var (rate0, rate1) := Helpers.ComputeFeeRates(Some(row.totals.fee0), Some(row.totals.fee1), tvl0, tvl1);
    Columns(
      row.windowEnd, row.totals.swaps,
      Helpers.FormatTokenAmount(Some(row.totals.volume0), d0), Helpers.FormatTokenAmount(Some(row.totals.volume1), d1),
      Helpers.FormatTokenAmount(Some(row.totals.fee0), d0), Helpers.FormatTokenAmount(Some(row.totals.fee1), d1),
      rate0, rate1,
      if tvl0.Some? then Some(Helpers.FormatTokenAmount(tvl0, d0)) else None,
      if tvl1.Some? then Some(Helpers.FormatTokenAmount(tvl1, d1)) else None,
      Helpers.ComputeAPR(rate0, rate1, m.key.windowSecs), "approx_from_feeTier", MethodText(tvl.how))
  }

  predicate Reads(text: string, value: int, decimals: nat) {
    ReadDecimal(text) == Some(Decimal(value, decimals))
  }

  /** The text of fee / tvl, rounded to the nearest multiple of 10^-18. */
  predicate ReadsRate(text: string, fee: nat, tvl: nat) {
    tvl > 0 && Reads(text, Round(fee * 1_000_000_000_000_000_000, tvl), 18)
  }

  lemma RateText(fee: nat, tvl: nat)
    requires fee > 0 && tvl > 0
    ensures Helpers.ComputeRate(Some(fee), Some(tvl)).Some?
    ensures ReadsRate(Helpers.ComputeRate(Some(fee), Some(tvl)).value, fee, tvl)
  {
    hide FloatString;
    hide SetFrac;
    hide ReadDecimal;
    hide Pow10;
    hide Round;
    Helpers.RateReads(fee, tvl);
  }

  /** The text of rate * 365 days / window for the printed rate, rounded to the nearest multiple of 10^-18. */
  predicate ReadsApr(text: string, fee: nat, tvl: nat, windowSecs: nat) {
    && 0 < windowSecs < TWO_64 && tvl > 0
    && var w := Helpers.AsInt64(windowSecs);
       var rate := Round(fee * 1_000_000_000_000_000_000, tvl);
       w != 0
       && var a := Round(rate * 31_536_000, Abs(w));
          Reads(text, if w < 0 then -(a as int) else a, 18)
  }

  lemma AprText(fee: nat, tvl: nat, windowSecs: uint64)
    requires fee > 0 && tvl > 0 && windowSecs > 0
    ensures var rate := Helpers.ComputeRate(Some(fee), Some(tvl));
      var apr := Helpers.ComputeAPR(rate, None, windowSecs);
      apr == Helpers.ComputeAPR(None, rate, windowSecs) && apr.Some? && ReadsApr(apr.value, fee, tvl, windowSecs)
  {
    hide FloatString;
    hide SetFrac;
    hide ReadDecimal;
    hide Pow10;
    hide Round;
    hide Helpers.ComputeAPR;
    hide Helpers.AsInt64;
    Helpers.RateReads(fee, tvl);
    var rate := Helpers.ComputeRate(Some(fee), Some(tvl));
    Helpers.AprReads(rate.value, Round(fee * 1_000_000_000_000_000_000, tvl), windowSecs);
  }

  /** What the row asks the oracle, and how the answers become decimals, TVL and its method. */
  lemma TvlFromOracle(m: Metrics, o: Oracle)
    ensures var token0, token1, pool, last := m.row.token0, m.row.token1, m.key.address, m.row.lastBlock;
      var then0, then1 := o.balance(token0, pool, Some(last)), o.balance(token1, pool, Some(last));
      var now0, now1 := o.balance(token0, pool, None), o.balance(token1, pool, None);
      var asked := last > 0 && Hex.IsHexAddress(token0) && Hex.IsHexAddress(token1) && Hex.IsHexAddress(pool);
      var tvl := TvlOf(m, o);
      && (asked && then0.Some? && then1.Some? ==>
            tvl.balances == Some((then0.value, then1.value)) && MethodText(tvl.how) == "balance_of_block")
      && (asked && !(then0.Some? && then1.Some?) && now0.Some? && now1.Some? ==>
            tvl.balances == Some((now0.value, now1.value)) && MethodText(tvl.how) == "balance_of_latest")
      && (!asked || (!(then0.Some? && then1.Some?) && !(now0.Some? && now1.Some?)) ==>
            tvl.balances == None && MethodText(tvl.how) == "unavailable")
    ensures forall token :: DecimalsOf(o, token) ==
              (if Hex.IsHexAddress(token) && o.decimals(token).Some? then o.decimals(token).value else 0)
  {
    hide Hex.IsHexAddress;
  }

  /**
   * Every amount column reads back as the total it is printed from, in units of 10^-d0 and 10^-d1; a fee rate is
   * present when the fee and the TVL of its side are positive, an APR when exactly one side has a rate, and then
   * it is the APR of that side.
   */
  predicate Shows(c: Columns, m: Metrics, d0: nat, d1: nat, tvl: Option<(nat, nat)>, how: string) {
    var t := m.row.totals;
    var (tvl0, tvl1) := tvl.GetOr((0, 0));
    && c.windowEnd == m.row.windowEnd && c.swapCount == t.swaps
    && c.feeMethod == "approx_from_feeTier" && c.tvlMethod == how
    && Reads(c.volume0, t.volume0, d0) && Reads(c.volume1, t.volume1, d1)
    && Reads(c.fee0, t.fee0, d0) && Reads(c.fee1, t.fee1, d1)
    && c.tvl0.Some? == c.tvl1.Some? == tvl.Some?
    && (tvl.Some? ==> Reads(c.tvl0.value, tvl0, d0) && Reads(c.tvl1.value, tvl1, d1))
    && (c.feeRate0.Some? <==> t.fee0 > 0 && tvl0 > 0)
    && (c.feeRate1.Some? <==> t.fee1 > 0 && tvl1 > 0)
    && (c.feeRate0.Some? ==> ReadsRate(c.feeRate0.value, t.fee0, tvl0))
    && (c.feeRate1.Some? ==> ReadsRate(c.feeRate1.value, t.fee1, tvl1))
    && (c.apr.Some? <==> c.feeRate0.Some? != c.feeRate1.Some?)
    && (c.apr.Some? && c.feeRate0.Some? ==> ReadsApr(c.apr.value, t.fee0, tvl0, m.key.windowSecs))
    && (c.apr.Some? && c.feeRate1.Some? ==> ReadsApr(c.apr.value, t.fee1, tvl1, m.key.windowSecs))
  }

  /**
   * The columns show the totals, with the decimals the oracle gives for each token; the TVL is that of both tokens
   * at the last block of the window, or else that at the latest block, and the method says which.
   */
  lemma ColumnsShowTotals(m: Metrics, o: Oracle)
    requires 0 < m.key.windowSecs < TWO_64
    ensures var token0, token1, pool, last := m.row.token0, m.row.token1, m.key.address, m.row.lastBlock;
      var d0 := if Hex.IsHexAddress(token0) && o.decimals(token0).Some? then o.decimals(token0).value else 0;
      var d1 := if Hex.IsHexAddress(token1) && o.decimals(token1).Some? then o.decimals(token1).value else 0;
      var then0, then1 := o.balance(token0, pool, Some(last)), o.balance(token1, pool, Some(last));
      var now0, now1 := o.balance(token0, pool, None), o.balance(token1, pool, None);
      var asked := last > 0 && Hex.IsHexAddress(token0) && Hex.IsHexAddress(token1) && Hex.IsHexAddress(pool);
      if asked && then0.Some? && then1.Some? then
        Shows(ColumnsOf(m, o), m, d0, d1, Some((then0.value, then1.value)), "balance_of_block")
      else if asked && now0.Some? && now1.Some? then
        Shows(ColumnsOf(m, o), m, d0, d1, Some((now0.value, now1.value)), "balance_of_latest")
      else
        Shows(ColumnsOf(m, o), m, d0, d1, None, "unavailable")
  {
    hide Hex.IsHexAddress;
    hide Shows;
    hide ColumnsOf;
    hide TvlOf;
    hide MethodText;
    hide DecimalsOf;
    TvlFromOracle(m, o);
    ColumnsShowTvl(m, o);
  }

  lemma ColumnsShowTvl(m: Metrics, o: Oracle)
    requires 0 < m.key.windowSecs < TWO_64
    ensures Shows(ColumnsOf(m, o), m, DecimalsOf(o, m.row.token0), DecimalsOf(o, m.row.token1),
                  TvlOf(m, o).balances, MethodText(TvlOf(m, o).how))
  {
    hide ReadDecimal;
    hide Helpers.FormatTokenAmount;
    hide Helpers.ComputeRate;
    hide Helpers.ComputeAPR;
    hide ReadsRate;
    hide ReadsApr;
    hide DecimalsOf;
    hide TvlOf;
    hide MethodText;
    var t, d0, d1, tvl := m.row.totals, DecimalsOf(o, m.row.token0), DecimalsOf(o, m.row.token1), TvlOf(m, o);
    var tvl0: Option<int> := match tvl.balances case Some((x, _)) => Some(x) case None => None;
    var tvl1: Option<int> := match tvl.balances case Some((_, y)) => Some(y) case None => None;
    Helpers.AmountIsExact(t.volume0, d0);
    Helpers.AmountIsExact(t.volume1, d1);
    Helpers.AmountIsExact(t.fee0, d0);
    Helpers.AmountIsExact(t.fee1, d1);
    if tvl.balances.Some? {
      Helpers.AmountIsExact(tvl.balances.value.0, d0);
      Helpers.AmountIsExact(tvl.balances.value.1, d1);
    }
    if t.fee0 > 0 && tvl.balances.Some? && tvl.balances.value.0 > 0 {
      RateText(t.fee0, tvl.balances.value.0);
      AprText(t.fee0, tvl.balances.value.0, m.key.windowSecs);
    }
    if t.fee1 > 0 && tvl.balances.Some? && tvl.balances.value.1 > 0 {
      RateText(t.fee1, tvl.balances.value.1);
      AprText(t.fee1, tvl.balances.value.1, m.key.windowSecs);
    }
    Helpers.AprReturned(Some(t.fee0), Some(t.fee1), tvl0, tvl1, m.key.windowSecs);
  }

  /** For one pair of tokens the printed columns determine the totals: printing loses nothing. */
  lemma ColumnsDetermineTotals(m: Metrics, m': Metrics, o: Oracle)
    requires m.key.windowSecs < TWO_64 && m'.key.windowSecs < TWO_64
    requires m.row.token0 == m'.row.token0 && m.row.token1 == m'.row.token1
    requires ColumnsOf(m, o) == ColumnsOf(m', o)
    ensures m.row.totals == m'.row.totals
  {
    hide Helpers.FormatTokenAmount;
    hide Helpers.ComputeFeeRates;
    hide Helpers.ComputeAPR;
    hide FetchTvl;
    hide DecimalsOf;
    var t, t', d0, d1 := m.row.totals, m'.row.totals, DecimalsOf(o, m.row.token0), DecimalsOf(o, m.row.token1);
    Helpers.AmountIsInjective(t.volume0, t'.volume0, d0);
    Helpers.AmountIsInjective(t.volume1, t'.volume1, d1);
    Helpers.AmountIsInjective(t.fee0, t'.fee0, d0);
    Helpers.AmountIsInjective(t.fee1, t'.fee1, d1);
  }
}
