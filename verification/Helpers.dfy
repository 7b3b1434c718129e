/** Token amounts, fee rates and the APR as text, and what the text means. */
module Helpers {
  import opened Arithmetic
  import opened Base
  import opened Numerals
  import opened Rationals

  const RATIO_SCALE: nat := 18
  const YEAR_SECONDS: nat := 31_536_000

  /** `value` is None for a nil pointer. */
  function FormatTokenAmount(value: Option<int>, decimals: nat): string {
    match value
    case None => "0"
    case Some(v) =>
      if decimals == 0 then PrintInt(v)
      else
        var text := FloatString(SetFrac(Abs(v), Pow10(decimals)), decimals);
        if v < 0 then "-" + text else text
  }

  lemma SignedFixed(n: nat, prec: nat)
    ensures PrintFixed(true, n, prec) == "-" + PrintFixed(false, n, prec)
  {
    hide Digits;
    hide Pad;
    hide Pow10;
  }

  lemma WholeFixed(v: int)
    ensures PrintFixed(v < 0, Abs(v), 0) == PrintInt(v)
  {
    hide Digits;
    PowZero();
    assert Abs(v) / 1 == Abs(v);
  }

  /** The text shows the integer exactly: reducing the fraction first costs no digit and rounds nothing. */
  lemma AmountIsExact(v: int, decimals: nat)
    ensures FormatTokenAmount(Some(v), decimals) == PrintFixed(v < 0, Abs(v), decimals)
    ensures ReadDecimal(FormatTokenAmount(Some(v), decimals)) == Some(Decimal(v, decimals))
  {
    hide FloatString;
    hide SetFrac;
    hide ReadDecimal;
    hide PrintFixed;
    hide PrintInt;
    hide Pow10;
    hide Round;
    if decimals == 0 {
      WholeFixed(v);
    } else {
      PrintFraction(Abs(v), Pow10(decimals), decimals);
      RoundExact(Abs(v), Pow10(decimals));
      SignedFixed(Abs(v), decimals);
    }
    ReadPrinted(v < 0, Abs(v), decimals);
  }

  lemma FixedParts(n: nat, decimals: nat) returns (whole: string, fraction: string)
    ensures PrintFixed(false, n, decimals) == whole + (if decimals > 0 then "." + fraction else "")
    ensures AllDigits(whole) && AllDigits(fraction) && |fraction| == decimals
    ensures whole != "" && (whole[0] == '0' ==> whole == "0")
    ensures AllDigits(whole + fraction) && DigitsValue(whole + fraction) == n
  {
    hide DigitsValue;
    hide Pow10;
    hide Pad;
    DigitOfZero();
    hide Digits;
    var p := Pow10(decimals);
    whole, fraction := Digits(n / p), "";
    DigitsRoundTrip(n / p);
    if decimals > 0 {
      fraction := Pad(n % p, decimals);
      PadValue(n % p, decimals);
      DigitsValueConcat(whole, fraction);
      assert n == p * (n / p) + n % p;
    } else {
      PowZero();
      assert whole + fraction == whole;
    }
  }

  /** The text letter by letter: a minus if negative, the whole part, and a point with exactly the decimals. */
  lemma AmountText(v: int, decimals: nat)
    ensures exists whole, fraction :: IsAmountText(FormatTokenAmount(Some(v), decimals), v, decimals, whole, fraction)
    ensures FormatTokenAmount(None, decimals) == "0"
  {
    NoAmount(decimals);
    AmountIsExact(v, decimals);
    hide FormatTokenAmount;
    hide DigitsValue;
    hide AllDigits;
    SignedFixed(Abs(v), decimals);
    var whole, fraction := FixedParts(Abs(v), decimals);
    hide PrintFixed;
    var sign := if v < 0 then "-" else "";
    var rest := if decimals > 0 then "." + fraction else "";
    assert sign + (whole + rest) == sign + whole + rest;
    assert "" + (whole + rest) == whole + rest;
    assert IsAmountText(FormatTokenAmount(Some(v), decimals), v, decimals, whole, fraction);
  }

  lemma NoAmount(decimals: nat)
    ensures FormatTokenAmount(None, decimals) == "0"
  {
  }

  lemma DigitOfZero()
    ensures Digits(0) == "0"
  {
  }

  predicate IsAmountText(text: string, v: int, decimals: nat, whole: string, fraction: string) {
    && text == (if v < 0 then "-" else "") + whole + (if decimals > 0 then "." + fraction else "")
    && AllDigits(whole) && AllDigits(fraction) && |fraction| == decimals
    && whole != "" && (whole[0] == '0' ==> whole == "0")
    && AllDigits(whole + fraction) && DigitsValue(whole + fraction) == Abs(v)
  }

  /** For a fixed number of decimals, different amounts have different texts. */
  lemma AmountIsInjective(v: int, v': int, decimals: nat)
    requires FormatTokenAmount(Some(v), decimals) == FormatTokenAmount(Some(v'), decimals)
    ensures v == v'
  {
    AmountIsExact(v, decimals);
    AmountIsExact(v', decimals);
  }

  /** The text of fee / tvl, or None when there is nothing to divide. */
  function ComputeRate(fee: Option<int>, tvl: Option<int>): Option<string> {
    if fee.None? || fee.value == 0 || tvl.None? || tvl.value == 0 then None
    else Some(FloatString(SetFrac(fee.value, tvl.value), RATIO_SCALE))
  }

  function ComputeFeeRates(
    fee0: Option<int>, fee1: Option<int>, tvl0: Option<int>, tvl1: Option<int>): (Option<string>, Option<string>)
  {
    (ComputeRate(fee0, tvl0), ComputeRate(fee1, tvl1))
  }

  /** `int64(windowSeconds)`. */
  function AsInt64(x: uint64): int {
    if x < 0x8000_0000_0000_0000 then x else x - TWO_64
  }

  function ComputeAPR(rate0: Option<string>, rate1: Option<string>, windowSecs: uint64): Option<string> {
    if windowSecs == 0 then None
    else if rate0.Some? == rate1.Some? then None
    else
      match ReadDecimal(if rate0.Some? then rate0.value else rate1.value)
      case None => None
      case Some(rate) =>
        hide Pow10;
        Some(FloatString(SetFrac(rate.scaled * YEAR_SECONDS, AprDenominator(rate.prec, windowSecs)), RATIO_SCALE))
  }

  function AprDenominator(prec: nat, windowSecs: uint64): (d: int)
    requires windowSecs > 0
    ensures d != 0
  {
    ScaleAtLeast(Pow10(prec), AsInt64(windowSecs));
    Pow10(prec) * AsInt64(windowSecs)
  }

  lemma TenToThe18()
    ensures Pow10(18) == 1_000_000_000_000_000_000
  {
    assert Pow10(9) == 1_000_000_000;
    assert Pow10(18) == 1_000_000_000 * Pow10(9);
  }

  /** A rate of a positive fee and a positive TVL reads back as the nearest multiple of 10^-18. */
  lemma RateReads(fee: int, tvl: int)
    requires fee > 0 && tvl > 0
    ensures ComputeRate(Some(fee), Some(tvl)).Some?
    ensures ReadDecimal(ComputeRate(Some(fee), Some(tvl)).value)
         == Some(Decimal(Round(fee * 1_000_000_000_000_000_000, tvl), 18))
  {
    TenToThe18();
    hide FloatString;
    hide SetFrac;
    hide ReadDecimal;
    hide Pow10;
    hide Round;
    PrintFraction(fee, tvl, RATIO_SCALE);
    ReadPrinted(false, Round(fee * Pow10(RATIO_SCALE), tvl), RATIO_SCALE);
  }

  /** The window as the code sees it is the window exactly when it is below 2^63 seconds. */
  lemma AsInt64Exact(x: uint64)
    ensures AsInt64(x) == x <==> x < 0x8000_0000_0000_0000
    ensures x >= 0x8000_0000_0000_0000 ==> AsInt64(x) == x - 0x1_0000_0000_0000_0000 < 0
    ensures x > 0 ==> AsInt64(x) != 0
  {
  }

  /**
   * The APR text of a rate R / 10^18 reads as R * 365 days / window, rounded to the nearest multiple of 10^-18;
   * a window of 2^63 seconds or more counts as negative.
   */
  lemma AprReads(rate: string, r: nat, windowSecs: uint64)
    requires windowSecs > 0 && ReadDecimal(rate) == Some(Decimal(r, 18))
    ensures AsInt64(windowSecs) != 0
    ensures var apr, apr' := ComputeAPR(Some(rate), None, windowSecs), ComputeAPR(None, Some(rate), windowSecs);
      var w := AsInt64(windowSecs);
      var a := Round(r * 31_536_000, Abs(w));
      && apr.Some? && apr' == apr
      && ReadDecimal(apr.value) == Some(Decimal(if w < 0 then -(a as int) else a, 18))
  {
    hide FloatString;
    hide SetFrac;
    hide ReadDecimal;
    hide Pow10;
    hide Round;
    AsInt64Exact(windowSecs);
    hide AsInt64;
    var p, n, w := Pow10(RATIO_SCALE), r * YEAR_SECONDS, AsInt64(windowSecs);
    ScaledSize(p, w);
    PrintFraction(n, p * w, RATIO_SCALE);
    assert n * p == p * n;
    RoundScale(n, Abs(w), p);
    RoundOfZero(n, Abs(w));
    ReadPrinted(n != 0 && w < 0, Round(n, Abs(w)), RATIO_SCALE);
  }

  lemma ScaledSize(p: nat, w: int)
    requires p > 0 && w != 0
    ensures Abs(p * w) == p * Abs(w) > 0 && (p * w < 0 <==> w < 0)
  {
    ScaleAtLeast(p, w);
    assert p * (-w) == -(p * w);
  }

  lemma RoundOfZero(n: nat, b: nat)
    requires b > 0
    ensures n == 0 ==> Round(n, b) == 0
  {
    QuotientUnique(0, b, 0, 0);
  }

  predicate NonNegative(x: Option<int>) {
    x.Some? ==> x.value >= 0
  }

  lemma RateExists(fee: Option<int>, tvl: Option<int>)
    requires NonNegative(fee) && NonNegative(tvl)
    ensures ComputeRate(fee, tvl).Some? <==> fee.Some? && fee.value > 0 && tvl.Some? && tvl.value > 0
    ensures ComputeRate(fee, tvl).Some? ==> ReadDecimal(ComputeRate(fee, tvl).value).Some?
  {
    hide FloatString;
    hide SetFrac;
    hide ReadDecimal;
    if ComputeRate(fee, tvl).Some? {
      RateReads(fee.value, tvl.value);
    }
  }

  /** An APR is returned exactly when one side alone has a rate (and the window is not empty). */
  lemma AprReturned(fee0: Option<int>, fee1: Option<int>, tvl0: Option<int>, tvl1: Option<int>, windowSecs: uint64)
    requires NonNegative(fee0) && NonNegative(fee1) && NonNegative(tvl0) && NonNegative(tvl1)
    ensures var rates := ComputeFeeRates(fee0, fee1, tvl0, tvl1);
      && (rates.0.Some? <==> fee0.Some? && fee0.value > 0 && tvl0.Some? && tvl0.value > 0)
      && (rates.1.Some? <==> fee1.Some? && fee1.value > 0 && tvl1.Some? && tvl1.value > 0)
      && (ComputeAPR(rates.0, rates.1, windowSecs).Some? <==> windowSecs > 0 && rates.0.Some? != rates.1.Some?)
  {
    hide FloatString;
    hide SetFrac;
    hide ReadDecimal;
    hide ComputeRate;
    hide AprDenominator;
    RateExists(fee0, tvl0);
    RateExists(fee1, tvl1);
  }

  /**
   * The APR is rounded twice, once as a rate and once as itself; with A the printed value times 10^18 and W the
   * window as the code sees it, it is off the exact fee * year / (W * tvl) by at most half of (|W| + year) / |W|
   * units.  W is the window exactly when that is below 2^63 seconds; beyond, the APR is never positive.
   */
  lemma AprErrorBound(fee: int, tvl: int, windowSecs: uint64)
    requires fee > 0 && tvl > 0 && windowSecs > 0
    ensures var rate := ComputeRate(Some(fee), Some(tvl));
      var apr := ComputeAPR(rate, None, windowSecs);
      && apr.Some? && apr == ComputeAPR(None, rate, windowSecs)
      && ReadDecimal(apr.value).Some?
      && ReadDecimal(apr.value).value.prec == 18
      && var a := ReadDecimal(apr.value).value.scaled;
         var w: int :=
           if windowSecs < 0x8000_0000_0000_0000 then windowSecs else windowSecs - 0x1_0000_0000_0000_0000;
         && 2 * Abs(a * w * tvl - fee * 31_536_000 * 1_000_000_000_000_000_000) <= tvl * (Abs(w) + 31_536_000)
         && (w != windowSecs ==> a <= 0)
  {
    hide FloatString;
    hide SetFrac;
    hide ReadDecimal;
    hide ComputeAPR;
    hide Round;
    AsInt64Exact(windowSecs);
    hide AsInt64;
    var w := AsInt64(windowSecs);
    var r := Round(fee * 1_000_000_000_000_000_000, tvl);
    var a := Round(r * 31_536_000, Abs(w));
    RateReads(fee, tvl);
    AprReads(ComputeRate(Some(fee), Some(tvl)).value, r, windowSecs);
    RoundError(fee * 1_000_000_000_000_000_000, tvl);
    RoundError(r * 31_536_000, Abs(w));
    TwoRoundings(fee * 1_000_000_000_000_000_000, tvl, r, a, Abs(w), 31_536_000);
    var signed: int := if w < 0 then -(a as int) else a;
    assert signed * w == a * Abs(w);
  }

  /** Two nested roundings add their errors. */
  lemma TwoRoundings(x: int, tvl: nat, r: int, a: int, w: nat, year: nat)
    requires -(tvl as int) <= 2 * (tvl * r - x) <= tvl
    requires -(w as int) <= 2 * (w * a - r * year) <= w
    ensures 2 * Abs(a * w * tvl - x * year) <= tvl * (w + year)
  {
    var inner, outer := tvl * r - x, w * a - r * year;
    assert a * w * tvl - x * year == tvl * outer + year * inner;
    assert tvl * (2 * outer) <= tvl * w && tvl * (-2 * outer) <= tvl * w;
    assert tvl * (2 * outer) == 2 * (tvl * outer) && tvl * (-2 * outer) == -2 * (tvl * outer);
    assert tvl * (w + year) == tvl * w + tvl * year;
    assert year * (2 * inner) <= year * tvl && year * (-2 * inner) <= year * tvl;
    assert year * (2 * inner) == 2 * (year * inner) && year * (-2 * inner) == -2 * (year * inner);
  }
}
