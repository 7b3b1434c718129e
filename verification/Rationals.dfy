/** Exact rationals and their decimal printing, as `math/big` does it. */
module Rationals {
  import opened Arithmetic
  import opened Base
  import opened Numerals

  function Pow10(n: nat): (p: nat)
    ensures p > 0
  {
    if n == 0 then 1 else 10 * Pow10(n - 1)
  }

  /** A normalised fraction: `a / b`, negative when `neg`. */
  datatype Rat = Rat(neg: bool, a: nat, b: nat)

  function Gcd(a: nat, b: nat): (g: nat)
    requires a > 0 || b > 0
    ensures g > 0
    decreases b
  {
    if b == 0 then a else Gcd(b, a % b)
  }

  lemma {:induction false} GcdDivides(a: nat, b: nat)
    requires a > 0 || b > 0
    ensures a == Gcd(a, b) * (a / Gcd(a, b)) && b == Gcd(a, b) * (b / Gcd(a, b))
    decreases b
  {
    if b == 0 {
      QuotientUnique(a, a, 1, 0);
      QuotientUnique(0, a, 0, 0);
    } else {
      GcdDivides(b, a % b);
      CommonFactor(a, b, Gcd(b, a % b));
    }
  }

  /** Every common divisor divides it, so dividing by it leaves lowest terms. */
  lemma {:induction false} GcdGreatest(a: nat, b: nat, d: nat)
    requires (a > 0 || b > 0) && d > 0 && a % d == 0 && b % d == 0
    ensures Gcd(a, b) % d == 0
    decreases b
  {
    if b > 0 {
      var q, x, y := a / b, a / d, b / d;
      assert a == b * q + a % b && a == d * x && b == d * y;
      Associate(d, y, q);
      assert a % b == d * x - d * (y * q) == d * (x - y * q);
      ScaleSign(d, x - y * q);
      QuotientUnique(a % b, d, x - y * q, 0);
      GcdGreatest(b, a % b, d);
    }
  }

  lemma ScaleSign(d: nat, n: int)
    requires d > 0 && d * n >= 0
    ensures n >= 0
  {
    ScaleAtLeast(d, n);
  }

  /** A factor of the divisor and the remainder is a factor of the dividend. */
  lemma CommonFactor(a: nat, b: nat, g: nat)
    requires b > 0 && g > 0 && b == g * (b / g) && a % b == g * ((a % b) / g)
    ensures a == g * (a / g)
  {
    var x, y, q := b / g, (a % b) / g, a / b;
    assert a == b * q + a % b;
    Associate(g, x, q);
    Distribute(g, x * q, y);
    QuotientUnique(a, g, x * q + y, 0);
  }

  function Divide(a: nat, g: nat): nat
    requires g > 0
  {
    a / g
  }

  function Modulo(a: nat, g: nat): nat
    requires g > 0
  {
    a % g
  }

  /** `Rat.SetFrac`: the fraction in lowest terms. */
  function SetFrac(num: int, den: int): (r: Rat)
    requires den != 0
    ensures r.b > 0
  {
    var a, b := Abs(num), Abs(den);
    var g := Gcd(a, b);
    GcdDivides(a, b);
    assert Divide(b, g) > 0;
    Rat(num != 0 && (num < 0) != (den < 0), Divide(a, g), Divide(b, g))
  }

  /** x / b rounded to the nearest integer, halves up. */
  function Round(x: nat, b: nat): nat
    requires b > 0
  {
    if b <= 2 * (x % b) then x / b + 1 else x / b
  }

  lemma RoundError(x: nat, b: nat)
    requires b > 0
    ensures -(b as int) <= 2 * (b * Round(x, b) - x) <= b
  {
    assert x == b * (x / b) + x % b;
    assert b * (x / b + 1) == b * (x / b) + b;
  }

  lemma RoundIsNear(x: nat, b: nat)
    requires b > 0
    ensures var m := Round(x, b); b * (2 * m) - b <= 2 * x < b * (2 * m) + b
  {
    var q, r := x / b, x % b;
    assert x == b * q + r;
    assert b * (2 * q) == 2 * (b * q) && b * (2 * (q + 1)) == 2 * (b * q) + 2 * b;
  }

  /** Rounding is to the nearest integer, and up when two are equally near. */
  lemma RoundIsNearest(x: nat, b: nat, n: nat)
    requires b > 0
    ensures Round(x, b) == n <==> b * (2 * n) - b <= 2 * x < b * (2 * n) + b
  {
    RoundIsNear(x, b);
    hide Round;
    var m := Round(x, b);
    var d := n - m;
    assert b * (2 * n) == b * (2 * m) + b * (2 * d);
    TwiceAtLeast(b, d);
  }

  lemma TwiceAtLeast(b: nat, d: int)
    requires b > 0
    ensures d >= 1 ==> b * (2 * d) >= 2 * b
    ensures d <= -1 ==> b * (2 * d) <= -2 * b
  {
    ScaleAtLeast(b, d);
    assert b * (2 * d) == 2 * (b * d);
    if d >= 1 {
      assert b * d >= b;
    }
  }

  /** Rounding does not see a common factor. */
  lemma RoundScale(x: nat, b: nat, g: nat)
    requires b > 0 && g > 0 && g * b > 0
    ensures Round(g * x, g * b) == Round(x, b)
  {
    var q, r := x / b, x % b;
    assert x == b * q + r;
    Associate(g, b, q);
    Distribute(g, b * q, r);
    ScaleOrder(g, b, r);
    QuotientUnique(g * x, g * b, q, g * r);
    ScaleOrder(g, b, 2 * r);
    Double(g, r);
  }

  lemma Double(g: nat, r: nat)
    ensures g * (2 * r) == 2 * (g * r)
  {
  }

  lemma RoundExact(v: nat, b: nat)
    requires b > 0
    ensures Round(v * b, b) == v
  {
    assert v * b == b * v + 0;
    QuotientUnique(v * b, b, v, 0);
  }

  function Zeros(n: nat): (s: string)
    ensures |s| == n && AllDigits(s)
  {
    if n == 0 then "" else Zeros(n - 1) + "0"
  }

  /** `r` in exactly `prec` digits, if it fits. */
  function Pad(r: nat, prec: nat): string {
    var s := Digits(r);
    if |s| < prec then Zeros(prec - |s|) + s else s
  }

  /** `Rat.FloatString`: integer part and `prec` fraction digits, the last one rounded to nearest. */
  function FloatString(x: Rat, prec: nat): string
    requires x.b > 0
  {
    var sign := if x.neg then "-" else "";
    if x.b == 1 then
      sign + Digits(x.a) + if prec > 0 then "." + Zeros(prec) else ""
    else
      var p := Pow10(prec);
      var q, scaled := Divide(x.a, x.b), Modulo(x.a, x.b) * p;
      var r := Divide(scaled, x.b);
      var r' := if x.b <= 2 * Modulo(scaled, x.b) then r + 1 else r;
      var (q'', r'') := if r' >= p then (q + 1, r' - p) else (q, r');
      sign + Digits(q'') + if prec > 0 then "." + Pad(r'', prec) else ""
  }

  /** The text of n / 10^prec. */
  function PrintFixed(neg: bool, n: nat, prec: nat): string {
    var p := Pow10(prec);
    (if neg then "-" else "") + Digits(Divide(n, p)) + if prec > 0 then "." + Pad(Modulo(n, p), prec) else ""
  }

  /** The digit-by-digit algorithm prints the correctly rounded scaled value. */
  lemma FloatStringIsRounded(x: Rat, prec: nat)
    requires x.b > 0
    ensures FloatString(x, prec) == PrintFixed(x.neg, Round(x.a * Pow10(prec), x.b), prec)
  {
    hide Digits;
    hide Pow10;
    hide Round;
    hide Pad;
    hide Zeros;
    var p := Pow10(prec);
    if x.b == 1 {
      RoundWhole(x.a, p);
      PadZero(prec);
    } else {
      RoundSplit(x.a, x.b, p);
    }
  }

  lemma RoundWhole(a: nat, p: nat)
    requires p > 0
    ensures Round(a * p, 1) == a * p && a * p / p == a && a * p % p == 0
  {
    RoundExact(a * p, 1);
    assert a * p == p * a + 0;
    QuotientUnique(a * p, p, a, 0);
  }

  /** The scaled fraction after the integer part, rounded. */
  function Fraction(a: nat, b: nat, p: nat): nat
    requires b > 0
  {
    var scaled := Modulo(a, b) * p;
    if b <= 2 * Modulo(scaled, b) then Divide(scaled, b) + 1 else Divide(scaled, b)
  }

  lemma RoundValue(a: nat, b: nat, p: nat)
    requires b > 0
    ensures Round(a * p, b) == p * (a / b) + Fraction(a, b, p)
  {
    SplitProduct(a, b, p);
  }

  /** Integer part and scaled fraction of a rounded fraction, with the carry. */
  lemma RoundSplit(a: nat, b: nat, p: nat)
    requires b > 0 && p > 0
    ensures var r, n := Fraction(a, b, p), Round(a * p, b);
      && (r >= p ==> n / p == a / b + 1 && n % p == r - p)
      && (r < p ==> n / p == a / b && n % p == r)
  {
    hide Round;
    RoundValue(a, b, p);
    FractionBound(a, b, p);
    hide Fraction;
    Carry(p, a / b, Fraction(a, b, p));
  }

  lemma FractionBound(a: nat, b: nat, p: nat)
    requires b > 0 && p > 0
    ensures Fraction(a, b, p) <= p
  {
    LessQuotient(a % b, b, p);
  }

  lemma Carry(p: nat, q: nat, r: nat)
    requires p > 0 && r <= p
    ensures var n := p * q + r;
      && (r >= p ==> n / p == q + 1 && n % p == r - p)
      && (r < p ==> n / p == q && n % p == r)
  {
    if r >= p {
      Distribute(p, q, 1);
      QuotientUnique(p * q + r, p, q + 1, 0);
    } else {
      QuotientUnique(p * q + r, p, q, r);
    }
  }

  lemma SplitProduct(a: nat, b: nat, p: nat)
    requires b > 0
    ensures a * p / b == p * (a / b) + (a % b * p) / b
    ensures a * p % b == (a % b * p) % b
  {
    SplitProductAt(a, b, a / b, a % b, p, (a % b * p) / b, (a % b * p) % b);
  }

  lemma SplitProductAt(a: nat, b: nat, q: nat, m: nat, p: nat, r: nat, e: nat)
    requires b > 0 && e < b && a == b * q + m && m * p == b * r + e
    ensures a * p / b == p * q + r && a * p % b == e
  {
    SplitFactor(a, b, q, m, p);
    Distribute(b, p * q, r);
    QuotientUnique(a * p, b, p * q + r, e);
  }

  lemma SplitFactor(a: nat, b: nat, q: nat, m: nat, p: nat)
    requires a == b * q + m
    ensures a * p == b * (p * q) + m * p
  {
    Distribute(p, b * q, m);
    Associate(b, q, p);
    Commute(q, p);
  }

  lemma Commute(q: nat, p: nat)
    ensures q * p == p * q
  {
  }

  lemma LessQuotient(m: nat, b: nat, p: nat)
    requires m < b && p > 0
    ensures m * p / b < p
  {
    var q := m * p / b;
    assert m * p == b * q + m * p % b;
    ScaleOrder(p, b, m);
    ScaleOrder(b, p, q);
    assert p * m == m * p && p * b == b * p;
  }

  lemma PadZero(prec: nat)
    ensures prec > 0 ==> Pad(0, prec) == Zeros(prec)
  {
    assert Digits(0) == "0";
  }

  /** Printing a fraction in lowest terms prints the rounded value of the unreduced one, with its sign. */
  lemma PrintFraction(num: int, den: int, prec: nat)
    requires den != 0
    ensures FloatString(SetFrac(num, den), prec)
         == PrintFixed(num != 0 && (num < 0) != (den < 0), Round(Abs(num) * Pow10(prec), Abs(den)), prec)
  {
    hide PrintFixed;
    hide FloatString;
    hide Round;
    hide Gcd;
    hide Pow10;
    var a, b := Abs(num), Abs(den);
    var g, x, p := Gcd(a, b), SetFrac(num, den), Pow10(prec);
    GcdDivides(a, b);
    assert x.a == a / g && x.b == b / g;
    FloatStringIsRounded(x, prec);
    Associate(g, x.a, p);
    RoundScale(x.a * p, x.b, g);
  }

  // ----- Reading back

  /** A decimal number: `scaled / 10^prec`. */
  datatype Decimal = Decimal(scaled: int, prec: nat)

  function IndexOfDot(s: string): (i: nat)
    ensures i <= |s|
    ensures i < |s| ==> s[i] == '.'
    ensures forall j :: 0 <= j < i ==> s[j] != '.'
  {
    if s == "" then 0 else if s[0] == '.' then 0 else 1 + IndexOfDot(s[1..])
  }

  function ReadUnsigned(s: string): Option<Decimal> {
    var i := IndexOfDot(s);
    var whole, fraction := s[..i], if i < |s| then s[i + 1..] else "";
    if whole == "" || !AllDigits(whole) || !AllDigits(fraction) then None
    else Some(Decimal(DigitsValue(whole + fraction), |fraction|))
  }

  /** The decimal texts `Rat.SetString` reads here: optional minus, digits, optional fraction. */
  function ReadDecimal(s: string): Option<Decimal> {
    if s != "" && s[0] == '-' then
      match ReadUnsigned(s[1..])
      case Some(d) => Some(Decimal(-d.scaled, d.prec))
      case None => None
    else ReadUnsigned(s)
  }

  lemma {:induction false} DigitsValueConcat(x: string, y: string)
    requires AllDigits(x) && AllDigits(y)
    ensures DigitsValue(x + y) == DigitsValue(x) * Pow10(|y|) + DigitsValue(y)
  {
    if y == "" {
      assert x + y == x;
    } else {
      var init := y[..|y| - 1];
      DigitsValueConcat(x, init);
      assert (x + y)[..|x + y| - 1] == x + init;
      assert 10 * (DigitsValue(x) * Pow10(|init|)) == DigitsValue(x) * Pow10(|y|);
    }
  }

  lemma {:induction false} ZerosValue(n: nat)
    ensures DigitsValue(Zeros(n)) == 0
  {
    if n > 0 {
      ZerosValue(n - 1);
      assert Zeros(n)[..n - 1] == Zeros(n - 1);
    }
  }

  lemma {:induction false} DigitsLength(r: nat, prec: nat)
    requires prec > 0 && r < Pow10(prec)
    ensures |Digits(r)| <= prec
  {
    if r >= 10 {
      assert prec > 1 by {
        assert Pow10(1) == 10 * Pow10(0) == 10;
      }
      DigitsLength(r / 10, prec - 1);
    }
  }

  lemma PadValue(r: nat, prec: nat)
    requires prec > 0 && r < Pow10(prec)
    ensures AllDigits(Pad(r, prec)) && |Pad(r, prec)| == prec && DigitsValue(Pad(r, prec)) == r
  {
    hide Digits;
    hide DigitsValue;
    DigitsLength(r, prec);
    DigitsRoundTrip(r);
    hide Pow10;
    var s := Digits(r);
    if |s| < prec {
      ZerosValue(prec - |s|);
      DigitsValueConcat(Zeros(prec - |s|), s);
      hide Zeros;
    }
  }

  lemma DotAfter(whole: string, fraction: string)
    requires AllDigits(whole)
    ensures IndexOfDot(whole + "." + fraction) == |whole|
    ensures IndexOfDot(whole) == |whole|
  {
    var s := whole + "." + fraction;
    assert forall j :: 0 <= j < |whole| ==> s[j] == whole[j] && IsDigit(whole[j]);
    assert s[|whole|] == '.';
  }

  /** Reading the unsigned text of n / 10^prec. */
  lemma ReadUnsignedPrinted(n: nat, prec: nat)
    ensures ReadUnsigned(PrintFixed(false, n, prec)) == Some(Decimal(n, prec))
    ensures PrintFixed(false, n, prec) != "" && IsDigit(PrintFixed(false, n, prec)[0])
  {
    hide Digits;
    hide DigitsValue;
    hide Pow10;
    hide Pad;
    var p := Pow10(prec);
    var whole := Digits(n / p);
    var s := PrintFixed(false, n, prec);
    DigitsRoundTrip(n / p);
    if prec > 0 {
      var fraction := Pad(n % p, prec);
      DotAfter(whole, fraction);
      PadValue(n % p, prec);
      DigitsValueConcat(whole, fraction);
      assert s == whole + "." + fraction;
      assert s[..|whole|] == whole && s[|whole| + 1..] == fraction;
      assert n == p * (n / p) + n % p;
    } else {
      DotAfter(whole, "");
      PowZero();
      assert s == whole && s[..|whole|] == whole && whole + "" == whole;
    }
  }

  /** The printed text reads back as the value it was printed from. */
  lemma ReadPrinted(neg: bool, n: nat, prec: nat)
    ensures ReadDecimal(PrintFixed(neg, n, prec)) == Some(Decimal(if neg then -(n as int) else n, prec))
  {
    hide Digits;
    hide Pow10;
    hide Pad;
    hide ReadUnsigned;
    ReadUnsignedPrinted(n, prec);
    if neg {
      assert PrintFixed(neg, n, prec) == "-" + PrintFixed(false, n, prec);
      assert PrintFixed(neg, n, prec)[1..] == PrintFixed(false, n, prec);
    }
  }

  lemma PowZero()
    ensures Pow10(0) == 1
  {
  }
}
