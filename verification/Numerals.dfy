/** Decimal text of integers: the printer behind `big.Int.String` and the reader behind `parseBigInt`. */
module Numerals {
  import opened Base

  function DigitChar(d: nat): char
    requires d < 10
  {
    (d + '0' as int) as char
  }

  predicate IsDigit(c: char) {
    '0' <= c <= '9'
  }

  function DigitValue(c: char): nat
    requires IsDigit(c)
  {
    c as int - '0' as int
  }

  predicate AllDigits(s: string) {
    forall i :: 0 <= i < |s| ==> IsDigit(s[i])
  }

  /** Canonical decimal digits of a natural number: no leading zero except for zero itself. */
  function Digits(n: nat): (s: string)
    ensures |s| > 0 && AllDigits(s)
    ensures s[0] == '0' ==> n == 0
    ensures n > 0 ==> s[0] != '0'
  {
    if n < 10 then [DigitChar(n)] else Digits(n / 10) + [DigitChar(n % 10)]
  }

  /** The number a digit string denotes; leading zeros are allowed and the empty string denotes 0. */
  function DigitsValue(s: string): nat
    requires AllDigits(s)
  {
    if s == [] then 0 else 10 * DigitsValue(s[..|s| - 1]) + DigitValue(s[|s| - 1])
  }

  lemma {:induction false} DigitsRoundTrip(n: nat)
    ensures DigitsValue(Digits(n)) == n
  {
    var s := Digits(n);
    if n < 10 {
      assert s[..|s| - 1] == [];
    } else {
      assert s[..|s| - 1] == Digits(n / 10);
      DigitsRoundTrip(n / 10);
    }
  }

  lemma DigitsInjective(a: nat, b: nat)
    requires Digits(a) == Digits(b)
    ensures a == b
  {
    DigitsRoundTrip(a);
    DigitsRoundTrip(b);
  }

  function PrintInt(v: int): string {
    if v < 0 then "-" + Digits(-v) else Digits(v)
  }

  /** `big.Int.SetString(s, 10)`: an optional sign and at least one digit. */
  function SetString(s: string): Option<int> {
    if s == "" then None
    else if s[0] == '-' || s[0] == '+' then
      if |s| == 1 || !AllDigits(s[1..]) then None
      else if s[0] == '-' then Some(-(DigitsValue(s[1..]) as int))
      else Some(DigitsValue(s[1..]))
    else if AllDigits(s) then Some(DigitsValue(s))
    else None
  }

  /** `parseBigInt`: the empty string reads as zero, everything else must be a decimal integer. */
  function ParseBigInt(s: string): Option<int> {
    if s == "" then Some(0) else SetString(s)
  }

  /** Every printed integer is read back unchanged. */
  lemma ParsePrintedInt(v: int)
    ensures ParseBigInt(PrintInt(v)) == Some(v)
  {
    DigitsRoundTrip(if v < 0 then -v else v);
    if v < 0 {
      assert PrintInt(v)[1..] == Digits(-v);
    }
  }

  /** Printed numbers are decimal: a digit more is the number times ten plus the digit. */
  lemma PrintsDecimal(n: nat, d: nat)
    requires d < 10
    ensures PrintInt(d) == ["0123456789"[d]]
    ensures n > 0 ==> PrintInt(10 * n + d) == PrintInt(n) + ["0123456789"[d]]
    ensures n > 0 ==> PrintInt(-(n as int)) == "-" + PrintInt(n)
  {
    assert DigitChar(d) == "0123456789"[d];
  }

  /** What is read as an integer: nothing at all, or an optional sign and at least one digit. */
  lemma ParsesIntegers(s: string)
    ensures var body := if s != "" && (s[0] == '-' || s[0] == '+') then s[1..] else s;
      ParseBigInt(s).Some? <==> s == "" || (body != "" && forall c :: c in body ==> c in "0123456789")
  {
    var body := if s != "" && (s[0] == '-' || s[0] == '+') then s[1..] else s;
    forall c: char
      ensures c in "0123456789" <==> IsDigit(c)
    {
      DigitsInText(c);
    }
    assert forall i :: 0 <= i < |body| ==> body[i] in body;
  }

  lemma DigitsInText(c: char)
    ensures c in "0123456789" <==> IsDigit(c)
  {
    var text := "0123456789";
    assert forall i :: 0 <= i < 10 ==> text[i] as int == '0' as int + i;
    if IsDigit(c) {
      assert text[c as int - '0' as int] == c;
    }
  }

  /** The value read: empty text is 0, a digit more counts ten times what stands before it, a sign negates. */
  lemma ParsesDecimal(s: string, d: nat)
    requires d < 10 && AllDigits(s)
    ensures ParseBigInt("") == Some(0)
    ensures ParseBigInt(s).Some? && ParseBigInt(s + ["0123456789"[d]]) == Some(10 * ParseBigInt(s).value + d)
    ensures s != "" ==> ParseBigInt("+" + s) == ParseBigInt(s) && ParseBigInt("-" + s) == Some(-ParseBigInt(s).value)
  {
    var c := "0123456789"[d];
    assert c == DigitChar(d);
    assert (s + [c])[..|s|] == s && AllDigits(s + [c]);
    assert DigitsValue(s + [c]) == 10 * DigitsValue(s) + d;
    assert IsDigit((s + [c])[0]);
    assert ("+" + s)[1..] == s && ("-" + s)[1..] == s;
  }
}
