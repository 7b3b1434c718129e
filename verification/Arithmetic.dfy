/**
 * The few facts about products and Euclidean division that the other modules use.  `Times` and `Remainder` are the
 * product and the remainder of two variables by recursion, so that unfolding them asks for linear arithmetic only.
 */
module Arithmetic {

  lemma ScaleAtLeast(w: nat, d: int)
    requires w > 0
    ensures d >= 1 ==> w * d >= w
    ensures d <= -1 ==> w * d <= -(w as int)
  {
  }

  /** Quotient and remainder are determined by the division equation. */
  lemma QuotientUnique(x: nat, w: nat, q: nat, r: nat)
    requires w > 0 && x == w * q + r && r < w
    ensures x / w == q && x % w == r
  {
    var d := x / w - q;
    assert w * d == w * (x / w) - w * q == r - x % w;
    ScaleAtLeast(w, d);
  }

  lemma Associate(a: nat, b: nat, c: nat)
    ensures (a * b) * c == a * (b * c)
  {
  }

  lemma Distribute(a: nat, b: nat, c: nat)
    ensures a * (b + c) == a * b + a * c && (b + c) * a == b * a + c * a
  {
  }

  lemma ScaleOrder(g: nat, x: int, y: int)
    requires g > 0
    ensures x <= y <==> g * x <= g * y
  {
    assert g * (y - x) == g * y - g * x;
    ScaleAtLeast(g, y - x);
  }

  function Times(a: nat, n: nat): nat {
    if n == 0 then 0 else Times(a, n - 1) + a
  }

  lemma {:induction false} TimesIsProduct(a: nat, n: nat)
    ensures Times(a, n) == a * n
  {
    if n > 0 {
      TimesIsProduct(a, n - 1);
      Distribute(a, n - 1, 1);
    }
  }

  function Remainder(a: nat, n: nat): (r: nat)
    requires n > 0
    ensures r <= a && r < n
  {
    if a < n then a else Remainder(a - n, n)
  }

  lemma {:induction false} RemainderIsMod(a: nat, n: nat)
    requires n > 0
    ensures Remainder(a, n) == a % n
  {
    if a < n {
      QuotientUnique(a, n, 0, a);
    } else {
      RemainderIsMod(a - n, n);
      QuotientUnique(a, n, (a - n) / n + 1, (a - n) % n);
    }
  }
}
