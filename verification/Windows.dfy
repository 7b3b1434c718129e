/** Fixed-size time windows. */
module Windows {
  import opened Arithmetic

  /** The start of the window of size `w` that holds `ts`. */
  function WindowStart(ts: nat, w: nat): (start: nat)
    requires w > 0
    ensures start <= ts < start + w
  {
    ts - Remainder(ts, w)
  }

  /** It is computed as in the source. */
  lemma WindowStartIsMod(ts: nat, w: nat)
    requires w > 0
    ensures WindowStart(ts, w) == ts - ts % w
  {
    RemainderIsMod(ts, w);
  }

  /** `t` is a multiple of `w`. */
  predicate IsBoundary(t: nat, w: nat)
    requires w > 0
  {
    Remainder(t, w) == 0
  }

  lemma BoundaryIsMultiple(t: nat, w: nat)
    requires w > 0
    ensures IsBoundary(t, w) <==> t % w == 0
  {
    RemainderIsMod(t, w);
  }

  lemma WindowStartAligned(ts: nat, w: nat)
    requires w > 0
    ensures IsBoundary(WindowStart(ts, w), w)
  {
    WindowStartIsMod(ts, w);
    QuotientUnique(WindowStart(ts, w), w, ts / w, 0);
    BoundaryIsMultiple(WindowStart(ts, w), w);
  }

  /** The window of a timestamp is the only aligned one around it. */
  lemma WindowStartUnique(ts: nat, w: nat, start: nat)
    requires w > 0 && IsBoundary(start, w) && start <= ts < start + w
    ensures WindowStart(ts, w) == start
  {
    BoundaryIsMultiple(start, w);
    WindowStartIsMod(ts, w);
    QuotientUnique(ts, w, start / w, ts - start);
  }

  /** No window reaches back over an aligned boundary. */
  lemma WindowAfterBoundary(ts: nat, w: nat, boundary: nat)
    requires w > 0 && IsBoundary(boundary, w) && boundary <= ts
    ensures boundary <= WindowStart(ts, w)
  {
    var d := ts / w - boundary / w;
    BoundaryIsMultiple(boundary, w);
    WindowStartIsMod(ts, w);
    assert w * d == w * (ts / w) - w * (boundary / w) == WindowStart(ts, w) - boundary;
    ScaleAtLeast(w, d);
    if d == 0 {
      assert w * d == 0;
    }
  }

  lemma WindowStartMonotone(a: nat, b: nat, w: nat)
    requires w > 0 && a <= b
    ensures WindowStart(a, w) <= WindowStart(b, w)
  {
    WindowStartAligned(a, w);
    WindowAfterBoundary(b, w, WindowStart(a, w));
  }
}
