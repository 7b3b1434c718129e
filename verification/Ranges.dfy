/** Splitting a block interval into batches, with 64-bit arithmetic. */
module Ranges {
  import opened Base

  datatype BlockRange = BlockRange(from: uint64, to: uint64)

  lemma WrapFits(x: int)
    ensures 0 <= x < TWO_64 ==> Wrap64(x) == x
    ensures x == TWO_64 ==> Wrap64(x) == 0
  {
  }

  /** The whole 64-bit range, whose number of blocks does not fit in 64 bits. */
  predicate IsEverything(from: uint64, to: uint64) {
    from == 0 && to == TWO_64 - 1
  }

  /**
   * The end of the batch that starts at `start`; `remaining` is computed in a 64-bit register.  No step of the
   * computation leaves the register's range, except the count of the whole 64-bit range, which reads as 0.
   */
  function BatchEnd(start: uint64, to: uint64, batchSize: uint64): (end: uint64)
    requires start <= to && batchSize > 0
    ensures end == if to - start < batchSize || IsEverything(start, to) then to else start + batchSize - 1
  {
    WrapFits(to - start);
    WrapFits(to - start + 1);
    WrapFits(start + batchSize);
    WrapFits(start + batchSize - 1);
    var remaining := Wrap64(Wrap64(to - start) + 1);
    if remaining <= batchSize then to else Wrap64(Wrap64(start + batchSize) - 1)
  }

  /** The batches of [from, to]. */
  function Split(from: uint64, to: uint64, batchSize: uint64): seq<BlockRange>
    requires from <= to && batchSize > 0
    decreases TWO_64 - from
  {
    var end := BatchEnd(from, to, batchSize);
    [BlockRange(from, end)] + if end == to then [] else Split(end + 1, to, batchSize)
  }

  lemma SplitUnfold(from: uint64, to: uint64, batchSize: uint64)
    requires from <= to && batchSize > 0
    ensures var end, ranges := BatchEnd(from, to, batchSize), Split(from, to, batchSize);
      && ranges != [] && ranges[0] == BlockRange(from, end)
      && ranges[1..] == if end == to then [] else Split(end + 1, to, batchSize)
  {
    hide BatchEnd;
  }

  lemma SplitStep(done: seq<BlockRange>, start: uint64, to: uint64, batchSize: uint64)
    requires start <= to && batchSize > 0
    ensures var end := BatchEnd(start, to, batchSize);
      done + Split(start, to, batchSize) ==
        done + [BlockRange(start, end)] + (if end == to then [] else Split(end + 1, to, batchSize))
  {
    hide BatchEnd;
  }

  method SplitRange(from: uint64, to: uint64, batchSize: uint64) returns (r: Result<seq<BlockRange>>)
    ensures r == if batchSize == 0 || to < from then Err else Ok(Split(from, to, batchSize))
  {
    hide Wrap64;
    hide Split;
    if batchSize == 0 {
      return Err;
    }
    if to < from {
      return Err;
    }
    var ranges: seq<BlockRange> := [];
    var start := from;
    while start <= to
      invariant start <= to && ranges + Split(start, to, batchSize) == Split(from, to, batchSize)
      decreases TWO_64 - start
    {
      var remaining := Wrap64(Wrap64(to - start) + 1);
      var end: uint64;
      if remaining <= batchSize {
        end := to;
      } else {
        end := Wrap64(Wrap64(start + batchSize) - 1);
      }
      assert end == BatchEnd(start, to, batchSize);
      SplitStep(ranges, start, to, batchSize);
      ranges := ranges + [BlockRange(start, end)];
      if end == to {
        assert ranges + [] == ranges;
        break;
      }
      WrapFits(end + 1);
      start := Wrap64(end + 1);
    }
    r := Ok(ranges);
  }

  /** Non-empty, ascending, adjacent ranges that cover [from, to]. */
  predicate IsPartition(ranges: seq<BlockRange>, from: uint64, to: uint64) {
    && ranges != []
    && ranges[0].from == from && ranges[|ranges| - 1].to == to
    && (forall i :: 0 <= i < |ranges| ==> ranges[i].from <= ranges[i].to)
    && (forall i :: 0 <= i < |ranges| - 1 ==> ranges[i + 1].from == ranges[i].to + 1)
  }

  function Width(r: BlockRange): int {
    r.to - r.from + 1
  }

  /** The batches partition the interval, for every interval and batch size. */
  lemma {:induction false} SplitIsPartition(from: uint64, to: uint64, batchSize: uint64)
    requires from <= to && batchSize > 0
    ensures IsPartition(Split(from, to, batchSize), from, to)
    decreases TWO_64 - from
  {
    hide BatchEnd;
    hide Split;
    SplitUnfold(from, to, batchSize);
    var end := BatchEnd(from, to, batchSize);
    if end != to {
      SplitIsPartition(end + 1, to, batchSize);
    }
  }

  /** No batch is wider than asked exactly when the interval is not the whole 64-bit range. */
  lemma {:induction false} SplitWidths(from: uint64, to: uint64, batchSize: uint64)
    requires from <= to && batchSize > 0
    ensures var ranges := Split(from, to, batchSize);
      && (forall i :: 0 <= i < |ranges| - 1 ==> Width(ranges[i]) == batchSize)
      && (Width(ranges[|ranges| - 1]) <= batchSize <==> !IsEverything(from, to))
      && (IsEverything(from, to) ==> ranges == [BlockRange(from, to)])
    decreases TWO_64 - from
  {
    hide BatchEnd;
    hide Split;
    SplitUnfold(from, to, batchSize);
    var end := BatchEnd(from, to, batchSize);
    if end != to {
      SplitWidths(end + 1, to, batchSize);
    }
  }

  /** There are ceil(blocks / batchSize) batches, unless the interval is the whole 64-bit range. */
  lemma {:induction false} SplitCount(from: uint64, to: uint64, batchSize: uint64)
    requires from <= to && batchSize > 0 && !IsEverything(from, to)
    ensures var n := |Split(from, to, batchSize)|; (n - 1) * batchSize < to - from + 1 <= n * batchSize
    decreases TWO_64 - from
  {
    hide BatchEnd;
    hide Split;
    SplitUnfold(from, to, batchSize);
    var end := BatchEnd(from, to, batchSize);
    if end != to {
      SplitCount(end + 1, to, batchSize);
      var n := |Split(end + 1, to, batchSize)|;
      assert |Split(from, to, batchSize)| == n + 1;
      assert (n + 1) * batchSize == n * batchSize + batchSize;
      assert n * batchSize == (n - 1) * batchSize + batchSize;
    }
  }
}
