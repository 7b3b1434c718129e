/** The search for the oldest open window, for every order in which the accumulator map may be visited. */
module Scans {
  import opened Permutations

  /** The minimum search of `minOpenWindowStart` over the windows in iteration order: 0 stands for unset. */
  function Scan(starts: seq<nat>): nat {
    if starts == [] then 0
    else
      var min, last := Scan(starts[..|starts| - 1]), starts[|starts| - 1];
      if min == 0 || last < min then last else min
  }

  /** With no window at 0 the search finds the least start. */
  lemma {:induction false} ScanIsLeast(starts: seq<nat>)
    requires starts != [] && forall s :: s in starts ==> s > 0
    ensures Scan(starts) in starts && forall s :: s in starts ==> Scan(starts) <= s
  {
    var init, last := starts[..|starts| - 1], starts[|starts| - 1];
    assert starts == init + [last];
    assert forall s :: s in init ==> s in starts;
    if init != [] {
      ScanIsLeast(init);
    }
    assert last in starts;
  }

  lemma ScanAfterZero(starts: seq<nat>, last: nat)
    ensures Scan(starts + [0]) == 0 && Scan(starts + [0, last]) == last
  {
    assert (starts + [0])[..|starts|] == starts;
    assert (starts + [0, last])[..|starts| + 1] == starts + [0];
  }

  /**
   * The search is right for every iteration order exactly when no open window starts at 0, or all do: the
   * window visited after one that starts at 0 replaces it.
   */
  lemma ScanRightInEveryOrder(starts: seq<nat>)
    requires starts != []
    ensures (forall p: seq<nat> :: multiset(p) == multiset(starts) ==> forall s :: s in starts ==> Scan(p) <= s)
      <==> (0 !in starts || forall s :: s in starts ==> s == 0)
  {
    if 0 !in starts {
      forall p: seq<nat> | multiset(p) == multiset(starts)
        ensures forall s :: s in starts ==> Scan(p) <= s
      {
        SameMembers(p, starts);
        assert starts[0] in p;
        ScanIsLeast(p);
      }
    } else if forall s :: s in starts ==> s == 0 {
      forall p: seq<nat> | multiset(p) == multiset(starts)
        ensures Scan(p) == 0
      {
        SameMembers(p, starts);
        ScanOfZeros(p);
      }
    } else {
      var s :| s in starts && s != 0;
      var p := ZeroBeforeLast(starts, s);
      assert Scan(p) == s && 0 in starts;
    }
  }

  lemma {:induction false} ScanOfZeros(p: seq<nat>)
    requires forall s :: s in p ==> s == 0
    ensures Scan(p) == 0
  {
    if p != [] {
      var init := p[..|p| - 1];
      assert forall s :: s in init ==> s in p;
      assert p[|p| - 1] in p;
      ScanOfZeros(init);
    }
  }

  lemma ZeroBeforeLast(starts: seq<nat>, s: nat) returns (p: seq<nat>)
    requires 0 in starts && s in starts && s != 0
    ensures multiset(p) == multiset(starts) && Scan(p) == s
  {
    var rest := MoveLast(starts, s);
    SameMembers(rest + [s], starts);
    var others := MoveLast(rest, 0);
    p := others + [0, s];
    assert p == (others + [0]) + [s];
    ScanAfterZero(others, s);
  }
}
