/** Rearranging sequences. */
module Permutations {

  lemma SameMembers<T>(p: seq<T>, q: seq<T>)
    requires multiset(p) == multiset(q)
    ensures forall x :: x in p <==> x in q
  {
    assert forall x :: x in p <==> x in multiset(p);
    assert forall x :: x in q <==> x in multiset(q);
  }

  /** Any element can be made the last one. */
  lemma MoveLast<T>(s: seq<T>, x: T) returns (rest: seq<T>)
    requires x in s
    ensures multiset(rest + [x]) == multiset(s) && |rest| == |s| - 1
  {
    var i :| 0 <= i < |s| && s[i] == x;
    rest := s[..i] + s[i + 1..];
    assert s == s[..i] + [x] + s[i + 1..];
  }
}
