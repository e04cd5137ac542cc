/** Reachability along a relation, by finite paths. */
module Reach {

  ghost predicate IsPath<T>(adj: (T, T) -> bool, p: seq<T>) {
    p != [] && forall i :: 0 <= i < |p| - 1 ==> adj(p[i], p[i + 1])
  }

  ghost predicate Reaches<T(!new)>(adj: (T, T) -> bool, a: T, b: T) {
    exists p: seq<T> :: IsPath(adj, p) && p[0] == a && p[|p| - 1] == b
  }

  ghost predicate Symmetric<T(!new)>(adj: (T, T) -> bool) {
    forall x, y :: adj(x, y) ==> adj(y, x)
  }

  lemma ReachesSelf<T(!new)>(adj: (T, T) -> bool, a: T)
    ensures Reaches(adj, a, a)
  {
    assert IsPath(adj, [a]) && [a][0] == a;
  }

  lemma ReachesStep<T(!new)>(adj: (T, T) -> bool, a: T, b: T)
    requires adj(a, b)
    ensures Reaches(adj, a, b)
  {
    var p := [a, b];
    assert IsPath(adj, p) && p[0] == a && p[|p| - 1] == b;
  }

  lemma ReachesTrans<T(!new)>(adj: (T, T) -> bool, a: T, b: T, c: T)
    requires Reaches(adj, a, b) && Reaches(adj, b, c)
    ensures Reaches(adj, a, c)
  {
    var p: seq<T> :| IsPath(adj, p) && p[0] == a && p[|p| - 1] == b;
    var q: seq<T> :| IsPath(adj, q) && q[0] == b && q[|q| - 1] == c;
    var r := p + q[1..];
    forall i | 0 <= i < |r| - 1
      ensures adj(r[i], r[i + 1])
    {
      if i >= |p| - 1 {
        var j := i - (|p| - 1);
        assert r[i] == q[j] && r[i + 1] == q[j + 1];
      }
    }
    assert IsPath(adj, r) && r[0] == a && r[|r| - 1] == c;
  }

  lemma ReachesSym<T(!new)>(adj: (T, T) -> bool, a: T, b: T)
    requires Symmetric(adj) && Reaches(adj, a, b)
    ensures Reaches(adj, b, a)
  {
    var p: seq<T> :| IsPath(adj, p) && p[0] == a && p[|p| - 1] == b;
    var r := seq(|p|, i requires 0 <= i < |p| => p[|p| - 1 - i]);
    forall i | 0 <= i < |r| - 1
      ensures adj(r[i], r[i + 1])
    {
      var j := |p| - 2 - i;
      assert adj(p[j], p[j + 1]);
    }
    assert IsPath(adj, r) && r[0] == b && r[|r| - 1] == a;
  }

  ghost predicate Closed<T(!new)>(adj: (T, T) -> bool, s: set<T>) {
    forall x, y :: x in s && adj(x, y) ==> y in s
  }

  /** A set closed under the relation holds everything reachable from its elements. */
  lemma ClosedHoldsReachable<T(!new)>(adj: (T, T) -> bool, s: set<T>, a: T, b: T)
    requires Closed(adj, s) && a in s && Reaches(adj, a, b)
    ensures b in s
  {
    var p: seq<T> :| IsPath(adj, p) && p[0] == a && p[|p| - 1] == b;
    var i := 0;
    while i < |p| - 1
      invariant 0 <= i < |p| && p[i] in s
    {
      assert adj(p[i], p[i + 1]);
      i := i + 1;
    }
  }
}
