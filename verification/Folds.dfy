/** Sums, least and greatest values of an integer measure over a finite set. */
module Folds {

  ghost function Sum<T>(f: T -> int, s: set<T>): int {
    if s == {} then 0 else
      var x :| x in s;
      f(x) + Sum(f, s - {x})
  }

  /** The order in which the elements are summed does not matter. */
  lemma {:induction false} SumPick<T>(f: T -> int, s: set<T>, x: T)
    requires x in s
    ensures Sum(f, s) == f(x) + Sum(f, s - {x})
    decreases |s|
  {
    var y :| y in s && Sum(f, s) == f(y) + Sum(f, s - {y});
    if x != y {
      SumPick(f, s - {y}, x);
      SumPick(f, s - {x}, y);
      assert s - {y} - {x} == s - {x} - {y};
    }
  }

  lemma SumOne<T>(f: T -> int, x: T)
    ensures Sum(f, {x}) == f(x)
  {
  }

  lemma {:induction false} SumUnion<T>(f: T -> int, a: set<T>, b: set<T>)
    requires a !! b
    ensures Sum(f, a + b) == Sum(f, a) + Sum(f, b)
    decreases |a|
  {
    if a == {} {
      assert a + b == b;
    } else {
      var x :| x in a;
      SumPick(f, a, x);
      SumPick(f, a + b, x);
      SumUnion(f, a - {x}, b);
      assert a + b - {x} == (a - {x}) + b;
    }
  }

  lemma SumInsert<T>(f: T -> int, a: set<T>, x: T)
    requires x !in a
    ensures Sum(f, a + {x}) == Sum(f, a) + f(x)
  {
    SumUnion(f, a, {x});
    SumOne(f, x);
  }

  lemma OneMore(a: int, n: int)
    ensures a * (n + 1) == a * n + a
  {
  }

  /** A measure bounded on every element bounds the sum. */
  lemma {:induction false} SumBounds<T>(f: T -> int, s: set<T>, lo: int, hi: int)
    requires forall x :: x in s ==> lo <= f(x) <= hi
    ensures lo * |s| <= Sum(f, s) <= hi * |s|
    decreases |s|
  {
    if s != {} {
      var x :| x in s;
      SumPick(f, s, x);
      SumBounds(f, s - {x}, lo, hi);
      var n := |s - {x}|;
      assert |s| == n + 1;
      OneMore(lo, n);
      OneMore(hi, n);
    }
  }

  ghost predicate IsLeast<T>(f: T -> int, s: set<T>, v: int) {
    (exists x :: x in s && f(x) == v) && forall x :: x in s ==> v <= f(x)
  }

  ghost predicate IsGreatest<T>(f: T -> int, s: set<T>, v: int) {
    (exists x :: x in s && f(x) == v) && forall x :: x in s ==> f(x) <= v
  }

  function Min(a: int, b: int): int { if b < a then b else a }

  function Max(a: int, b: int): int { if b > a then b else a }

  lemma LeastOfUnion<T>(f: T -> int, a: set<T>, b: set<T>, u: int, v: int)
    requires IsLeast(f, a, u) && IsLeast(f, b, v)
    ensures IsLeast(f, a + b, Min(u, v))
  {
  }

  lemma GreatestOfUnion<T>(f: T -> int, a: set<T>, b: set<T>, u: int, v: int)
    requires IsGreatest(f, a, u) && IsGreatest(f, b, v)
    ensures IsGreatest(f, a + b, Max(u, v))
  {
  }

  /** The union of the first n sets. */
  ghost function UnionTo<T>(sets: seq<set<T>>, n: nat): set<T>
    requires n <= |sets|
  {
    if n == 0 then {} else UnionTo(sets, n - 1) + sets[n - 1]
  }

  lemma {:induction false} UnionToHas<T>(sets: seq<set<T>>, n: nat, x: T)
    requires n <= |sets|
    ensures x in UnionTo(sets, n) <==> exists k :: 0 <= k < n && x in sets[k]
  {
    if n > 0 { UnionToHas(sets, n - 1, x); }
  }

  ghost predicate PairwiseDisjoint<T>(sets: seq<set<T>>) {
    forall k, l :: 0 <= k < l < |sets| ==> sets[k] !! sets[l]
  }

  /** The sum of the sums over the first n sets. */
  ghost function SumsTo<T>(f: T -> int, sets: seq<set<T>>, n: nat): int
    requires n <= |sets|
  {
    if n == 0 then 0 else SumsTo(f, sets, n - 1) + Sum(f, sets[n - 1])
  }

  /** Over disjoint sets, the sums add up to the sum of the union. */
  lemma {:induction false} SumOfUnionTo<T>(f: T -> int, sets: seq<set<T>>, n: nat)
    requires PairwiseDisjoint(sets) && n <= |sets|
    ensures Sum(f, UnionTo(sets, n)) == SumsTo(f, sets, n)
  {
    if n > 0 {
      SumOfUnionTo(f, sets, n - 1);
      var before := UnionTo(sets, n - 1);
      forall x | x in before
        ensures x !in sets[n - 1]
      {
        UnionToHas(sets, n - 1, x);
      }
      SumUnion(f, before, sets[n - 1]);
    }
  }
}
