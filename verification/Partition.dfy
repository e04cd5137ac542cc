/** The partition a sequence of unions is meant to produce, independent of any forest. */
module Partition {
  import opened BlobStats
  import opened Reach
  import opened Forest

  type Edge = (Run, Run)

  ghost function EdgeAdj(edges: set<Edge>): (Run, Run) -> bool {
    (a, b) => (a, b) in edges || (b, a) in edges
  }

  /** Two runs joined by a chain of unions. */
  ghost predicate Connected(edges: set<Edge>, a: Run, b: Run) {
    Reaches(EdgeAdj(edges), a, b)
  }

  ghost predicate Together(blocks: set<set<Run>>, a: Run, b: Run) {
    exists x :: x in blocks && a in x && b in x
  }

  ghost predicate Touches(edges: set<Edge>, a: Run) {
    exists e :: e in edges && (e.0 == a || e.1 == a)
  }

  ghost predicate Disjoint(blocks: set<set<Run>>) {
    {} !in blocks && forall x, y :: x in blocks && y in blocks && x != y ==> x !! y
  }

  /** blocks is the partition of the joined runs generated by the unions in edges. */
  ghost predicate Generated(blocks: set<set<Run>>, edges: set<Edge>) {
    && Disjoint(blocks)
    && (forall e :: e in edges ==> Together(blocks, e.0, e.1))
    && (forall x, a, b :: x in blocks && a in x && b in x ==> Connected(edges, a, b))
    && (forall x, a :: x in blocks && a in x ==> Touches(edges, a))
  }

  /** The block that holds a run; a run in no block is on its own. */
  ghost function ClassOf(blocks: set<set<Run>>, a: Run): (r: set<Run>)
    ensures a in r
  {
    if exists x :: x in blocks && a in x then
      var x :| x in blocks && a in x; x
    else {a}
  }

  /** One union: the classes of a and b become one block, every other block is left alone. */
  ghost function JoinBlocks(blocks: set<set<Run>>, a: Run, b: Run): set<set<Run>> {
    blocks - {ClassOf(blocks, a), ClassOf(blocks, b)} + {ClassOf(blocks, a) + ClassOf(blocks, b)}
  }

  lemma JoinBlocksSym(blocks: set<set<Run>>, a: Run, b: Run)
    ensures JoinBlocks(blocks, a, b) == JoinBlocks(blocks, b, a)
  {
    assert ClassOf(blocks, a) + ClassOf(blocks, b) == ClassOf(blocks, b) + ClassOf(blocks, a);
  }

  lemma ClassOfIs(blocks: set<set<Run>>, a: Run, x: set<Run>)
    requires Disjoint(blocks) && x in blocks && a in x
    ensures ClassOf(blocks, a) == x
  {
  }

  lemma EdgeAdjSymmetric(edges: set<Edge>)
    ensures Symmetric(EdgeAdj(edges))
  {
  }

  lemma ConnectedMore(edges: set<Edge>, more: set<Edge>, a: Run, b: Run)
    requires Connected(edges, a, b) && edges <= more
    ensures Connected(more, a, b)
  {
  }

  lemma ClassIsClosed(blocks: set<set<Run>>, edges: set<Edge>, a: Run)
    requires Generated(blocks, edges)
    ensures Closed(EdgeAdj(edges), ClassOf(blocks, a))
  {
  }

  /** Two different runs share a block if and only if the unions connect them. */
  lemma TogetherIffConnected(blocks: set<set<Run>>, edges: set<Edge>, a: Run, b: Run)
    requires Generated(blocks, edges) && a != b
    ensures Together(blocks, a, b) <==> Connected(edges, a, b)
  {
    if Connected(edges, a, b) {
      ClassIsClosed(blocks, edges, a);
      ClosedHoldsReachable(EdgeAdj(edges), ClassOf(blocks, a), a, b);
    }
  }

  /** The unions determine the partition: their order does not matter. */
  lemma GeneratedIsUnique(p: set<set<Run>>, q: set<set<Run>>, edges: set<Edge>)
    requires Generated(p, edges) && Generated(q, edges)
    ensures p == q
  {
    forall x | x in p
      ensures x in q
    {
      BlockIsShared(p, q, edges, x);
    }
    forall x | x in q
      ensures x in p
    {
      BlockIsShared(q, p, edges, x);
    }
  }

  lemma BlockIsShared(p: set<set<Run>>, q: set<set<Run>>, edges: set<Edge>, x: set<Run>)
    requires Generated(p, edges) && Generated(q, edges) && x in p
    ensures x in q
  {
    assert x != {};
    var a :| a in x;
    assert Touches(edges, a);
    var e :| e in edges && (e.0 == a || e.1 == a);
    assert Together(q, e.0, e.1);
    var y :| y in q && a in y;
    forall b | b in x
      ensures b in y
    {
      if b != a { TogetherIffConnected(q, edges, a, b); }
    }
    forall b | b in y
      ensures b in x
    {
      if b != a { TogetherIffConnected(p, edges, a, b); }
    }
    assert x == y;
  }

  // ----- A union keeps the partition generated -----

  lemma ConnectedToOwnClass(blocks: set<set<Run>>, edges: set<Edge>, a: Run, c: Run)
    requires Generated(blocks, edges) && c in ClassOf(blocks, a)
    ensures Connected(edges, a, c) && Connected(edges, c, a)
  {
    ReachesSelf(EdgeAdj(edges), a);
  }

  lemma JoinConnects(blocks: set<set<Run>>, edges: set<Edge>, a: Run, b: Run, c: Run)
    requires Generated(blocks, edges)
    requires c in ClassOf(blocks, a) + ClassOf(blocks, b)
    ensures Connected(edges + {(a, b)}, a, c) && Connected(edges + {(a, b)}, c, a)
  {
    var more := edges + {(a, b)};
    EdgeAdjSymmetric(more);
    if c in ClassOf(blocks, a) {
      ConnectedToOwnClass(blocks, edges, a, c);
      ConnectedMore(edges, more, a, c);
    } else {
      ConnectedToOwnClass(blocks, edges, b, c);
      ConnectedMore(edges, more, b, c);
      assert EdgeAdj(more)(a, b);
      ReachesStep(EdgeAdj(more), a, b);
      ReachesTrans(EdgeAdj(more), a, b, c);
    }
    ReachesSym(EdgeAdj(more), a, c);
  }

  lemma JoinIsDisjoint(blocks: set<set<Run>>, a: Run, b: Run)
    requires Disjoint(blocks)
    ensures Disjoint(JoinBlocks(blocks, a, b))
  {
  }

  lemma JoinKeepsTogether(blocks: set<set<Run>>, a: Run, b: Run, c: Run, d: Run)
    requires Disjoint(blocks) && Together(blocks, c, d)
    ensures Together(JoinBlocks(blocks, a, b), c, d)
  {
  }

  lemma JoinIsConnected(blocks: set<set<Run>>, edges: set<Edge>, a: Run, b: Run, x: set<Run>, c: Run, d: Run)
    requires Generated(blocks, edges)
    requires x in JoinBlocks(blocks, a, b) && c in x && d in x
    ensures Connected(edges + {(a, b)}, c, d)
  {
    var more := edges + {(a, b)};
    if x == ClassOf(blocks, a) + ClassOf(blocks, b) {
      JoinConnects(blocks, edges, a, b, c);
      JoinConnects(blocks, edges, a, b, d);
      ReachesTrans(EdgeAdj(more), c, a, d);
    } else {
      ConnectedMore(edges, more, c, d);
    }
  }

  lemma JoinTouches(blocks: set<set<Run>>, edges: set<Edge>, a: Run, b: Run, x: set<Run>, c: Run)
    requires Generated(blocks, edges)
    requires x in JoinBlocks(blocks, a, b) && c in x
    ensures Touches(edges + {(a, b)}, c)
  {
  }

  /** The union of two runs turns the partition of the unions so far into that of one union more. */
  lemma JoinIsGenerated(blocks: set<set<Run>>, edges: set<Edge>, a: Run, b: Run)
    requires Generated(blocks, edges)
    ensures Generated(JoinBlocks(blocks, a, b), edges + {(a, b)})
  {
    var joined, more := JoinBlocks(blocks, a, b), edges + {(a, b)};
    JoinIsDisjoint(blocks, a, b);
    forall e | e in more
      ensures Together(joined, e.0, e.1)
    {
      if e == (a, b) {
        assert ClassOf(blocks, a) + ClassOf(blocks, b) in joined;
      } else {
        JoinKeepsTogether(blocks, a, b, e.0, e.1);
      }
    }
    forall x, c, d | x in joined && c in x && d in x
      ensures Connected(more, c, d)
    {
      JoinIsConnected(blocks, edges, a, b, x, c, d);
    }
    forall x, c | x in joined && c in x
      ensures Touches(more, c)
    {
      JoinTouches(blocks, edges, a, b, x, c);
    }
  }

  // ----- The partition a forest stands for -----

  ghost function BlocksOf(rootOf: seq<nat>, cls: seq<set<Run>>): set<set<Run>>
    requires |cls| == |rootOf|
  {
    set i | 0 <= i < |rootOf| && IsRoot(rootOf, i) :: cls[i]
  }

  ghost function Blocks(s: Snap): set<set<Run>>
    requires |s.cls| == |s.rootOf|
  {
    BlocksOf(s.rootOf, s.cls)
  }

  /** Every run that some node accounts for. */
  ghost function AllRuns(cls: seq<set<Run>>): set<Run> {
    set i, r | 1 <= i < |cls| && r in cls[i] :: r
  }

  lemma NotAccounted(cls: seq<set<Run>>, r: Run)
    ensures r !in AllRuns(cls) <==> forall i :: 1 <= i < |cls| ==> r !in cls[i]
  {
  }

  lemma Accounted(cls: seq<set<Run>>, i: nat, r: Run)
    requires 1 <= i < |cls| && r in cls[i]
    ensures r in AllRuns(cls)
  {
  }

  lemma BlocksDisjoint(s: Snap)
    requires Sound(s)
    ensures Disjoint(Blocks(s))
  {
    forall i | 0 <= i < |s.rootOf| && IsRoot(s.rootOf, i)
      ensures s.cls[i] != {}
    {
      assert ClassOk(s.rootOf, s.cls, i);
    }
  }

  lemma BlockOfRoot(s: Snap, i: nat, a: Run)
    requires Sound(s) && IsRoot(s.rootOf, i) && a in s.cls[i]
    ensures s.cls[i] in Blocks(s) && ClassOf(Blocks(s), a) == s.cls[i]
  {
  }

  /** A run not accounted for by any node is on its own. */
  lemma FreshRunIsAlone(s: Snap, a: Run)
    requires Sound(s) && forall i :: 1 <= i < |s.cls| ==> a !in s.cls[i]
    ensures ClassOf(Blocks(s), a) == {a} && {a} !in Blocks(s)
  {
  }

  lemma BlocksOfNewPair(s: Snap, a: Run, b: Run)
    requires Sound(s) && |s.nodes| < 0xFFFF && |s.roots| < 0xFFFF && a.WellFormed() && b.WellFormed() && a != b
    requires forall i :: 1 <= i < |s.cls| ==> a !in s.cls[i] && b !in s.cls[i]
    requires RootLinked(AddNode(s, a), |s.nodes|)
    ensures Blocks(Extend(AddNode(s, a), |s.nodes|, b)) == JoinBlocks(Blocks(s), a, b)
  {
    FreshRunIsAlone(s, a);
    FreshRunIsAlone(s, b);
    var n := |s.nodes|;
    var m := AddNode(s, a);
    var t := Extend(m, n, b);
    forall i | 1 <= i < n
      ensures t.cls[i] == s.cls[i]
    {
      assert NodeOk(s.nodes, s.rootOf, i);
    }
    assert t.cls[n] == {a} + {b};
    forall x | x in Blocks(s)
      ensures x in Blocks(t)
    {
      var i :| 0 <= i < |s.rootOf| && IsRoot(s.rootOf, i) && x == s.cls[i];
      assert IsRoot(t.rootOf, i) && t.cls[i] == x;
    }
    forall x | x in Blocks(t)
      ensures x in Blocks(s) || x == {a} + {b}
    {
      var i :| 0 <= i < |t.rootOf| && IsRoot(t.rootOf, i) && x == t.cls[i];
      assert i < n ==> IsRoot(s.rootOf, i);
    }
    assert IsRoot(t.rootOf, n) && {a} + {b} in Blocks(t);
    assert Blocks(t) == Blocks(s) + {{a} + {b}};
  }

  lemma BlocksOfExtend(s: Snap, i: nat, a: Run, b: Run)
    requires Sound(s) && RootLinked(s, i) && b.WellFormed() && a in s.cls[i]
    requires forall j :: 1 <= j < |s.cls| ==> b !in s.cls[j]
    ensures Blocks(Extend(s, i, b)) == JoinBlocks(Blocks(s), a, b)
  {
  }

  lemma BlocksOfLink(s: Snap, c: nat, p: nat, a: Run, b: Run)
    requires Sound(s) && Linkable(s, c, p) && a in s.cls[c] && b in s.cls[p]
    ensures Blocks(Link(s, c, p)) == JoinBlocks(Blocks(s), a, b)
  {
    BlockOfRoot(s, c, a);
    BlockOfRoot(s, p, b);
    var t := Link(s, c, p);
    assert t.cls[p] == s.cls[c] + s.cls[p];
    forall x | x in JoinBlocks(Blocks(s), a, b)
      ensures x in Blocks(t)
    {
      if x == s.cls[c] + s.cls[p] {
        assert IsRoot(t.rootOf, p);
      } else {
        var j :| 0 <= j < |s.rootOf| && IsRoot(s.rootOf, j) && x == s.cls[j];
        assert IsRoot(t.rootOf, j) && t.cls[j] == x;
      }
    }
    forall x | x in Blocks(t)
      ensures x in JoinBlocks(Blocks(s), a, b)
    {
      var j :| 0 <= j < |t.rootOf| && IsRoot(t.rootOf, j) && x == t.cls[j];
      assert IsRoot(s.rootOf, j);
      if j != p {
        assert j != c && s.cls[j] !! s.cls[p] && s.cls[j] !! s.cls[c];
        assert s.cls[j] in Blocks(s);
      }
    }
  }

  lemma BlocksOfSame(s: Snap, i: nat, a: Run, b: Run)
    requires Sound(s) && IsRoot(s.rootOf, i) && a in s.cls[i] && b in s.cls[i]
    ensures Blocks(s) == JoinBlocks(Blocks(s), a, b)
  {
    BlockOfRoot(s, i, a);
    BlockOfRoot(s, i, b);
    assert s.cls[i] + s.cls[i] == s.cls[i];
  }
}
