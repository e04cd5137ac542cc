/** Blob_List: the disjoint-set forest and the packed list of its roots, updated in place
    (detect_color_blobs.c, lines 235-552 and 872-920). */
module BlobLists {
  import opened Words
  import opened Folds
  import opened BlobStats
  import opened Forest
  import opened Partition
  import opened UnionLog

  /** A run of the row being scanned; parentIndex 0 means that it has no node yet. */
  datatype YuvRun = YuvRun(parentIndex: u16, low: u16, high: u16)

  function ToRun(y: YuvRun, row: int): Run { Run(row, y.low, y.high) }

  /** The parent index p of run r is truthful: 0 while no node accounts for r, else a node of r's class. */
  ghost predicate Tracked(cls: seq<set<Run>>, p: nat, r: Run) {
    if p == 0 then r !in AllRuns(cls) else p < |cls| && r in cls[p]
  }

  /** Nodes are never reused and classes only grow. */
  ghost predicate Grown(before: seq<set<Run>>, after: seq<set<Run>>) {
    |before| <= |after| && forall i :: 1 <= i < |before| ==> before[i] <= after[i]
  }

  lemma AddNodeRuns(cls: seq<set<Run>>, r: Run)
    requires |cls| >= 1
    ensures AllRuns(cls + [{r}]) == AllRuns(cls) + {r}
  {
    var after := cls + [{r}];
    assert r in after[|cls|];
    forall q | q in AllRuns(cls)
      ensures q in AllRuns(after)
    {
      var i :| 1 <= i < |cls| && q in cls[i];
      assert q in after[i];
    }
  }

  lemma EnlargedRuns(rootOf: seq<nat>, cls: seq<set<Run>>, i: nat, r: Run)
    requires |rootOf| == |cls| && IsRoot(rootOf, i)
    ensures AllRuns(Enlarged(rootOf, cls, i, r)) == AllRuns(cls) + {r}
    ensures Grown(cls, Enlarged(rootOf, cls, i, r)) && r in Enlarged(rootOf, cls, i, r)[i]
  {
    var after := Enlarged(rootOf, cls, i, r);
    assert r in after[i];
    forall q | q in AllRuns(cls)
      ensures q in AllRuns(after)
    {
      var j :| 1 <= j < |cls| && q in cls[j];
      assert q in after[j];
    }
  }

  lemma MergedRuns(rootOf: seq<nat>, cls: seq<set<Run>>, c: nat, p: nat)
    requires |rootOf| == |cls| && IsRoot(rootOf, c) && IsRoot(rootOf, p) && ClassesOk(rootOf, cls)
    ensures AllRuns(MergedClasses(rootOf, cls, c, p)) == AllRuns(cls)
    ensures Grown(cls, MergedClasses(rootOf, cls, c, p))
  {
    var after := MergedClasses(rootOf, cls, c, p);
    forall i | 1 <= i < |cls|
      ensures cls[i] <= after[i]
    {
      assert ClassOk(rootOf, cls, i);
    }
    forall q | q in AllRuns(cls)
      ensures q in AllRuns(after)
    {
      var j :| 1 <= j < |cls| && q in cls[j];
      assert q in after[j];
    }
  }

  /** A node differs from before at most by pointing straight at its root. */
  ghost predicate CompressedNode(before: seq<BlobSetEntry>, after: seq<BlobSetEntry>, rootOf: seq<nat>, i: int)
    requires 0 <= i < |before| == |after| == |rootOf| <= 0x1_0000
  {
    after[i] == before[i] ||
    (i != 0 && rootOf[i] < 0x1_0000 && after[i] == before[i].(parentIndex := rootOf[i]))
  }

  ghost predicate Compressed(before: seq<BlobSetEntry>, after: seq<BlobSetEntry>, rootOf: seq<nat>) {
    |before| == |after| == |rootOf| <= 0x1_0000 &&
    forall i :: 0 <= i < |before| ==> CompressedNode(before, after, rootOf, i)
  }

  lemma CompressedTwice(a: seq<BlobSetEntry>, b: seq<BlobSetEntry>, rootOf: seq<nat>, i: nat)
    requires Compressed(a, b, rootOf) && 1 <= i < |a| && rootOf[i] < 0x1_0000
    ensures Compressed(a, b[i := b[i].(parentIndex := rootOf[i])], rootOf)
  {
    var c := b[i := b[i].(parentIndex := rootOf[i])];
    forall j | 0 <= j < |a|
      ensures CompressedNode(a, c, rootOf, j)
    {
      assert CompressedNode(a, b, rootOf, j);
    }
  }

  /** t is s after the union of runs a and b: their classes are one block, whose root is root;
      every other block is as before. */
  ghost predicate JoinedTo(s: Snap, t: Snap, a: Run, b: Run, root: int) {
    Sound(s) && Sound(t) && Blocks(t) == JoinBlocks(Blocks(s), a, b) &&
    Grown(s.cls, t.cls) && AllRuns(t.cls) == AllRuns(s.cls) + {a, b} &&
    IsRoot(t.rootOf, root) && a in t.cls[root] && b in t.cls[root]
  }

  /** Every node was made for two new runs. */
  ghost predicate Economical(s: Snap) {
    2 * (|s.nodes| - 1) <= |AllRuns(s.cls)|
  }

  ghost function NewPair(s: Snap, a: Run, b: Run): Snap
    requires |s.nodes| < 0xFFFF && |s.roots| < 0xFFFF && a.WellFormed() && b.WellFormed()
    requires RootLinked(AddNode(s, a), |s.nodes|)
  {
    Extend(AddNode(s, a), |s.nodes|, b)
  }

  lemma NewPairMiddle(s: Snap, a: Run, b: Run)
    requires Sound(s) && |s.nodes| < 0xFFFF && |s.roots| < 0xFFFF && a.WellFormed()
    requires a !in AllRuns(s.cls) && b !in AllRuns(s.cls) && b != a
    ensures Sound(AddNode(s, a)) && RootLinked(AddNode(s, a), |s.nodes|)
    ensures AllRuns(AddNode(s, a).cls) == AllRuns(s.cls) + {a}
    ensures AddNode(s, a).cls[|s.nodes|] == {a} && b !in AllRuns(AddNode(s, a).cls)
  {
    NotAccounted(s.cls, a);
    AddNodeRuns(s.cls, a);
    AddNodeIsSound(s, a);
    RootsAreLinked(AddNode(s, a), |s.nodes|);
  }

  lemma NewPairIsSound(s: Snap, a: Run, b: Run)
    requires Sound(s) && |s.nodes| < 0xFFFF && |s.roots| < 0xFFFF && a.WellFormed() && b.WellFormed()
    requires a !in AllRuns(s.cls) && b !in AllRuns(s.cls) && b.row == a.row + 1
    ensures RootLinked(AddNode(s, a), |s.nodes|) && Sound(NewPair(s, a, b))
    ensures AllRuns(NewPair(s, a, b).cls) == AllRuns(s.cls) + {a, b}
    ensures a in NewPair(s, a, b).cls[|s.nodes|] && b in NewPair(s, a, b).cls[|s.nodes|]
    ensures Grown(s.cls, NewPair(s, a, b).cls)
  {
    NewPairMiddle(s, a, b);
    var m := AddNode(s, a);
    NotAccounted(m.cls, b);
    ExtendIsSound(m, |s.nodes|, b);
    EnlargedRuns(m.rootOf, m.cls, |s.nodes|, b);
    assert AllRuns(s.cls) + {a, b} == AllRuns(s.cls) + {a} + {b};
  }

  /** The forest invariant; the classes are the partition generated by the unions in edges; every
      node was made for two new runs. */
  ghost predicate Good(s: Snap, edges: set<Edge>) {
    Sound(s) && Generated(Blocks(s), edges) && Economical(s)
  }

  lemma NewPairIsGood(s: Snap, edges: set<Edge>, a: Run, b: Run)
    requires Good(s, edges) && |s.nodes| < 0xFFFF && |s.roots| < 0xFFFF && a.WellFormed() && b.WellFormed()
    requires a !in AllRuns(s.cls) && b !in AllRuns(s.cls) && b.row == a.row + 1
    ensures RootLinked(AddNode(s, a), |s.nodes|)
    ensures JoinedTo(s, NewPair(s, a, b), a, b, |s.nodes|)
    ensures Good(NewPair(s, a, b), edges + {(a, b)})
  {
    NewPairJoins(s, a, b);
    JoinIsGenerated(Blocks(s), edges, a, b);
  }

  lemma NewPairJoins(s: Snap, a: Run, b: Run)
    requires Sound(s) && |s.nodes| < 0xFFFF && |s.roots| < 0xFFFF && a.WellFormed() && b.WellFormed()
    requires a !in AllRuns(s.cls) && b !in AllRuns(s.cls) && b.row == a.row + 1
    ensures RootLinked(AddNode(s, a), |s.nodes|)
    ensures JoinedTo(s, NewPair(s, a, b), a, b, |s.nodes|)
    ensures Economical(s) ==> Economical(NewPair(s, a, b))
  {
    NewPairIsSound(s, a, b);
    NotAccounted(s.cls, a);
    NotAccounted(s.cls, b);
    BlocksOfNewPair(s, a, b);
    assert |AllRuns(s.cls) + {a, b}| == |AllRuns(s.cls)| + |{a, b}|;
  }

  lemma ExtendIsGood(s: Snap, edges: set<Edge>, i: nat, a: Run, b: Run)
    requires Good(s, edges) && IsRoot(s.rootOf, i) && |s.nodes| <= 0x1_0000 && b.WellFormed()
    requires a in s.cls[i] && b !in AllRuns(s.cls)
    requires forall q :: q in s.cls[i] ==> q.row <= b.row + 1
    ensures RootLinked(s, i) && JoinedTo(s, Extend(s, i, b), a, b, i)
    ensures Good(Extend(s, i, b), edges + {(a, b)})
  {
    RootsAreLinked(s, i);
    ExtendJoins(s, i, a, b);
    JoinIsGenerated(Blocks(s), edges, a, b);
  }

  lemma ExtendJoins(s: Snap, i: nat, a: Run, b: Run)
    requires Sound(s) && RootLinked(s, i) && b.WellFormed()
    requires a in s.cls[i] && b !in AllRuns(s.cls)
    requires forall q :: q in s.cls[i] ==> q.row <= b.row + 1
    ensures JoinedTo(s, Extend(s, i, b), a, b, i)
    ensures |AllRuns(Extend(s, i, b).cls)| >= |AllRuns(s.cls)|
  {
    Accounted(s.cls, i, a);
    EnlargedRuns(s.rootOf, s.cls, i, b);
    assert AllRuns(s.cls) + {a, b} == AllRuns(s.cls) + {b};
    assert |AllRuns(s.cls) + {b}| >= |AllRuns(s.cls)|;
    NotAccounted(s.cls, b);
    ExtendIsSound(s, i, b);
    BlocksOfExtend(s, i, a, b);
  }

  lemma LinkJoins(s: Snap, c: nat, p: nat, a: Run, b: Run)
    requires Sound(s) && Linkable(s, c, p) && a in s.cls[c] && b in s.cls[p]
    ensures JoinedTo(s, Link(s, c, p), a, b, p)
    ensures AllRuns(Link(s, c, p).cls) == AllRuns(s.cls)
  {
    Accounted(s.cls, c, a);
    Accounted(s.cls, p, b);
    MergedRuns(s.rootOf, s.cls, c, p);
    assert AllRuns(s.cls) + {a, b} == AllRuns(s.cls);
    LinkIsSound(s, c, p);
    BlocksOfLink(s, c, p, a, b);
  }

  lemma LinkIsGood(s: Snap, edges: set<Edge>, c: nat, p: nat, a: Run, b: Run)
    requires Good(s, edges) && Linkable(s, c, p) && a in s.cls[c] && b in s.cls[p]
    ensures JoinedTo(s, Link(s, c, p), a, b, p)
    ensures Good(Link(s, c, p), edges + {(a, b)}) && Good(Link(s, c, p), edges + {(b, a)})
  {
    LinkJoins(s, c, p, a, b);
    JoinIsGenerated(Blocks(s), edges, a, b);
    JoinIsGenerated(Blocks(s), edges, b, a);
    JoinBlocksSym(Blocks(s), a, b);
  }

  lemma SameRootIsGood(s: Snap, edges: set<Edge>, i: nat, a: Run, b: Run)
    requires Good(s, edges) && IsRoot(s.rootOf, i) && a in s.cls[i] && b in s.cls[i]
    ensures JoinedTo(s, s, a, b, i) && Good(s, edges + {(a, b)})
  {
    Accounted(s.cls, i, a);
    Accounted(s.cls, i, b);
    BlocksOfSame(s, i, a, b);
    assert AllRuns(s.cls) + {a, b} == AllRuns(s.cls);
    JoinIsGenerated(Blocks(s), edges, a, b);
  }

  lemma JoinedToSym(s: Snap, t: Snap, a: Run, b: Run, root: int)
    requires JoinedTo(s, t, a, b, root)
    ensures JoinedTo(s, t, b, a, root)
  {
    JoinBlocksSym(Blocks(s), a, b);
    assert {a, b} == {b, a};
  }

  // ----- Totals -----

  /** The runs behind entry k of root_info. */
  ghost function EntryRuns(s: Snap, k: nat): (b: set<Run>)
    requires Sound(s) && k < |s.roots|
    ensures b in Blocks(s) && Describes(s.roots[k].stats, b)
  {
    assert EntryOk(s.nodes, s.roots, s.rootOf, k) && StatOk(s.roots, s.cls, k);
    s.cls[s.roots[k].setIndex]
  }

  lemma EntriesDiffer(s: Snap, k: nat, l: nat)
    requires Sound(s) && k < l < |s.roots|
    ensures EntryRuns(s, k) !! EntryRuns(s, l)
  {
    assert EntryOk(s.nodes, s.roots, s.rootOf, k) && EntryOk(s.nodes, s.roots, s.rootOf, l);
    assert IsRoot(s.rootOf, s.roots[k].setIndex) && IsRoot(s.rootOf, s.roots[l].setIndex);
  }

  lemma BlockHasEntry(s: Snap, b: set<Run>) returns (k: nat)
    requires Sound(s) && b in Blocks(s)
    ensures k < |s.roots| && EntryRuns(s, k) == b
  {
    var i :| 0 <= i < |s.rootOf| && IsRoot(s.rootOf, i) && b == s.cls[i];
    assert BackOk(s.nodes, s.roots, s.rootOf, i);
    k := s.nodes[i].rootListIndex;
  }

  function CountOf(st: BlobStats): int { st.count }
  function SumXOf(st: BlobStats): int { st.sumX }
  function SumYOf(st: BlobStats): int { st.sumY }

  /** The sum of a field of the statistics over the first n entries. */
  ghost function FieldTo(roots: seq<RootInfo>, f: BlobStats -> int, n: nat): int
    requires n <= |roots|
  {
    if n == 0 then 0 else FieldTo(roots, f, n - 1) + f(roots[n - 1].stats)
  }

  /** The runs behind every entry. */
  ghost function EntrySets(s: Snap): (sets: seq<set<Run>>)
    requires Sound(s)
    ensures |sets| == |s.roots|
  {
    seq(|s.roots|, k requires 0 <= k < |s.roots| => EntryRuns(s, k))
  }

  lemma EntrySetsDisjoint(s: Snap)
    requires Sound(s)
    ensures PairwiseDisjoint(EntrySets(s))
  {
    hide Sound, EntryRuns;
    forall k, l | 0 <= k < l < |s.roots|
      ensures EntrySets(s)[k] !! EntrySets(s)[l]
    {
      EntriesDiffer(s, k, l);
    }
  }

  lemma EntrySetsHoldAll(s: Snap)
    requires Sound(s)
    ensures UnionTo(EntrySets(s), |s.roots|) == AllRuns(s.cls)
  {
    hide Sound, EntryRuns, UnionTo, AllRuns;
    forall r
      ensures r in UnionTo(EntrySets(s), |s.roots|) <==> r in AllRuns(s.cls)
    {
      UnionToHas(EntrySets(s), |s.roots|, r);
      if r in UnionTo(EntrySets(s), |s.roots|) {
        var k :| 0 <= k < |s.roots| && r in EntrySets(s)[k];
        var i := EntryNode(s, k);
        Accounted(s.cls, i, r);
      }
      if r in AllRuns(s.cls) {
        var i := AccountedAt(s.cls, r);
        var k := EntryOfNode(s, i, r);
        assert r in EntrySets(s)[k];
      }
    }
  }

  lemma AccountedAt(cls: seq<set<Run>>, r: Run) returns (i: nat)
    requires r in AllRuns(cls)
    ensures 1 <= i < |cls| && r in cls[i]
  {
    i :| 1 <= i < |cls| && r in cls[i];
  }

  lemma {:induction false} FieldIsSum(roots: seq<RootInfo>, f: BlobStats -> int, w: Run -> int,
                                      sets: seq<set<Run>>, n: nat)
    requires |sets| == |roots| && n <= |roots|
    requires forall k :: 0 <= k < |roots| ==> f(roots[k].stats) == Sum(w, sets[k])
    ensures FieldTo(roots, f, n) == SumsTo(w, sets, n)
  {
    if n > 0 { FieldIsSum(roots, f, w, sets, n - 1); }
  }

  lemma EntryNode(s: Snap, k: nat) returns (i: nat)
    requires Sound(s) && k < |s.roots|
    ensures 1 <= i < |s.cls| && EntryRuns(s, k) == s.cls[i]
  {
    assert EntryOk(s.nodes, s.roots, s.rootOf, k);
    i := s.roots[k].setIndex;
  }

  lemma EntryOfNode(s: Snap, i: nat, r: Run) returns (k: nat)
    requires Sound(s) && 1 <= i < |s.cls| && r in s.cls[i]
    ensures k < |s.roots| && r in EntryRuns(s, k)
  {
    RunOfRoot(s, i, r);
    assert BackOk(s.nodes, s.roots, s.rootOf, s.rootOf[i]);
    k := s.nodes[s.rootOf[i]].rootListIndex;
  }

  /** The totals of count, sum_x and sum_y over root_info are those of the runs accounted for:
      through merging and swap-with-last deletion nothing is lost and nothing counted twice. */
  lemma TotalsConserved(s: Snap)
    requires Sound(s)
    ensures FieldTo(s.roots, CountOf, |s.roots|) == Sum(Width, AllRuns(s.cls))
    ensures FieldTo(s.roots, SumXOf, |s.roots|) == Sum(WeightX, AllRuns(s.cls))
    ensures FieldTo(s.roots, SumYOf, |s.roots|) == Sum(WeightY, AllRuns(s.cls))
  {
    var sets, n := EntrySets(s), |s.roots|;
    forall k | 0 <= k < n
      ensures CountOf(s.roots[k].stats) == Sum(Width, sets[k])
      ensures SumXOf(s.roots[k].stats) == Sum(WeightX, sets[k])
      ensures SumYOf(s.roots[k].stats) == Sum(WeightY, sets[k])
    {
      assert Describes(s.roots[k].stats, EntryRuns(s, k));
    }
    FieldIsSum(s.roots, CountOf, Width, sets, n);
    FieldIsSum(s.roots, SumXOf, WeightX, sets, n);
    FieldIsSum(s.roots, SumYOf, WeightY, sets, n);
    EntrySetsDisjoint(s);
    SumOfUnionTo(Width, sets, n);
    SumOfUnionTo(WeightX, sets, n);
    SumOfUnionTo(WeightY, sets, n);
    EntrySetsHoldAll(s);
  }

  /** The run of a node belongs to the node's root too. */
  lemma RunOfRoot(s: Snap, i: nat, a: Run)
    requires Sound(s) && 1 <= i < |s.nodes| && a in s.cls[i]
    ensures |s.nodes| == |s.rootOf| == |s.cls|
    ensures IsRoot(s.rootOf, s.rootOf[i]) && a in s.cls[s.rootOf[i]]
  {
    assert NodeOk(s.nodes, s.rootOf, i) && ClassOk(s.rootOf, s.cls, i);
  }

  /** A union that starts with path compression is the same union. */
  lemma JoinedAfterCompress(s: Snap, m: Snap, t: Snap, a: Run, b: Run, root: int)
    requires Sound(s) && m.rootOf == s.rootOf && m.cls == s.cls && JoinedTo(m, t, a, b, root)
    ensures JoinedTo(s, t, a, b, root)
  {
  }

  lemma ExtendStepIsGood(s: Snap, m: Snap, edges: set<Edge>, root: nat, a: Run, b: Run, e: Edge)
    requires Good(s, edges) && Sound(m) && m.rootOf == s.rootOf && m.cls == s.cls && |m.nodes| == |s.nodes|
    requires RootLinked(m, root) && b.WellFormed() && a in m.cls[root] && b !in AllRuns(s.cls)
    requires forall q :: q in AllRuns(s.cls) ==> q.row <= b.row + 1
    requires e == (a, b) || e == (b, a)
    ensures Good(Extend(m, root, b), edges + {e}) && JoinedTo(s, Extend(m, root, b), a, b, root)
  {
    forall q | q in m.cls[root]
      ensures q.row <= b.row + 1
    {
      Accounted(m.cls, root, q);
    }
    ExtendIsGood(m, edges, root, a, b);
    if e == (b, a) {
      JoinIsGenerated(Blocks(m), edges, b, a);
      JoinBlocksSym(Blocks(m), a, b);
    }
    JoinedAfterCompress(s, m, Extend(m, root, b), a, b, root);
  }

  lemma LinkStepIsGood(s: Snap, m: Snap, edges: set<Edge>, c: nat, p: nat, a: Run, b: Run)
    requires Good(s, edges) && Sound(m) && m.rootOf == s.rootOf && m.cls == s.cls && |m.nodes| == |s.nodes|
    requires Linkable(m, c, p)
    requires (a in m.cls[c] && b in m.cls[p]) || (b in m.cls[c] && a in m.cls[p])
    ensures Good(Link(m, c, p), edges + {(a, b)}) && JoinedTo(s, Link(m, c, p), a, b, p)
  {
    if a in m.cls[c] && b in m.cls[p] {
      LinkIsGood(m, edges, c, p, a, b);
    } else {
      LinkIsGood(m, edges, c, p, b, a);
      JoinedToSym(m, Link(m, c, p), b, a, p);
    }
    JoinedAfterCompress(s, m, Link(m, c, p), a, b, p);
  }

  lemma SameRootStepIsGood(s: Snap, m: Snap, edges: set<Edge>, root: nat, a: Run, b: Run)
    requires Good(s, edges) && Sound(m) && m.rootOf == s.rootOf && m.cls == s.cls && |m.nodes| == |s.nodes|
    requires IsRoot(m.rootOf, root) && a in m.cls[root] && b in m.cls[root]
    ensures Good(m, edges + {(a, b)}) && JoinedTo(s, m, a, b, root)
  {
    SameRootIsGood(m, edges, root, a, b);
    JoinedAfterCompress(s, m, m, a, b, root);
  }

  // ----- What a union leaves in the log -----

  lemma NewPairIsLogged(s: Snap, h: seq<Edge>, a: Run, b: Run)
    requires Good(s, EdgeSet(h)) && |s.nodes| == 1 + Starts(h) && BottomsRecorded(s, h)
    requires |s.nodes| < 0xFFFF && |s.roots| < 0xFFFF && a.WellFormed() && b.WellFormed()
    requires a !in AllRuns(s.cls) && b !in AllRuns(s.cls) && b.row == a.row + 1
    ensures RootLinked(AddNode(s, a), |s.nodes|) && EdgeSet(h + [(a, b)]) == EdgeSet(h) + {(a, b)}
    ensures |NewPair(s, a, b).nodes| == 1 + Starts(h + [(a, b)]) && BottomsRecorded(NewPair(s, a, b), h + [(a, b)])
  {
    NewPairMiddle(s, a, b);
    NewPairBottoms(s, h, a, b);
    EdgeSetMore(h, (a, b));
    StartsMore(h, (a, b));
    AccountedIffTouched(s, EdgeSet(h), a);
    AccountedIffTouched(s, EdgeSet(h), b);
  }

  lemma OldRunLogs(s: Snap, h: seq<Edge>, e: Edge, r: Run)
    requires Good(s, EdgeSet(h)) && r in AllRuns(s.cls) && (r == e.0 || r == e.1)
    ensures Touches(EdgeSet(h), r) && Starts(h + [e]) == Starts(h) && EdgeSet(h + [e]) == EdgeSet(h) + {e}
  {
    AccountedIffTouched(s, EdgeSet(h), r);
    StartsMore(h, e);
    EdgeSetMore(h, e);
  }

  lemma ExtendStepIsLogged(s: Snap, m: Snap, h: seq<Edge>, root: nat, a: Run, b: Run, e: Edge)
    requires Good(s, EdgeSet(h)) && BottomsRecorded(s, h) && |s.nodes| == |m.nodes| == 1 + Starts(h)
    requires Sound(m) && m.rootOf == s.rootOf && m.cls == s.cls && m.roots == s.roots
    requires RootLinked(m, root) && b.WellFormed() && a in m.cls[root] && b !in AllRuns(s.cls)
    requires e.1.row == e.0.row + 1 && (e == (a, b) || e == (b, a))
    requires forall q :: q in AllRuns(s.cls) ==> q.row <= e.1.row
    ensures EdgeSet(h + [e]) == EdgeSet(h) + {e} && |Extend(m, root, b).nodes| == 1 + Starts(h + [e])
    ensures BottomsRecorded(Extend(m, root, b), h + [e])
  {
    Accounted(m.cls, root, a);
    OldRunLogs(s, h, e, a);
    SameBottoms(s, m, h);
    forall q | q in m.cls[root]
      ensures q.row <= e.1.row
    {
      Accounted(m.cls, root, q);
    }
    hide Sound, Economical, Extend, BottomsRecorded, EdgeSet, AllRuns;
    if e == (a, b) {
      LowerJoinsBottoms(m, h, root, a, b);
    } else {
      UpperJoinsBottoms(m, h, root, b, a);
    }
  }

  lemma LinkStepIsLogged(s: Snap, m: Snap, h: seq<Edge>, c: nat, p: nat, i: nat, a: Run, b: Run)
    requires Good(s, EdgeSet(h)) && BottomsRecorded(s, h) && |s.nodes| == |m.nodes| == 1 + Starts(h)
    requires Sound(m) && m.rootOf == s.rootOf && m.cls == s.cls && m.roots == s.roots
    requires Linkable(m, c, p) && IsRoot(m.rootOf, i) && a in m.cls[i]
    ensures EdgeSet(h + [(a, b)]) == EdgeSet(h) + {(a, b)} && |Link(m, c, p).nodes| == 1 + Starts(h + [(a, b)])
    ensures BottomsRecorded(Link(m, c, p), h + [(a, b)])
  {
    Accounted(m.cls, i, a);
    OldRunLogs(s, h, (a, b), a);
    SameBottoms(s, m, h);
    OldUpperKeepsBottoms(m, h, (a, b));
    LinkKeepsBottoms(m, h + [(a, b)], c, p);
  }

  lemma SameRootStepIsLogged(s: Snap, m: Snap, h: seq<Edge>, i: nat, a: Run, b: Run)
    requires Good(s, EdgeSet(h)) && BottomsRecorded(s, h) && |s.nodes| == |m.nodes| == 1 + Starts(h)
    requires Sound(m) && m.cls == s.cls && m.roots == s.roots && IsRoot(m.rootOf, i) && a in m.cls[i]
    ensures EdgeSet(h + [(a, b)]) == EdgeSet(h) + {(a, b)} && |m.nodes| == 1 + Starts(h + [(a, b)])
    ensures BottomsRecorded(m, h + [(a, b)])
  {
    Accounted(m.cls, i, a);
    OldRunLogs(s, h, (a, b), a);
    SameBottoms(s, m, h);
    OldUpperKeepsBottoms(m, h, (a, b));
  }

  lemma JoinedRunsGrow(s: Snap, t: Snap, a: Run, b: Run, root: int)
    requires JoinedTo(s, t, a, b, root)
    ensures |AllRuns(s.cls)| <= |AllRuns(t.cls)|
  {
    assert AllRuns(t.cls) == AllRuns(s.cls) + ({a, b} - AllRuns(s.cls));
  }

  /** Two different roots can be linked, the one of lower rank as the child. */
  lemma RootsAreLinkable(s: Snap, i: nat, j: nat)
    requires Sound(s) && IsRoot(s.rootOf, i) && IsRoot(s.rootOf, j) && i != j && |s.nodes| <= 0x1_0000
    ensures |s.nodes| == |s.rootOf| && s.nodes[i].rank < 16 && s.nodes[j].rank < 16
    ensures s.nodes[i].rank <= s.nodes[j].rank ==> Linkable(s, i, j)
    ensures s.nodes[j].rank <= s.nodes[i].rank ==> Linkable(s, j, i)
  {
    RootsAreLinked(s, i);
    RootsAreLinked(s, j);
    RankFitsUshort(s.nodes, s.rootOf, i);
    RankFitsUshort(s.nodes, s.rootOf, j);
    assert EntryOk(s.nodes, s.roots, s.rootOf, |s.roots| - 1);
  }

  ghost function SetIndices(roots: seq<RootInfo>): set<nat> {
    set k | 0 <= k < |roots| :: roots[k].setIndex as nat
  }

  lemma {:induction false} DistinctIndices(roots: seq<RootInfo>)
    requires forall k, l :: 0 <= k < l < |roots| ==> roots[k].setIndex != roots[l].setIndex
    ensures |SetIndices(roots)| == |roots|
  {
    if roots != [] {
      var front := roots[..|roots| - 1];
      DistinctIndices(front);
      assert SetIndices(roots) == SetIndices(front) + {roots[|roots| - 1].setIndex as nat};
    }
  }

  /** There is at most one entry of root_info for every node. */
  lemma RootsNoMoreThanNodes(s: Snap)
    requires Sound(s)
    ensures |s.roots| <= |s.nodes| - 1
  {
    forall k, l | 0 <= k < l < |s.roots|
      ensures s.roots[k].setIndex != s.roots[l].setIndex
    {
      assert EntryOk(s.nodes, s.roots, s.rootOf, k) && EntryOk(s.nodes, s.roots, s.rootOf, l);
    }
    forall i | i in SetIndices(s.roots)
      ensures 1 <= i < |s.nodes|
    {
      var k :| 0 <= k < |s.roots| && s.roots[k].setIndex == i;
      assert EntryOk(s.nodes, s.roots, s.rootOf, k);
    }
    DistinctIndices(s.roots);
    BoundedSetSize(SetIndices(s.roots), |s.nodes|);
  }

  lemma GoodSizes(s: Snap, edges: set<Edge>)
    requires Good(s, edges)
    ensures |s.nodes| == |s.rootOf| == |s.cls|
  {
  }

  /** Two runs have the same root if and only if the unions carried out connect them. */
  lemma SameRootIffConnected(s: Snap, edges: set<Edge>, i: nat, j: nat, a: Run, b: Run)
    requires Good(s, edges) && 1 <= i < |s.nodes| && 1 <= j < |s.nodes|
    requires a in s.cls[i] && b in s.cls[j] && a != b
    ensures s.rootOf[i] == s.rootOf[j] <==> Connected(edges, a, b)
  {
    RunOfRoot(s, i, a);
    RunOfRoot(s, j, b);
    var r, t := s.rootOf[i], s.rootOf[j];
    BlockOfRoot(s, r, a);
    BlockOfRoot(s, t, b);
    TogetherIffConnected(Blocks(s), edges, a, b);
    if Together(Blocks(s), a, b) {
      var x :| x in Blocks(s) && a in x && b in x;
      BlocksDisjoint(s);
      ClassOfIs(Blocks(s), a, x);
      ClassOfIs(Blocks(s), b, x);
      assert IsRoot(s.rootOf, r) && IsRoot(s.rootOf, t) && a in s.cls[r] && a in s.cls[t];
    }
  }

  /** After a union the root tracks both runs. */
  lemma JoinedTracks(s: Snap, t: Snap, a: Run, b: Run, root: nat)
    requires JoinedTo(s, t, a, b, root)
    ensures root != 0 && Tracked(t.cls, root, a) && Tracked(t.cls, root, b)
  {
  }

  /** Two row lists differ at most in the parent index of run i. */
  ghost predicate SameButParent(after: seq<YuvRun>, before: seq<YuvRun>, i: nat) {
    i < |before| && |after| == |before| &&
    after == before[i := before[i].(parentIndex := after[i].parentIndex)]
  }

  class BlobList {
    const blobSet: array<BlobSetEntry>
    const maxBlobSetCount: u16
    const rootInfo: array<RootInfo>
    const maxRootListCount: u16
    var usedBlobSetCount: u16
    var usedRootListCount: u16

    /** The root of every node, the runs in its class, the unions asked for and those carried out since
        the list was cleared, in order, and whether make_set ever had no space. */
    ghost var rootOf: seq<nat>
    ghost var cls: seq<set<Run>>
    ghost var asked: seq<Edge>
    ghost var unions: seq<Edge>
    ghost var refused: bool

    ghost predicate Allocated() {
      1 <= blobSet.Length && maxBlobSetCount <= blobSet.Length && maxRootListCount <= rootInfo.Length
    }

    ghost predicate Shape()
      reads this
    {
      Allocated() && 1 <= usedBlobSetCount && usedBlobSetCount <= Max(1, maxBlobSetCount) &&
      usedRootListCount <= maxRootListCount
    }

    ghost function Nodes(): seq<BlobSetEntry>
      requires Shape()
      reads this, blobSet
    {
      blobSet[..usedBlobSetCount]
    }

    ghost function Roots(): seq<RootInfo>
      requires Shape()
      reads this, rootInfo
    {
      rootInfo[..usedRootListCount]
    }

    ghost function View(): Snap
      requires Shape()
      reads this, blobSet, rootInfo
    {
      Snap(Nodes(), Roots(), rootOf, cls)
    }

    ghost predicate Consistent()
      reads this, blobSet, rootInfo
    {
      Shape() && Sound(View())
    }

    /** The arrays are as the unions carried out leave them. */
    ghost predicate Coherent()
      reads this, blobSet, rootInfo
    {
      Shape() && Good(View(), EdgeSet(unions)) && |View().nodes| == 1 + Starts(unions) &&
      BottomsRecorded(View(), unions)
    }

    /** The unions carried out are those asked for that found room; if one did not, there are two runs
        for each blob there is surely room for. */
    ghost predicate Logged()
      reads this
    {
      && unions == Carried(asked, maxBlobSetCount, maxRootListCount)
      && (refused <==> Crowded(asked, maxBlobSetCount, maxRootListCount))
      && (refused ==> 2 * Capacity() <= |AllRuns(cls)|)
    }

    ghost predicate Valid()
      reads this, blobSet, rootInfo
    {
      Coherent() && Logged()
    }

    /** make_set will find no space. */
    ghost predicate IsFull()
      reads this
    {
      usedBlobSetCount >= maxBlobSetCount || usedRootListCount >= maxRootListCount
    }

    /** The number of blobs there is surely room for. */
    function Capacity(): int {
      Min(maxBlobSetCount - 1, maxRootListCount)
    }

    /** A full list accounts for at least two runs per blob it has room for. */
    lemma FullMeansManyRuns()
      requires Coherent() && IsFull()
      ensures 2 * Capacity() <= |AllRuns(cls)|
    {
      RootsNoMoreThanNodes(View());
    }

    constructor (maxRuns: u16, maxBlobs: u16)
      ensures Allocated() && maxBlobSetCount == (maxRuns + 1) % 0x1_0000 && maxRootListCount == maxBlobs
      ensures Valid() && View() == EMPTY && asked == [] && !refused
      ensures fresh(blobSet) && fresh(rootInfo)
    {
      blobSet := new BlobSetEntry[maxRuns + 1];
      maxBlobSetCount := (maxRuns + 1) % 0x1_0000;
      rootInfo := new RootInfo[maxBlobs];
      maxRootListCount := maxBlobs;
      new;
      Clear();
    }

    /** blob_list_clear */
    method Clear()
      requires Allocated()
      modifies this, blobSet
      ensures Shape() && Valid() && View() == EMPTY && asked == [] && !refused
    {
      usedBlobSetCount := 1;
      usedRootListCount := 0;
      blobSet[0] := BlobSetEntry(0, NOT_A_ROOT, 0);
      rootOf, cls, asked, unions, refused := [0], [{}], [], [], false;
      assert View() == EMPTY;
      EmptyIsSound();
    }

    /** set_root_list_entry */
    method SetRootListEntry(rx: u16, bx: u16)
      requires Shape() && rx < usedRootListCount && bx < usedBlobSetCount
      modifies blobSet, rootInfo
      ensures Nodes() == old(Nodes())[bx := old(Nodes())[bx].(rootListIndex := rx)]
      ensures Roots() == old(Roots())[rx := old(Roots())[rx].(setIndex := bx)]
    {
      rootInfo[rx] := rootInfo[rx].(setIndex := bx);
      blobSet[bx] := blobSet[bx].(rootListIndex := rx);
    }

    /** make_set: refused exactly when one of the arrays is full. */
    method MakeSet(row: u16, low: u16, high: u16) returns (index: u16)
      requires Consistent() && low < high && Run(row, low, high) !in AllRuns(cls)
      modifies this, blobSet, rootInfo
      ensures Consistent() && unions == old(unions) && asked == old(asked)
      ensures old(IsFull()) ==> index == 0 && refused && View() == old(View())
      ensures !old(IsFull()) ==> index == old(usedBlobSetCount) && refused == old(refused) &&
                                 |old(View()).nodes| < 0xFFFF && |old(View()).roots| < 0xFFFF &&
                                 View() == AddNode(old(View()), Run(row, low, high))
    {
      if usedBlobSetCount >= maxBlobSetCount || usedRootListCount >= maxRootListCount {
        refused := true;
        return 0;
      }
      ghost var before, run := View(), Run(row, low, high);
      NotAccounted(cls, run);
      AddNodeIsSound(before, run);
      index := usedBlobSetCount;
      usedBlobSetCount := usedBlobSetCount + 1;
      blobSet[index] := blobSet[index].(parentIndex := index, rank := 0);
      var rootIndex := usedRootListCount;
      usedRootListCount := usedRootListCount + 1;
      SetRootListEntry(rootIndex, index);
      rootInfo[rootIndex] := rootInfo[rootIndex].(stats := StatsInit(row, low, high));
      rootOf, cls := rootOf + [index], cls + [{run}];
      assert Nodes() == AddNode(before, run).nodes;
      assert Roots() == AddNode(before, run).roots;
    }

    /** delete_root_list_entry */
    method DeleteRootListEntry(ix: u16)
      requires Shape() && ix < usedRootListCount && rootInfo[usedRootListCount - 1].setIndex < usedBlobSetCount
      modifies this`usedRootListCount, blobSet, rootInfo
      ensures usedRootListCount == old(usedRootListCount) - 1
      ensures var last := old(Roots())[old(usedRootListCount) - 1];
              Nodes() == old(Nodes())[last.setIndex := old(Nodes())[last.setIndex].(rootListIndex := ix)] &&
              Roots() == old(Roots())[ix := last][..old(usedRootListCount) - 1]
    {
      ghost var before := Roots();
      var lastIndex := usedRootListCount - 1;
      var lastSet := rootInfo[lastIndex].setIndex;
      rootInfo[ix] := rootInfo[lastIndex];
      assert Roots() == before[ix := before[lastIndex]];
      SetRootListEntry(ix, lastSet);
      assert Roots() == before[ix := before[lastIndex]];
      usedRootListCount := usedRootListCount - 1;
      assert Roots() == before[ix := before[lastIndex]][..lastIndex];
    }

    /** set_parent */
    method SetParent(child: u16, newParent: u16)
      requires Shape() && child < usedBlobSetCount && newParent < usedBlobSetCount
      requires blobSet[newParent].rootListIndex < usedRootListCount
      requires blobSet[child].rootListIndex != NOT_A_ROOT ==>
                 blobSet[child].rootListIndex < usedRootListCount && blobSet[child].parentIndex == child &&
                 rootInfo[usedRootListCount - 1].setIndex < usedBlobSetCount
      modifies this`usedRootListCount, blobSet, rootInfo
      ensures Shape()
      ensures old(blobSet[child].rootListIndex) == NOT_A_ROOT ==>
                Roots() == old(Roots()) &&
                Nodes() == old(Nodes())[child := old(Nodes())[child].(parentIndex := newParent)]
      ensures old(blobSet[child].rootListIndex) != NOT_A_ROOT ==>
                Roots() == SetParentRoots(old(Roots()), old(blobSet[child].rootListIndex),
                                          old(blobSet[newParent].rootListIndex)) &&
                Nodes() == SetParentNodes(old(Nodes()), old(Roots()), child, newParent)
    {
      var prx := blobSet[newParent].rootListIndex;
      var crx := blobSet[child].rootListIndex;
      ghost var nodes, roots := Nodes(), Roots();
      if crx != NOT_A_ROOT {
        rootInfo[prx] := rootInfo[prx].(stats := StatsAdd(rootInfo[prx].stats, rootInfo[crx].stats));
        assert Roots() == roots[prx := roots[prx].(stats := StatsAdd(roots[prx].stats, roots[crx].stats))];
        DeleteRootListEntry(crx);
        blobSet[child] := blobSet[child].(rootListIndex := NOT_A_ROOT);
      }
      blobSet[child] := blobSet[child].(parentIndex := newParent);
      assert crx != NOT_A_ROOT ==> Nodes() == SetParentNodes(nodes, roots, child, newParent);
    }

    /** The last step of find_root: a node that is not a root is pointed at its root. */
    method PointAtRoot(index: u16, root: u16)
      requires Consistent() && 1 <= index < usedBlobSetCount && root == rootOf[index] != index
      modifies this`usedRootListCount, blobSet, rootInfo
      ensures Consistent() && usedRootListCount == old(usedRootListCount) && Roots() == old(Roots())
      ensures View() == Compress(old(View()), index)
    {
      CompressIsSound(View(), index);
      assert NodeOk(Nodes(), rootOf, index) && BackOk(Nodes(), Roots(), rootOf, index);
      assert BackOk(Nodes(), Roots(), rootOf, root);
      ghost var after := Compress(View(), index);
      SetParent(index, root);
      assert View() == after;
    }

    /** find_root_recursive */
    method FindRootRecursive(index: u16) returns (parent: u16)
      requires Consistent() && 1 <= index < usedBlobSetCount
      modifies this`usedRootListCount, blobSet, rootInfo
      ensures Consistent() && usedRootListCount == old(usedRootListCount) && Roots() == old(Roots())
      ensures parent == rootOf[index]
      ensures Compressed(old(Nodes()), Nodes(), rootOf)
      decreases 0x1_0000 - blobSet[index].rank
    {
      parent := index;
      assert NodeOk(Nodes(), rootOf, index);
      if blobSet[index].parentIndex != index {
        parent := FindRootRecursive(blobSet[index].parentIndex);
        CompressedTwice(old(Nodes()), Nodes(), rootOf, index);
        PointAtRoot(index, parent);
      }
    }

    /** find_root: the label of the node; no label, rank, statistic or list entry changes, and the
        only parent pointers that change now point straight at their roots. */
    method FindRoot(index: u16) returns (root: u16)
      requires Consistent() && 1 <= index < usedBlobSetCount
      modifies this`usedRootListCount, blobSet, rootInfo
      ensures Consistent() && usedRootListCount == old(usedRootListCount) && Roots() == old(Roots())
      ensures root == rootOf[index] && blobSet[index].parentIndex == root
      ensures Compressed(old(Nodes()), Nodes(), rootOf)
    {
      var parent := blobSet[index].parentIndex;
      assert NodeOk(Nodes(), rootOf, index);
      if parent == index {
        return index;
      }
      root := FindRootRecursive(parent);
      CompressedTwice(old(Nodes()), Nodes(), rootOf, index);
      PointAtRoot(index, root);
    }

    /** set_parent on a root, with the labels and classes that go with it. */
    method Adopt(c: u16, p: u16, ghost before: Snap)
      requires Shape() && Sound(before) && Linkable(before, c, p)
      requires View() == before.(nodes := BumpRank(before.nodes, c, p))
      modifies this`usedRootListCount, this`rootOf, this`cls, blobSet, rootInfo
      ensures Shape() && View() == Link(before, c, p)
    {
      assert NodeOk(before.nodes, before.rootOf, c);
      assert EntryOk(before.nodes, before.roots, before.rootOf, usedRootListCount - 1);
      SetParent(c, p);
      cls := MergedClasses(rootOf, cls, c, p);
      rootOf := Relabelled(rootOf, c, p);
      assert View() == Link(before, c, p);
    }

    /** link: union by rank of two different roots. */
    method LinkRoots(s: u16, t: u16) returns (root: u16, ghost child: u16)
      requires Consistent() && IsRoot(rootOf, s) && IsRoot(rootOf, t) && s != t
      modifies this`usedRootListCount, this`rootOf, this`cls, blobSet, rootInfo
      ensures Shape() && root == (if old(blobSet[s].rank) > old(blobSet[t].rank) then s else t)
      ensures child == if root == s then t else s
      ensures Linkable(old(View()), child, root) && View() == Link(old(View()), child, root)
    {
      hide Sound;
      ghost var before := View();
      RootsAreLinkable(before, s, t);
      var sRank := blobSet[s].rank;
      var tRank := blobSet[t].rank;
      if sRank > tRank {
        Adopt(t, s, before);
        return s, t;
      } else {
        if sRank == tRank {
          tRank := tRank + 1;
          blobSet[t] := blobSet[t].(rank := tRank);
        }
        assert Nodes() == BumpRank(before.nodes, s, t);
        Adopt(s, t, before);
        return t, s;
      }
    }

    /** stats_add_singleton on the statistics of a root. */
    method AddSingleton(root: u16, row: u16, low: u16, high: u16)
      requires Shape() && RootLinked(View(), root) && low < high
      modifies this`cls, rootInfo
      ensures Shape() && View() == Extend(old(View()), root, Run(row, low, high))
    {
      ghost var before, run := View(), Run(row, low, high);
      var rx := blobSet[root].rootListIndex;
      rootInfo[rx] := rootInfo[rx].(stats := StatsAddSingleton(rootInfo[rx].stats, row, low, high));
      cls := Enlarged(rootOf, cls, root, run);
      assert View() == Extend(before, root, run);
    }

    /** The second run of a pair, added to the node just made for the first. */
    method AddSecond(root: u16, row: u16, low: u16, high: u16, ghost before: Snap, ghost a: Run)
      requires Shape() && Good(before, EdgeSet(unions)) && BottomsRecorded(before, unions)
      requires |before.nodes| == 1 + Starts(unions) && a.WellFormed() && row == a.row + 1 && low < high
      requires |before.nodes| < 0xFFFF && |before.roots| < 0xFFFF && root == |before.nodes|
      requires a !in AllRuns(before.cls) && Run(row, low, high) !in AllRuns(before.cls)
      requires View() == AddNode(before, a)
      modifies this`cls, this`unions, rootInfo
      ensures Coherent() && unions == old(unions) + [(a, Run(row, low, high))]
      ensures JoinedTo(before, View(), a, Run(row, low, high), root)
    {
      hide Sound, Generated, JoinedTo, Extend, AddNode, Economical, Blocks, BottomsRecorded, AllRuns, Starts, EdgeSet;
      ghost var b, h := Run(row, low, high), unions;
      NewPairMiddle(before, a, b);
      unions := unions + [(a, b)];
      assert View() == AddNode(before, a);
      AddSingleton(root, row, low, high);
      NewPairIsGood(before, EdgeSet(h), a, b);
      NewPairIsLogged(before, h, a, b);
    }

    /** The first case of yuv_run_union: neither run has a node. */
    method JoinNewPair(row: u16, low: u16, high: u16, bRow: u16, bLow: u16, bHigh: u16) returns (root: u16)
      requires Coherent() && low < high && bLow < bHigh && bRow == row + 1
      requires Run(row, low, high) !in AllRuns(cls) && Run(bRow, bLow, bHigh) !in AllRuns(cls)
      modifies this, blobSet, rootInfo
      ensures Coherent() && asked == old(asked)
      ensures old(IsFull()) ==> root == 0 && refused && View() == old(View()) && unions == old(unions)
      ensures !old(IsFull()) ==>
                && root != 0 && refused == old(refused)
                && unions == old(unions) + [(Run(row, low, high), Run(bRow, bLow, bHigh))]
                && JoinedTo(old(View()), View(), Run(row, low, high), Run(bRow, bLow, bHigh), root)
    {
      hide Generated, JoinedTo, Extend, Economical, Blocks, BottomsRecorded, AllRuns, Starts, EdgeSet;
      ghost var before, full := View(), IsFull();
      root := MakeSet(row, low, high);
      assert blobSet[root] == View().nodes[root];
      assert full ==> View() == before && before.nodes[0].rootListIndex == NOT_A_ROOT;
      var rx := blobSet[root].rootListIndex;
      if rx != NOT_A_ROOT {
        AddSecond(root, bRow, bLow, bHigh, before, Run(row, low, high));
      }
    }

    /** The simplified link of yuv_run_union: run b has no node and joins the class of run a. */
    method JoinSingleton(parent: u16, row: u16, low: u16, high: u16, ghost a: Run, ghost e: Edge) returns (root: u16)
      requires Coherent() && 1 <= parent < usedBlobSetCount && low < high
      requires a in cls[parent] && Run(row, low, high) !in AllRuns(cls)
      requires forall q :: q in AllRuns(cls) ==> q.row <= e.1.row
      requires e.1.row == e.0.row + 1 && (e == (a, Run(row, low, high)) || e == (Run(row, low, high), a))
      modifies this`usedRootListCount, this`cls, this`unions, blobSet, rootInfo
      ensures Coherent() && unions == old(unions) + [e]
      ensures JoinedTo(old(View()), View(), a, Run(row, low, high), root)
    {
      hide Sound, Generated, JoinedTo, Extend, Economical, Blocks, BottomsRecorded, Starts, EdgeSet, AllRuns;
      ghost var before, h, b := View(), unions, Run(row, low, high);
      root := FindRoot(parent);
      unions := unions + [e];
      ghost var middle := View();
      assert IsRoot(rootOf, root) && a in cls[root] by { RunOfRoot(before, parent, a); }
      assert RootLinked(middle, root) by { RootsAreLinked(middle, root); }
      AddSingleton(root, row, low, high);
      ExtendStepIsGood(before, middle, EdgeSet(h), root, a, b, e);
      ExtendStepIsLogged(before, middle, h, root, a, b, e);
    }

    /** The link of two roots found for runs a and b; s is the state before the searches. */
    method UnionRoots(aRoot: u16, bRoot: u16, ghost s: Snap, ghost a: Run, ghost b: Run)
        returns (root: u16, merged: bool)
      requires Consistent() && Good(s, EdgeSet(unions)) && BottomsRecorded(s, unions) && |s.nodes| == 1 + Starts(unions)
      requires |s.nodes| == usedBlobSetCount && rootOf == s.rootOf && cls == s.cls && Roots() == s.roots
      requires IsRoot(rootOf, aRoot) && IsRoot(rootOf, bRoot) && a in cls[aRoot] && b in cls[bRoot]
      modifies this`usedRootListCount, this`rootOf, this`cls, this`unions, blobSet, rootInfo
      ensures Coherent() && unions == old(unions) + [(a, b)]
      ensures JoinedTo(s, View(), a, b, root)
      ensures !merged ==> cls == old(cls)
    {
      hide Sound, Generated, JoinedTo, Link, Economical, Blocks, BottomsRecorded, Starts, EdgeSet;
      ghost var h := unions;
      unions := unions + [(a, b)];
      ghost var middle := View();
      if aRoot != bRoot {
        ghost var child;
        root, child := LinkRoots(aRoot, bRoot);
        merged := true;
        LinkStepIsGood(s, middle, EdgeSet(h), child, root, a, b);
        LinkStepIsLogged(s, middle, h, child, root, aRoot, a, b);
      } else {
        root, merged := aRoot, false;
        SameRootStepIsGood(s, middle, EdgeSet(h), root, a, b);
        SameRootStepIsLogged(s, middle, h, root, a, b);
      }
    }

    /** The last case of yuv_run_union: both runs have nodes. */
    method JoinNodes(aParent: u16, bParent: u16, ghost a: Run, ghost b: Run) returns (root: u16, merged: bool)
      requires Coherent() && 1 <= aParent < usedBlobSetCount && 1 <= bParent < usedBlobSetCount
      requires a in cls[aParent] && b in cls[bParent]
      modifies this`usedRootListCount, this`rootOf, this`cls, this`unions, blobSet, rootInfo
      ensures Coherent() && unions == old(unions) + [(a, b)]
      ensures JoinedTo(old(View()), View(), a, b, root)
      ensures !merged ==> cls == old(cls)
    {
      hide Sound, Generated, JoinedTo, Economical, Blocks, BottomsRecorded, Starts, EdgeSet;
      ghost var before := View();
      var aRoot := FindRoot(aParent);
      var bRoot := FindRoot(bParent);
      RunOfRoot(before, aParent, a);
      RunOfRoot(before, bParent, b);
      root, merged := UnionRoots(aRoot, bRoot, before, a, b);
    }

    /** The cases of yuv_run_union. */
    method JoinRuns(aRow: u16, a0: array<YuvRun>, ai: nat, bRow: u16, b0: array<YuvRun>, bi: nat)
      requires Coherent() && a0 != b0 && ai < a0.Length && bi < b0.Length && bRow == aRow + 1
      requires a0[ai].low < a0[ai].high && b0[bi].low < b0[bi].high
      requires Tracked(cls, a0[ai].parentIndex, ToRun(a0[ai], aRow))
      requires Tracked(cls, b0[bi].parentIndex, ToRun(b0[bi], bRow))
      requires forall q :: q in AllRuns(cls) ==> q.row <= bRow
      modifies this, blobSet, rootInfo, a0, b0
      ensures Coherent() && asked == old(asked)
      ensures SameButParent(a0[..], old(a0[..]), ai) && SameButParent(b0[..], old(b0[..]), bi)
      ensures var a, b := ToRun(old(a0[ai]), aRow), ToRun(old(b0[bi]), bRow);
              var refuse := a !in AllRuns(old(cls)) && b !in AllRuns(old(cls)) && old(IsFull());
              if refuse then
                refused && View() == old(View()) && unions == old(unions) &&
                a0[..] == old(a0[..]) && b0[..] == old(b0[..])
              else
                && refused == old(refused) && unions == old(unions) + [(a, b)]
                && (exists root :: JoinedTo(old(View()), View(), a, b, root))
                && a0[ai].parentIndex != 0 && b0[bi].parentIndex != 0
                && Tracked(cls, a0[ai].parentIndex, a) && Tracked(cls, b0[bi].parentIndex, b)
    {
      hide Good, JoinedTo, BottomsRecorded, AllRuns, Starts, EdgeSet;
      ghost var s, aRun, bRun := View(), ToRun(a0[ai], aRow), ToRun(b0[bi], bRow);
      var aParent, bParent := a0[ai].parentIndex, b0[bi].parentIndex;
      GoodSizes(s, EdgeSet(unions));
      if aParent != 0 { Accounted(cls, aParent, aRun); }
      if bParent != 0 { Accounted(cls, bParent, bRun); }
      if aParent == 0 && bParent == 0 {
        var aRoot := JoinNewPair(aRow, a0[ai].low, a0[ai].high, bRow, b0[bi].low, b0[bi].high);
        ghost var t := View();
        if aRoot != 0 { JoinedTracks(s, t, aRun, bRun, aRoot); }
        b0[bi] := b0[bi].(parentIndex := aRoot);
        a0[ai] := a0[ai].(parentIndex := aRoot);
        assert View() == t;
      } else {
        // a and b name the runs after the swap that makes a_parent nonzero.
        var a, i, b, j, row := a0, ai, b0, bi, bRow;
        ghost var r, q := aRun, bRun;
        if aParent == 0 {
          aParent, bParent := bParent, aParent;
          a, i, b, j, row := b0, bi, a0, ai, aRow;
          r, q := bRun, aRun;
        }
        if bParent == 0 {
          var root := JoinSingleton(aParent, row, b[j].low, b[j].high, r, (aRun, bRun));
          ghost var t := View();
          JoinedTracks(s, t, r, q, root);
          if r == bRun { JoinedToSym(s, t, r, q, root); }
          b[j] := b[j].(parentIndex := root);
          a[i] := a[i].(parentIndex := root);
          assert View() == t;
        } else {
          var root, merged := JoinNodes(aParent, bParent, aRun, bRun);
          ghost var t := View();
          JoinedTracks(s, t, aRun, bRun, root);
          if merged {
            a[i] := a[i].(parentIndex := root);
            b[j] := b[j].(parentIndex := root);
            assert View() == t;
          }
        }
      }
    }

    /** yuv_run_union: puts run a of one row and run b of the next into the same class. The union is
        refused exactly when neither run has a node and there is no space; then nothing changes. */
    method YuvRunUnion(aRow: u16, a0: array<YuvRun>, ai: nat, bRow: u16, b0: array<YuvRun>, bi: nat)
      requires Valid() && a0 != b0 && ai < a0.Length && bi < b0.Length && bRow == aRow + 1
      requires a0[ai].low < a0[ai].high && b0[bi].low < b0[bi].high
      requires Tracked(cls, a0[ai].parentIndex, ToRun(a0[ai], aRow))
      requires Tracked(cls, b0[bi].parentIndex, ToRun(b0[bi], bRow))
      requires forall q :: q in AllRuns(cls) ==> q.row <= bRow
      modifies this, blobSet, rootInfo, a0, b0
      ensures Valid() && asked == old(asked) + [(ToRun(old(a0[ai]), aRow), ToRun(old(b0[bi]), bRow))]
      ensures SameButParent(a0[..], old(a0[..]), ai) && SameButParent(b0[..], old(b0[..]), bi)
      ensures var a, b := ToRun(old(a0[ai]), aRow), ToRun(old(b0[bi]), bRow);
              var refuse := a !in AllRuns(old(cls)) && b !in AllRuns(old(cls)) && old(IsFull());
              if refuse then
                refused && View() == old(View()) && unions == old(unions) &&
                a0[..] == old(a0[..]) && b0[..] == old(b0[..])
              else
                && refused == old(refused) && unions == old(unions) + [(a, b)]
                && (exists root :: JoinedTo(old(View()), View(), a, b, root))
                && a0[ai].parentIndex != 0 && b0[bi].parentIndex != 0
                && Tracked(cls, a0[ai].parentIndex, a) && Tracked(cls, b0[bi].parentIndex, b)
    {
      hide Good, JoinedTo, BottomsRecorded, AllRuns, Starts, EdgeSet, SameButParent, Tracked, Crowded, Carried;
      ghost var s, e, full, runs := View(), (ToRun(a0[ai], aRow), ToRun(b0[bi], bRow)), IsFull(), AllRuns(cls);
      AskedMore(e);
      if full { FullMeansManyRuns(); }
      JoinRuns(aRow, a0, ai, bRow, b0, bi);
      if exists root :: JoinedTo(s, View(), e.0, e.1, root) {
        ghost var root :| JoinedTo(s, View(), e.0, e.1, root);
        JoinedRunsGrow(s, View(), e.0, e.1, root);
      }
      asked := asked + [e];
    }

    /** One union more: there is no room for it exactly when make_set would be refused. */
    lemma AskedMore(e: Edge)
      requires Valid()
      ensures var refuse := e.0 !in AllRuns(cls) && e.1 !in AllRuns(cls) && IsFull();
              && Carried(asked + [e], maxBlobSetCount, maxRootListCount) == (if refuse then unions else unions + [e])
              && (Crowded(asked + [e], maxBlobSetCount, maxRootListCount) <==> refused || refuse)
    {
      CarriedMore(asked, e, maxBlobSetCount, maxRootListCount);
      FullIffNoRoom(View(), unions, e, maxBlobSetCount, maxRootListCount);
      AccountedIffTouched(View(), EdgeSet(unions), e.0);
      AccountedIffTouched(View(), EdgeSet(unions), e.1);
      CrowdedMore(asked, e, maxBlobSetCount, maxRootListCount);
      AllCarriedIff(asked, maxBlobSetCount, maxRootListCount);
    }

    /** get_total_blob_pixel_count: the pixels of all runs accounted for. */
    method TotalBlobPixelCount() returns (total: int)
      requires Consistent()
      ensures total == FieldTo(Roots(), CountOf, |Roots()|) == Sum(Width, AllRuns(cls))
    {
      hide Sound;
      total := 0;
      var i := 0;
      while i < usedRootListCount
        invariant 0 <= i <= usedRootListCount && total == FieldTo(Roots(), CountOf, i)
      {
        total := total + rootInfo[i].stats.count;
        i := i + 1;
      }
      TotalsConserved(View());
    }
  }
}
