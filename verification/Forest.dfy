/** The disjoint-set forest of a Blob_List as values: what its two arrays hold, what they mean,
    the invariant, and the four changes the code makes to them. */
module Forest {
  import opened Words
  import opened BlobStats

  const NOT_A_ROOT: u16 := 0xFFFF

  datatype BlobSetEntry = BlobSetEntry(parentIndex: u16, rootListIndex: u16, rank: u16)

  datatype RootInfo = RootInfo(stats: BlobStats, setIndex: u16)

  /** The used parts of blob_set and root_info; the root of every node, and the runs in its class. */
  datatype Snap = Snap(nodes: seq<BlobSetEntry>, roots: seq<RootInfo>, rootOf: seq<nat>, cls: seq<set<Run>>)

  /** A node in use: its label is a node in use, agrees along the parent pointer and is its own
      label; parent and label are the node itself together; ranks rise strictly towards the root. */
  ghost predicate NodeOk(nodes: seq<BlobSetEntry>, rootOf: seq<nat>, i: int)
    requires 1 <= i < |nodes| == |rootOf|
  {
    var p, r := nodes[i].parentIndex, rootOf[i];
    && 1 <= p < |nodes| && 1 <= r < |nodes|
    && rootOf[p] == r && rootOf[r] == r
    && (p == i <==> r == i)
    && (r != i ==> nodes[i].rank < nodes[p].rank && nodes[i].rank < nodes[r].rank)
  }

  /** Index 0 is reserved, and every other node is as it should be. */
  ghost predicate ForestOk(nodes: seq<BlobSetEntry>, rootOf: seq<nat>) {
    && 1 <= |nodes| == |rootOf|
    && nodes[0] == BlobSetEntry(0, NOT_A_ROOT, 0) && rootOf[0] == 0
    && forall i :: 1 <= i < |nodes| ==> NodeOk(nodes, rootOf, i)
  }

  ghost predicate IsRoot(rootOf: seq<nat>, i: int) {
    1 <= i < |rootOf| && rootOf[i] == i
  }

  /** The nodes under a root. */
  ghost function Members(rootOf: seq<nat>, r: nat): set<nat> {
    set i: nat | i < |rootOf| && rootOf[i] == r
  }

  ghost predicate SizesOk(nodes: seq<BlobSetEntry>, rootOf: seq<nat>)
    requires |nodes| == |rootOf|
  {
    forall r :: IsRoot(rootOf, r) ==> Pow2(nodes[r].rank) <= |Members(rootOf, r)|
  }

  /** A node knows its entry of root_info exactly when it is a root. */
  ghost predicate BackOk(nodes: seq<BlobSetEntry>, roots: seq<RootInfo>, rootOf: seq<nat>, i: int)
    requires 1 <= i < |nodes| == |rootOf|
  {
    var k := nodes[i].rootListIndex;
    if rootOf[i] == i then k < |roots| && roots[k].setIndex == i else k == NOT_A_ROOT
  }

  /** An entry of root_info belongs to a root that points back at it. */
  ghost predicate EntryOk(nodes: seq<BlobSetEntry>, roots: seq<RootInfo>, rootOf: seq<nat>, k: int)
    requires 0 <= k < |roots| && |nodes| == |rootOf|
  {
    IsRoot(rootOf, roots[k].setIndex) && nodes[roots[k].setIndex].rootListIndex == k
  }

  /** root_list_index is set exactly at roots, and it and set_index are mutually inverse. */
  ghost predicate LinksOk(nodes: seq<BlobSetEntry>, roots: seq<RootInfo>, rootOf: seq<nat>)
    requires |nodes| == |rootOf|
  {
    && |roots| < 0x1_0000
    && (forall i :: 1 <= i < |nodes| ==> BackOk(nodes, roots, rootOf, i))
    && (forall k :: 0 <= k < |roots| ==> EntryOk(nodes, roots, rootOf, k))
  }

  /** A node's class is its root's class and is not empty. */
  ghost predicate ClassOk(rootOf: seq<nat>, cls: seq<set<Run>>, i: int)
    requires 1 <= i < |rootOf| == |cls|
  {
    rootOf[i] < |cls| && cls[i] == cls[rootOf[i]] && cls[i] != {}
  }

  ghost predicate ClassesOk(rootOf: seq<nat>, cls: seq<set<Run>>) {
    && |cls| == |rootOf|
    && (forall i :: 1 <= i < |rootOf| ==> ClassOk(rootOf, cls, i))
    && (forall i, j :: IsRoot(rootOf, i) && IsRoot(rootOf, j) && i != j ==> cls[i] !! cls[j])
  }

  ghost predicate StatOk(roots: seq<RootInfo>, cls: seq<set<Run>>, k: int)
    requires 0 <= k < |roots|
  {
    roots[k].setIndex < |cls| && Describes(roots[k].stats, cls[roots[k].setIndex])
  }

  ghost predicate StatsOk(roots: seq<RootInfo>, cls: seq<set<Run>>) {
    forall k :: 0 <= k < |roots| ==> StatOk(roots, cls, k)
  }

  ghost predicate Sound(s: Snap) {
    ForestOk(s.nodes, s.rootOf) && SizesOk(s.nodes, s.rootOf) && LinksOk(s.nodes, s.roots, s.rootOf) &&
    ClassesOk(s.rootOf, s.cls) && StatsOk(s.roots, s.cls)
  }

  const EMPTY := Snap([BlobSetEntry(0, NOT_A_ROOT, 0)], [], [0], [{}])

  lemma EmptyIsSound()
    ensures Sound(EMPTY)
  {
  }

  // ----- Depth and rank -----

  /** Following parent pointers, as find_root_recursive does; the second component counts the hops. */
  ghost function Chase(nodes: seq<BlobSetEntry>, rootOf: seq<nat>, i: nat): (nat, nat)
    requires ForestOk(nodes, rootOf) && 1 <= i < |nodes|
    decreases 0x1_0000 - nodes[i].rank
  {
    assert NodeOk(nodes, rootOf, i);
    if nodes[i].parentIndex == i then (i, 0)
    else
      var (r, d) := Chase(nodes, rootOf, nodes[i].parentIndex);
      (r, d + 1)
  }

  /** Parent pointers lead from every node to its label, in at most as many hops as its root's rank. */
  lemma {:induction false} ChaseFindsRoot(nodes: seq<BlobSetEntry>, rootOf: seq<nat>, i: nat)
    requires ForestOk(nodes, rootOf) && 1 <= i < |nodes|
    ensures 1 <= rootOf[i] < |nodes|
    ensures Chase(nodes, rootOf, i).0 == rootOf[i]
    ensures Chase(nodes, rootOf, i).1 + nodes[i].rank <= nodes[rootOf[i]].rank
    decreases 0x1_0000 - nodes[i].rank
  {
    assert NodeOk(nodes, rootOf, i);
    if nodes[i].parentIndex != i {
      ChaseFindsRoot(nodes, rootOf, nodes[i].parentIndex);
    }
  }

  lemma {:induction false} BoundedSetSize(s: set<nat>, n: nat)
    requires forall i :: i in s ==> 1 <= i < n
    ensures |s| <= n - 1 || s == {}
    decreases n
  {
    if s != {} {
      var t := s - {n - 1};
      BoundedSetSize(t, n - 1);
      assert |s| <= |t| + 1;
    }
  }

  /** A root of rank r has at least 2^r nodes under it, so every rank, and with it every path to a
      root, is at most the base-2 logarithm of the number of nodes in use. */
  lemma RankIsLogarithmic(nodes: seq<BlobSetEntry>, rootOf: seq<nat>, i: nat)
    requires ForestOk(nodes, rootOf) && SizesOk(nodes, rootOf) && 1 <= i < |nodes|
    ensures Pow2(nodes[i].rank) <= |nodes| - 1
    ensures Pow2(Chase(nodes, rootOf, i).1) <= |nodes| - 1
  {
    ChaseFindsRoot(nodes, rootOf, i);
    var r := rootOf[i];
    assert NodeOk(nodes, rootOf, i);
    assert IsRoot(rootOf, r) && r in Members(rootOf, r);
    BoundedSetSize(Members(rootOf, r), |nodes|);
    Pow2Mono(nodes[i].rank, nodes[r].rank);
    Pow2Mono(Chase(nodes, rootOf, i).1, nodes[r].rank);
  }

  /** An unsigned short index range keeps every rank below 16, so the rank field never overflows. */
  lemma RankFitsUshort(nodes: seq<BlobSetEntry>, rootOf: seq<nat>, i: nat)
    requires ForestOk(nodes, rootOf) && SizesOk(nodes, rootOf) && 1 <= i < |nodes| <= 0x1_0000
    ensures nodes[i].rank < 16
  {
    Pow2Values();
    RankIsLogarithmic(nodes, rootOf, i);
    if nodes[i].rank >= 16 {
      Pow2Mono(16, nodes[i].rank);
    }
  }

  // ----- The four changes -----

  /** make_set: a new node that is its own root, with a new entry at the end of root_info. */
  ghost function AddNode(s: Snap, r: Run): Snap
    requires |s.nodes| < 0x1_0000 && |s.roots| < 0x1_0000 && r.WellFormed()
  {
    var n := |s.nodes|;
    Snap(s.nodes + [BlobSetEntry(n, |s.roots|, 0)],
         s.roots + [RootInfo(StatsInit(r.row, r.low, r.high), n)],
         s.rootOf + [n], s.cls + [{r}])
  }

  /** Path compression: node i points straight at its root. */
  ghost function Compress(s: Snap, i: nat): Snap
    requires 1 <= i < |s.nodes| && |s.nodes| == |s.rootOf| && s.rootOf[i] < 0x1_0000
  {
    s.(nodes := s.nodes[i := s.nodes[i].(parentIndex := s.rootOf[i])])
  }

  ghost predicate RootLinked(s: Snap, i: nat) {
    IsRoot(s.rootOf, i) && |s.nodes| == |s.rootOf| == |s.cls| <= 0x1_0000 &&
    s.nodes[i].rootListIndex < |s.roots| && s.roots[s.nodes[i].rootListIndex].setIndex == i
  }

  lemma RootsAreLinked(s: Snap, i: nat)
    requires Sound(s) && IsRoot(s.rootOf, i) && |s.nodes| <= 0x1_0000
    ensures RootLinked(s, i) && s.cls[i] != {}
    ensures StatOk(s.roots, s.cls, s.nodes[i].rootListIndex)
    ensures forall j :: 1 <= j < |s.rootOf| && s.rootOf[j] == i ==> s.cls[j] == s.cls[i]
  {
    assert BackOk(s.nodes, s.roots, s.rootOf, i);
    assert ClassOk(s.rootOf, s.cls, i);
    forall j | 1 <= j < |s.rootOf| && s.rootOf[j] == i
      ensures s.cls[j] == s.cls[i]
    {
      assert ClassOk(s.rootOf, s.cls, j);
    }
  }

  /** A run without a node joins the class of root i: only statistics change. */
  ghost function Extend(s: Snap, i: nat, r: Run): Snap
    requires RootLinked(s, i) && r.WellFormed()
  {
    var k := s.nodes[i].rootListIndex;
    s.(roots := s.roots[k := s.roots[k].(stats := StatsAddSingleton(s.roots[k].stats, r.row, r.low, r.high))],
       cls := Enlarged(s.rootOf, s.cls, i, r))
  }

  ghost function Enlarged(rootOf: seq<nat>, cls: seq<set<Run>>, i: nat, r: Run): seq<set<Run>>
    requires |rootOf| == |cls|
  {
    seq(|cls|, j requires 0 <= j < |cls| => if rootOf[j] == i then cls[j] + {r} else cls[j])
  }

  /** set_parent on a root: the last entry of root_info moves into the child's place, and the
      child is no longer a root. */
  ghost function SetParentNodes(nodes: seq<BlobSetEntry>, roots: seq<RootInfo>, c: nat, p: nat): seq<BlobSetEntry>
    requires c < |nodes| && p < 0x1_0000 && roots != []
    requires roots[|roots| - 1].setIndex < |nodes|
  {
    var last := roots[|roots| - 1].setIndex;
    var moved := nodes[last := nodes[last].(rootListIndex := nodes[c].rootListIndex)];
    moved[c := moved[c].(rootListIndex := NOT_A_ROOT, parentIndex := p)]
  }

  /** The statistics merged into entry prx, and entry crx overwritten by the last one. */
  ghost function SetParentRoots(roots: seq<RootInfo>, crx: nat, prx: nat): seq<RootInfo>
    requires crx < |roots| && prx < |roots|
  {
    var merged := roots[prx := roots[prx].(stats := StatsAdd(roots[prx].stats, roots[crx].stats))];
    merged[crx := merged[|roots| - 1]][..|roots| - 1]
  }

  /** The nodes after link has counted a tie in rank. */
  ghost function BumpRank(nodes: seq<BlobSetEntry>, c: nat, p: nat): seq<BlobSetEntry>
    requires c < |nodes| && p < |nodes| && nodes[p].rank < 0xFFFF
  {
    if nodes[c].rank == nodes[p].rank then nodes[p := nodes[p].(rank := nodes[p].rank + 1)] else nodes
  }

  ghost function Relabelled(rootOf: seq<nat>, c: nat, p: nat): seq<nat> {
    seq(|rootOf|, i requires 0 <= i < |rootOf| => if rootOf[i] == c then p else rootOf[i])
  }

  ghost function MergedClasses(rootOf: seq<nat>, cls: seq<set<Run>>, c: nat, p: nat): seq<set<Run>>
    requires |rootOf| == |cls| && c < |cls| && p < |cls|
  {
    seq(|cls|, i requires 0 <= i < |cls| =>
      if rootOf[i] == c || rootOf[i] == p then cls[c] + cls[p] else cls[i])
  }

  /** What link asks of its arguments: two different roots, the child's rank not above the parent's. */
  ghost predicate Linkable(s: Snap, c: nat, p: nat) {
    RootLinked(s, c) && RootLinked(s, p) && c != p && s.nodes[c].rank <= s.nodes[p].rank < 0xFFFF &&
    s.roots[|s.roots| - 1].setIndex < |s.nodes|
  }

  /** link with c the child and p the parent. */
  ghost function Link(s: Snap, c: nat, p: nat): Snap
    requires Linkable(s, c, p)
  {
    Snap(SetParentNodes(BumpRank(s.nodes, c, p), s.roots, c, p),
         SetParentRoots(s.roots, s.nodes[c].rootListIndex, s.nodes[p].rootListIndex),
         Relabelled(s.rootOf, c, p),
         MergedClasses(s.rootOf, s.cls, c, p))
  }

  // ----- AddNode keeps the invariant -----

  lemma AddNodeSizesOk(s: Snap, r: Run)
    requires Sound(s) && |s.nodes| < 0xFFFF && |s.roots| < 0xFFFF && r.WellFormed()
    ensures SizesOk(AddNode(s, r).nodes, AddNode(s, r).rootOf)
  {
    var t := AddNode(s, r);
    var n := |s.nodes|;
    forall i | IsRoot(t.rootOf, i)
      ensures Pow2(t.nodes[i].rank) <= |Members(t.rootOf, i)|
    {
      if i == n {
        forall j | 1 <= j < n
          ensures t.rootOf[j] != n
        {
          assert NodeOk(s.nodes, s.rootOf, j);
        }
        assert Members(t.rootOf, n) == {n};
      } else {
        assert IsRoot(s.rootOf, i);
        assert Members(t.rootOf, i) == Members(s.rootOf, i);
      }
    }
  }

  lemma AddNodeForestOk(s: Snap, r: Run)
    requires Sound(s) && |s.nodes| < 0xFFFF && |s.roots| < 0xFFFF && r.WellFormed()
    ensures ForestOk(AddNode(s, r).nodes, AddNode(s, r).rootOf)
    ensures LinksOk(AddNode(s, r).nodes, AddNode(s, r).roots, AddNode(s, r).rootOf)
  {
    var t := AddNode(s, r);
    forall i | 1 <= i < |t.nodes|
      ensures NodeOk(t.nodes, t.rootOf, i) && BackOk(t.nodes, t.roots, t.rootOf, i)
    {
      if i < |s.nodes| {
        assert NodeOk(s.nodes, s.rootOf, i) && BackOk(s.nodes, s.roots, s.rootOf, i);
      }
    }
    forall k | 0 <= k < |t.roots|
      ensures EntryOk(t.nodes, t.roots, t.rootOf, k)
    {
      if k < |s.roots| {
        assert EntryOk(s.nodes, s.roots, s.rootOf, k);
      }
    }
  }

  lemma AddNodeClassesOk(s: Snap, r: Run)
    requires Sound(s) && |s.nodes| < 0xFFFF && |s.roots| < 0xFFFF && r.WellFormed()
    requires forall i :: 1 <= i < |s.cls| ==> r !in s.cls[i]
    ensures ClassesOk(AddNode(s, r).rootOf, AddNode(s, r).cls)
    ensures StatsOk(AddNode(s, r).roots, AddNode(s, r).cls)
  {
    var t := AddNode(s, r);
    var n := |s.nodes|;
    forall i | 1 <= i < |t.rootOf|
      ensures ClassOk(t.rootOf, t.cls, i)
    {
      if i < n {
        assert ClassOk(s.rootOf, s.cls, i);
      }
    }
    forall i, j | IsRoot(t.rootOf, i) && IsRoot(t.rootOf, j) && i != j
      ensures t.cls[i] !! t.cls[j]
    {
      assert i != n ==> IsRoot(s.rootOf, i);
      assert j != n ==> IsRoot(s.rootOf, j);
    }
    InitDescribes(r);
    forall k | 0 <= k < |t.roots|
      ensures StatOk(t.roots, t.cls, k)
    {
      if k < |s.roots| {
        assert StatOk(s.roots, s.cls, k);
      }
    }
  }

  lemma AddNodeIsSound(s: Snap, r: Run)
    requires Sound(s) && |s.nodes| < 0xFFFF && |s.roots| < 0xFFFF && r.WellFormed()
    requires forall i :: 1 <= i < |s.cls| ==> r !in s.cls[i]
    ensures Sound(AddNode(s, r))
  {
    AddNodeForestOk(s, r);
    AddNodeSizesOk(s, r);
    AddNodeClassesOk(s, r);
  }

  // ----- Compress keeps it -----

  lemma CompressIsSound(s: Snap, i: nat)
    requires Sound(s) && 1 <= i < |s.nodes| <= 0x1_0000
    ensures s.rootOf[i] < 0x1_0000 && Sound(Compress(s, i))
  {
    assert NodeOk(s.nodes, s.rootOf, i);
    var t := Compress(s, i);
    forall j | 1 <= j < |t.nodes|
      ensures NodeOk(t.nodes, t.rootOf, j) && BackOk(t.nodes, t.roots, t.rootOf, j)
    {
      assert NodeOk(s.nodes, s.rootOf, j) && BackOk(s.nodes, s.roots, s.rootOf, j);
    }
    forall k | 0 <= k < |t.roots|
      ensures EntryOk(t.nodes, t.roots, t.rootOf, k)
    {
      assert EntryOk(s.nodes, s.roots, s.rootOf, k);
    }
  }

  // ----- Extend keeps it -----

  lemma ExtendClassesOk(s: Snap, i: nat, r: Run)
    requires Sound(s) && RootLinked(s, i) && r.WellFormed()
    requires forall j :: 1 <= j < |s.cls| ==> r !in s.cls[j]
    ensures ClassesOk(Extend(s, i, r).rootOf, Extend(s, i, r).cls)
  {
    var t := Extend(s, i, r);
    forall j | 1 <= j < |t.rootOf|
      ensures ClassOk(t.rootOf, t.cls, j)
    {
      assert ClassOk(s.rootOf, s.cls, j) && NodeOk(s.nodes, s.rootOf, j);
    }
    forall j, l | IsRoot(t.rootOf, j) && IsRoot(t.rootOf, l) && j != l
      ensures t.cls[j] !! t.cls[l]
    {
      assert IsRoot(s.rootOf, j) && IsRoot(s.rootOf, l);
    }
  }

  lemma ExtendStatsOk(s: Snap, i: nat, r: Run)
    requires Sound(s) && RootLinked(s, i) && r.WellFormed()
    requires forall j :: 1 <= j < |s.cls| ==> r !in s.cls[j]
    requires forall q :: q in s.cls[i] ==> q.row <= r.row + 1
    ensures StatsOk(Extend(s, i, r).roots, Extend(s, i, r).cls)
  {
    var t := Extend(s, i, r);
    var k := s.nodes[i].rootListIndex;
    assert StatOk(s.roots, s.cls, k);
    SingletonDescribes(s.roots[k].stats, s.cls[i], r);
    forall l | 0 <= l < |t.roots|
      ensures StatOk(t.roots, t.cls, l)
    {
      assert StatOk(s.roots, s.cls, l) && EntryOk(s.nodes, s.roots, s.rootOf, l);
    }
  }

  lemma ExtendIsSound(s: Snap, i: nat, r: Run)
    requires Sound(s) && RootLinked(s, i) && r.WellFormed()
    requires forall j :: 1 <= j < |s.cls| ==> r !in s.cls[j]
    requires forall q :: q in s.cls[i] ==> q.row <= r.row + 1
    ensures Sound(Extend(s, i, r))
  {
    var t := Extend(s, i, r);
    ExtendClassesOk(s, i, r);
    ExtendStatsOk(s, i, r);
    forall j | 1 <= j < |t.nodes|
      ensures BackOk(t.nodes, t.roots, t.rootOf, j)
    {
      assert BackOk(s.nodes, s.roots, s.rootOf, j);
    }
    forall k | 0 <= k < |t.roots|
      ensures EntryOk(t.nodes, t.roots, t.rootOf, k)
    {
      assert EntryOk(s.nodes, s.roots, s.rootOf, k);
    }
  }

  // ----- Link keeps it -----

  lemma LinkForestOk(s: Snap, c: nat, p: nat)
    requires Sound(s) && Linkable(s, c, p)
    ensures ForestOk(Link(s, c, p).nodes, Link(s, c, p).rootOf)
  {
    hide SizesOk, ClassesOk, StatsOk;
    var t := Link(s, c, p);
    assert NodeOk(s.nodes, s.rootOf, c) && NodeOk(s.nodes, s.rootOf, p);
    forall k | 0 <= k < |s.roots|
      ensures IsRoot(s.rootOf, s.roots[k].setIndex)
    {
      assert EntryOk(s.nodes, s.roots, s.rootOf, k);
    }
    forall i | 1 <= i < |t.nodes|
      ensures NodeOk(t.nodes, t.rootOf, i)
    {
      assert NodeOk(s.nodes, s.rootOf, i);
      assert i != c ==> t.nodes[i].parentIndex == s.nodes[i].parentIndex;
      assert i != p ==> t.nodes[i].rank == s.nodes[i].rank;
    }
  }

  lemma LinkSizesOk(s: Snap, c: nat, p: nat)
    requires Sound(s) && Linkable(s, c, p)
    ensures |Link(s, c, p).nodes| == |Link(s, c, p).rootOf|
    ensures SizesOk(Link(s, c, p).nodes, Link(s, c, p).rootOf)
  {
    hide ClassesOk, StatsOk, LinksOk;
    var t := Link(s, c, p);
    forall r | IsRoot(t.rootOf, r)
      ensures Pow2(t.nodes[r].rank) <= |Members(t.rootOf, r)|
    {
      assert IsRoot(s.rootOf, r);
      if r == p {
        assert Members(t.rootOf, p) == Members(s.rootOf, c) + Members(s.rootOf, p);
        assert Members(s.rootOf, c) !! Members(s.rootOf, p);
        assert Pow2(s.nodes[c].rank + 1) == 2 * Pow2(s.nodes[c].rank);
      } else {
        assert Members(t.rootOf, r) == Members(s.rootOf, r);
        assert t.nodes[r].rank == s.nodes[r].rank;
      }
    }
  }

  lemma LinkBackOk(s: Snap, c: nat, p: nat)
    requires Sound(s) && Linkable(s, c, p)
    ensures |Link(s, c, p).nodes| == |Link(s, c, p).rootOf|
    ensures forall i :: 1 <= i < |s.nodes| ==>
              BackOk(Link(s, c, p).nodes, Link(s, c, p).roots, Link(s, c, p).rootOf, i)
  {
    var t := Link(s, c, p);
    var n := |s.roots|;
    var crx := s.nodes[c].rootListIndex;
    assert EntryOk(s.nodes, s.roots, s.rootOf, n - 1) && EntryOk(s.nodes, s.roots, s.rootOf, crx);
    forall i | 1 <= i < |t.nodes|
      ensures BackOk(t.nodes, t.roots, t.rootOf, i)
    {
      assert BackOk(s.nodes, s.roots, s.rootOf, i);
      if s.rootOf[i] == i && i != c {
        var from := s.nodes[i].rootListIndex;
        assert from != crx;
        assert t.nodes[i].rootListIndex == if from == n - 1 then crx else from;
      }
    }
  }

  lemma LinkEntriesOk(s: Snap, c: nat, p: nat)
    requires Sound(s) && Linkable(s, c, p)
    ensures |Link(s, c, p).nodes| == |Link(s, c, p).rootOf|
    ensures forall k :: 0 <= k < |s.roots| - 1 ==>
              EntryOk(Link(s, c, p).nodes, Link(s, c, p).roots, Link(s, c, p).rootOf, k)
  {
    var t := Link(s, c, p);
    var n := |s.roots|;
    var crx := s.nodes[c].rootListIndex;
    assert EntryOk(s.nodes, s.roots, s.rootOf, n - 1) && EntryOk(s.nodes, s.roots, s.rootOf, crx);
    forall k | 0 <= k < |t.roots|
      ensures EntryOk(t.nodes, t.roots, t.rootOf, k)
    {
      var from := if k == crx then n - 1 else k;
      assert from != crx;
      assert EntryOk(s.nodes, s.roots, s.rootOf, from);
      assert t.roots[k].setIndex == s.roots[from].setIndex;
    }
  }

  lemma LinkClassesOk(s: Snap, c: nat, p: nat)
    requires Sound(s) && Linkable(s, c, p)
    ensures ClassesOk(Link(s, c, p).rootOf, Link(s, c, p).cls)
  {
    var t := Link(s, c, p);
    RootsAreLinked(s, c);
    RootsAreLinked(s, p);
    forall i | 1 <= i < |t.rootOf|
      ensures ClassOk(t.rootOf, t.cls, i)
    {
      assert ClassOk(s.rootOf, s.cls, i) && NodeOk(s.nodes, s.rootOf, i);
    }
    forall i, j | IsRoot(t.rootOf, i) && IsRoot(t.rootOf, j) && i != j
      ensures t.cls[i] !! t.cls[j]
    {
      assert IsRoot(s.rootOf, i) && IsRoot(s.rootOf, j);
      assert IsRoot(s.rootOf, c) && IsRoot(s.rootOf, p);
    }
  }

  lemma LinkStatsOk(s: Snap, c: nat, p: nat)
    requires Sound(s) && Linkable(s, c, p)
    ensures StatsOk(Link(s, c, p).roots, Link(s, c, p).cls)
  {
    hide ForestOk, SizesOk, Describes;
    var t := Link(s, c, p);
    var crx, prx := s.nodes[c].rootListIndex, s.nodes[p].rootListIndex;
    RootsAreLinked(s, c);
    RootsAreLinked(s, p);
    AddDescribes(s.roots[prx].stats, s.cls[p], s.roots[crx].stats, s.cls[c]);
    assert s.cls[c] + s.cls[p] == s.cls[p] + s.cls[c];
    forall k | 0 <= k < |t.roots|
      ensures StatOk(t.roots, t.cls, k)
    {
      var from := if k == crx then |s.roots| - 1 else k;
      assert EntryOk(s.nodes, s.roots, s.rootOf, from) && StatOk(s.roots, s.cls, from);
      assert EntryOk(s.nodes, s.roots, s.rootOf, crx);
      assert from != crx;
      assert t.roots[k].setIndex == s.roots[from].setIndex;
      if from != prx {
        assert t.roots[k].stats == s.roots[from].stats;
      }
    }
  }

  lemma LinkIsSound(s: Snap, c: nat, p: nat)
    requires Sound(s) && Linkable(s, c, p)
    ensures Sound(Link(s, c, p))
  {
    LinkForestOk(s, c, p);
    LinkSizesOk(s, c, p);
    LinkBackOk(s, c, p);
    LinkEntriesOk(s, c, p);
    LinkClassesOk(s, c, p);
    LinkStatsOk(s, c, p);
  }
}
