/** A whole pass with line 95 comparing with max_y: each union makes a short sequence of the changes of
    MaxGuard, path compressions included, and at the end every box is exact in pixels. */
module MaxGuardPass {
  import opened Folds
  import opened BlobStats
  import opened Forest
  import opened Partition
  import opened UnionLog
  import opened BlobLists
  import opened MaxGuard
  import opened Pixels
  import opened LateRuns
  import opened Detect

  /** The root of the class of r. */
  ghost function RootFor(s: Snap, r: Run): (i: nat)
    requires Sound(s) && r in AllRuns(s.cls)
    ensures IsRoot(s.rootOf, i) && |s.cls| == |s.rootOf| == |s.nodes| && r in s.cls[i]
  {
    var j: nat :| 1 <= j < |s.cls| && r in s.cls[j];
    RunOfRoot(s, j, r);
    s.rootOf[j]
  }

  ghost predicate IsFull(s: Snap, sets: int, places: int) {
    |s.nodes| >= sets || |s.roots| >= places
  }

  /** What one union of runs that need no path compression any more does to the list. */
  ghost function UnionChanges(s: Snap, e: Edge, sets: int, places: int): seq<Change>
    requires Sound(s)
  {
    var a, b := e.0, e.1;
    if a !in AllRuns(s.cls) && b !in AllRuns(s.cls) then
      if IsFull(s, sets, places) then [] else [MakeSet(a), Join(|s.nodes|, b)]
    else if b !in AllRuns(s.cls) then [Join(RootFor(s, a), b)]
    else if a !in AllRuns(s.cls) then [Join(RootFor(s, b), a)]
    else
      var i, j := RootFor(s, a), RootFor(s, b);
      if i == j then []
      else if s.nodes[i].rank > s.nodes[j].rank then [LinkRoots(j, i)]
      else [LinkRoots(i, j)]
  }

  /** The list is right, with exact bottoms, and holds the partition of the unions in h. */
  ghost predicate Exact(s: Snap, h: seq<Edge>, sets: int) {
    && Sound(s) && BottomsExact(s) && Generated(Blocks(s), EdgeSet(h)) && Economical(s)
    && |s.nodes| == 1 + Starts(h) && (|s.nodes| <= sets || |s.nodes| == 1)
  }

  lemma ExactIsGood(s: Snap, h: seq<Edge>, sets: int)
    requires Exact(s, h, sets)
    ensures Good(s, EdgeSet(h)) && Sound(s) && |s.nodes| == |s.rootOf| == |s.cls|
  {
  }

  /** ExtendMaxGuard differs from Extend in statistics only. */
  lemma SameButStats(s: Snap, i: nat, r: Run)
    requires RootLinked(s, i) && r.WellFormed()
    ensures var t, u := ExtendMaxGuard(s, i, r), Extend(s, i, r);
            t.nodes == u.nodes && t.rootOf == u.rootOf && t.cls == u.cls && |t.roots| == |u.roots|
  {
  }

  lemma SameBlocks(t: Snap, u: Snap)
    requires |u.cls| == |u.rootOf| && t.nodes == u.nodes && t.rootOf == u.rootOf && t.cls == u.cls
    ensures |t.cls| == |t.rootOf| && Blocks(t) == Blocks(u) && (Economical(u) ==> Economical(t))
  {
  }

  /** A list with exact bottoms that otherwise looks like u. */
  lemma LooksLike(t: Snap, u: Snap, h: seq<Edge>, sets: int)
    requires Sound(t) && BottomsExact(t) && t.nodes == u.nodes && t.rootOf == u.rootOf && t.cls == u.cls
    requires |u.cls| == |u.rootOf| && Generated(Blocks(u), EdgeSet(h)) && Economical(u)
    requires |u.nodes| == 1 + Starts(h) && (|u.nodes| <= sets || |u.nodes| == 1)
    ensures Exact(t, h, sets)
  {
    hide Sound, BottomsExact, Generated, Economical, EdgeSet, Starts;
    SameBlocks(t, u);
  }

  lemma PairMade(s: Snap, h: seq<Edge>, e: Edge)
    requires Good(s, EdgeSet(h)) && |s.nodes| == 1 + Starts(h) && |s.nodes| < 0xFFFF && |s.roots| < 0xFFFF
    requires e.0.WellFormed() && e.1.WellFormed() && e.1.row == e.0.row + 1
    requires e.0 !in AllRuns(s.cls) && e.1 !in AllRuns(s.cls)
    ensures RootLinked(AddNode(s, e.0), |s.nodes|) && e.1 !in AllRuns(AddNode(s, e.0).cls)
    ensures var u := NewPair(s, e.0, e.1);
            && |u.cls| == |u.rootOf| && Generated(Blocks(u), EdgeSet(h + [e])) && Economical(u)
            && |u.nodes| == |s.nodes| + 1 == 1 + Starts(h + [e])
  {
    hide Sound, Generated, Economical, JoinedTo, Blocks, AllRuns, EdgeSet, Starts;
    NewPairIsLoggedRoom(s, h, e);
    NewPairIsGood(s, EdgeSet(h), e.0, e.1);
    GoodSizes(NewPair(s, e.0, e.1), EdgeSet(h + [e]));
    NewPairFresh(s, e.0, e.1);
  }

  lemma NewPairFresh(s: Snap, a: Run, b: Run)
    requires Sound(s) && |s.nodes| < 0xFFFF && |s.roots| < 0xFFFF && a.WellFormed() && a != b
    requires a !in AllRuns(s.cls) && b !in AllRuns(s.cls)
    ensures b !in AllRuns(AddNode(s, a).cls)
  {
    NewPairMiddle(s, a, b);
  }

  lemma PairExact(s: Snap, h: seq<Edge>, e: Edge, sets: int, places: int)
    requires Exact(s, h, sets) && !IsFull(s, sets, places) && sets <= 0xFFFF && places <= 0xFFFF
    requires e.0.WellFormed() && e.1.WellFormed() && e.1.row == e.0.row + 1
    requires e.0 !in AllRuns(s.cls) && e.1 !in AllRuns(s.cls)
    ensures ArePossible(s, [MakeSet(e.0), Join(|s.nodes|, e.1)])
    ensures Exact(After(s, [MakeSet(e.0), Join(|s.nodes|, e.1)]), h + [e], sets)
  {
    hide Sound, BottomsExact, Generated, Economical, JoinedTo, Blocks, AllRuns, EdgeSet, Starts, ExtendMaxGuard, Extend,
      AddNode, RootLinked;
    var n, m := |s.nodes|, AddNode(s, e.0);
    ExactIsGood(s, h, sets);
    PairMade(s, h, e);
    MakeSetExact(s, e.0);
    JoinExact(m, n, e.1);
    SameButStats(m, n, e.1);
    TwoChanges(s, MakeSet(e.0), Join(n, e.1));
    LooksLike(ExtendMaxGuard(m, n, e.1), NewPair(s, e.0, e.1), h + [e], sets);
  }

  lemma NewPairIsLoggedRoom(s: Snap, h: seq<Edge>, e: Edge)
    requires Good(s, EdgeSet(h)) && e.0 !in AllRuns(s.cls) && e.1 !in AllRuns(s.cls)
    ensures EdgeSet(h + [e]) == EdgeSet(h) + {(e.0, e.1)} && Starts(h + [e]) == Starts(h) + 1
  {
    EdgeSetMore(h, e);
    StartsMore(h, e);
    AccountedIffTouched(s, EdgeSet(h), e.0);
    AccountedIffTouched(s, EdgeSet(h), e.1);
    assert e == (e.0, e.1);
  }

  lemma TwoChanges(s: Snap, c: Change, d: Change)
    requires Possible(s, c) && Possible(Changed(s, c), d)
    ensures ArePossible(s, [c, d]) && After(s, [c, d]) == Changed(Changed(s, c), d)
  {
    hide Possible, Changed;
    assert [c, d][1..] == [d] && [d][1..] == [];
    OneChange(Changed(s, c), d);
  }

  lemma OneChange(s: Snap, c: Change)
    requires Possible(s, c)
    ensures ArePossible(s, [c]) && After(s, [c]) == Changed(s, c)
  {
    hide Possible, Changed;
    assert [c][1..] == [];
  }

  lemma RunJoined(s: Snap, h: seq<Edge>, e: Edge, i: nat, a: Run, b: Run)
    requires Good(s, EdgeSet(h)) && RootLinked(s, i) && b.WellFormed()
    requires a in s.cls[i] && b !in AllRuns(s.cls) && (e == (a, b) || e == (b, a))
    ensures var u := Extend(s, i, b);
            && |u.cls| == |u.rootOf| && Generated(Blocks(u), EdgeSet(h + [e])) && Economical(u)
            && |u.nodes| == |s.nodes| && Starts(h + [e]) == Starts(h)
  {
    Accounted(s.cls, i, a);
    OldRunLogs(s, h, e, a);
    NotAccounted(s.cls, b);
    EnlargedRuns(s.rootOf, s.cls, i, b);
    hide Sound, Generated, AllRuns, EdgeSet, Starts;
    BlocksOfExtend(s, i, a, b);
    JoinBlocksSym(Blocks(s), a, b);
    JoinIsGenerated(Blocks(s), EdgeSet(h), e.0, e.1);
    assert e == (e.0, e.1);
    MoreRuns(AllRuns(s.cls), AllRuns(Extend(s, i, b).cls), b);
  }

  /** One of the two runs is new. */
  lemma OneNewExact(s: Snap, h: seq<Edge>, e: Edge, i: nat, a: Run, b: Run, sets: int)
    requires Exact(s, h, sets) && sets <= 0xFFFF && b.WellFormed() && IsRoot(s.rootOf, i) && |s.rootOf| == |s.cls|
    requires a in s.cls[i] && b !in AllRuns(s.cls) && (e == (a, b) || e == (b, a))
    ensures ArePossible(s, [Join(i, b)]) && Exact(After(s, [Join(i, b)]), h + [e], sets)
  {
    ExactIsGood(s, h, sets);
    hide Sound, BottomsExact, Generated, Economical, Blocks, AllRuns, EdgeSet, Starts, ExtendMaxGuard, Extend;
    assert RootLinked(s, i) by { RootsAreLinked(s, i); }
    RunJoined(s, h, e, i, a, b);
    JoinExact(s, i, b);
    SameButStats(s, i, b);
    OneChange(s, Join(i, b));
    LooksLike(ExtendMaxGuard(s, i, b), Extend(s, i, b), h + [e], sets);
  }

  lemma MoreRuns(s: set<Run>, t: set<Run>, b: Run)
    requires t == s + {b}
    ensures |s| <= |t|
  {
    assert t == s + ({b} - s);
  }

  /** Both runs have nodes. */
  lemma NoneNewExact(s: Snap, h: seq<Edge>, e: Edge, i: nat, j: nat, sets: int)
    requires Exact(s, h, sets) && sets <= 0xFFFF && |s.rootOf| == |s.cls| == |s.nodes|
    requires IsRoot(s.rootOf, i) && IsRoot(s.rootOf, j) && e.0 in s.cls[i] && e.1 in s.cls[j]
    ensures i == j ==> Exact(s, h + [e], sets)
    ensures i != j && s.nodes[i].rank > s.nodes[j].rank ==>
              ArePossible(s, [LinkRoots(j, i)]) && Exact(After(s, [LinkRoots(j, i)]), h + [e], sets)
    ensures i != j && s.nodes[i].rank <= s.nodes[j].rank ==>
              ArePossible(s, [LinkRoots(i, j)]) && Exact(After(s, [LinkRoots(i, j)]), h + [e], sets)
  {
    ExactIsGood(s, h, sets);
    Accounted(s.cls, i, e.0);
    OldRunLogs(s, h, e, e.0);
    assert e == (e.0, e.1);
    hide Exact;
    if i == j {
      SameRootIsGood(s, EdgeSet(h), i, e.0, e.1);
      StillExact(s, s, h, e, sets);
    } else {
      RootsAreLinkable(s, i, j);
      if s.nodes[i].rank > s.nodes[j].rank {
        LinkedExact(s, h, e, j, i, e.1, e.0, sets);
      } else {
        LinkedExact(s, h, e, i, j, e.0, e.1, sets);
      }
    }
  }

  lemma StillExact(s: Snap, t: Snap, h: seq<Edge>, e: Edge, sets: int)
    requires Exact(s, h, sets) && Good(t, EdgeSet(h + [e])) && BottomsExact(t) && |t.nodes| == |s.nodes|
    requires Starts(h + [e]) == Starts(h)
    ensures Exact(t, h + [e], sets)
  {
  }

  lemma LinkedExact(s: Snap, h: seq<Edge>, e: Edge, c: nat, p: nat, a: Run, b: Run, sets: int)
    requires Exact(s, h, sets) && Sound(s) && Good(s, EdgeSet(h)) && Linkable(s, c, p) && a in s.cls[c] && b in s.cls[p]
    requires e == (a, b) || e == (b, a)
    requires EdgeSet(h + [e]) == EdgeSet(h) + {e} && Starts(h + [e]) == Starts(h)
    ensures ArePossible(s, [LinkRoots(c, p)]) && Exact(After(s, [LinkRoots(c, p)]), h + [e], sets)
  {
    hide Sound, BottomsExact, Generated, Blocks, EdgeSet, Starts, JoinedTo, Economical;
    LinkIsGood(s, EdgeSet(h), c, p, a, b);
    LinkExact(s, c, p);
    OneChange(s, LinkRoots(c, p));
    assert |Link(s, c, p).nodes| == |s.nodes|;
    StillExact(s, Link(s, c, p), h, e, sets);
  }

  /** Every union keeps the list exact, or finds no room and leaves it alone. */
  lemma UnionExact(s: Snap, h: seq<Edge>, e: Edge, sets: int, places: int)
    requires Exact(s, h, sets) && sets <= 0xFFFF && places <= 0xFFFF
    requires e.0.WellFormed() && e.1.WellFormed() && e.1.row == e.0.row + 1
    ensures Sound(s) && ArePossible(s, UnionChanges(s, e, sets, places))
    ensures var t := After(s, UnionChanges(s, e, sets, places));
            Exact(t, if NoRoom(EdgeSet(h), Starts(h), e, sets, places) then h else h + [e], sets)
  {
    ExactIsGood(s, h, sets);
    FullIffNoRoom(s, h, e, sets, places);
    AccountedIffTouched(s, EdgeSet(h), e.0);
    AccountedIffTouched(s, EdgeSet(h), e.1);
    var a, b := e.0, e.1;
    hide Exact, Sound, NoRoom, AllRuns, Touches, RootFor, ArePossible, EdgeSet, Starts, Generated;
    Idle(s);
    if a !in AllRuns(s.cls) && b !in AllRuns(s.cls) {
      if !IsFull(s, sets, places) { PairExact(s, h, e, sets, places); }
    } else if b !in AllRuns(s.cls) {
      OneNewExact(s, h, e, RootFor(s, a), a, b, sets);
    } else if a !in AllRuns(s.cls) {
      OneNewExact(s, h, e, RootFor(s, b), b, a, sets);
    } else {
      NoneNewExact(s, h, e, RootFor(s, a), RootFor(s, b), sets);
    }
  }

  lemma Idle(s: Snap)
    ensures ArePossible(s, []) && After(s, []) == s
  {
  }

  // ----- Path compression -----

  ghost predicate OnlyCompress(chs: seq<Change>) {
    forall i :: 0 <= i < |chs| ==> chs[i].CompressPath?
  }

  lemma {:induction false} CompressionKeepsExact(s: Snap, h: seq<Edge>, chs: seq<Change>, sets: int)
    requires Exact(s, h, sets) && OnlyCompress(chs) && ArePossible(s, chs)
    ensures Exact(After(s, chs), h, sets)
    decreases |chs|
  {
    if chs != [] {
      var t := Changed(s, chs[0]);
      ExactIsGood(s, h, sets);
      hide Sound, BottomsExact, Generated, EdgeSet, Starts;
      ChangeExact(s, chs[0]);
      assert t == Compress(s, chs[0].i);
      SameBlocks2(s, t);
      CompressionKeepsExact(t, h, chs[1..], sets);
    }
  }

  lemma SameBlocks2(s: Snap, t: Snap)
    requires |s.cls| == |s.rootOf| && t.rootOf == s.rootOf && t.cls == s.cls && |t.nodes| == |s.nodes|
    ensures Blocks(t) == Blocks(s) && (Economical(s) ==> Economical(t))
  {
  }

  // ----- A pass -----

  /** t is s after the union of e: paths compressed at will, then the change of the union itself. */
  ghost predicate Step(s: Snap, e: Edge, sets: int, places: int, t: Snap) {
    exists chs :: OnlyCompress(chs) && ArePossible(s, chs) && StepAfter(After(s, chs), e, sets, places, t)
  }

  ghost predicate StepAfter(m: Snap, e: Edge, sets: int, places: int, t: Snap) {
    Sound(m) && ArePossible(m, UnionChanges(m, e, sets, places)) && t == After(m, UnionChanges(m, e, sets, places))
  }

  /** The states of a list, cleared at first, as the unions of h are asked for. */
  ghost predicate GuardedPass(h: seq<Edge>, states: seq<Snap>, sets: int, places: int) {
    |states| == |h| + 1 && states[0] == EMPTY &&
    forall k :: 0 <= k < |h| ==> Step(states[k], h[k], sets, places, states[k + 1])
  }

  ghost predicate EdgeFits(e: Edge) {
    e.0.WellFormed() && e.1.WellFormed() && e.1.row == e.0.row + 1
  }

  lemma StepExact(s: Snap, h: seq<Edge>, e: Edge, sets: int, places: int, t: Snap)
    requires Exact(s, h, sets) && Step(s, e, sets, places, t) && EdgeFits(e) && sets <= 0xFFFF && places <= 0xFFFF
    ensures Exact(t, if NoRoom(EdgeSet(h), Starts(h), e, sets, places) then h else h + [e], sets)
  {
    hide Exact, NoRoom, EdgeSet, Starts, UnionChanges, ArePossible, After, OnlyCompress;
    var chs :| OnlyCompress(chs) && ArePossible(s, chs) && StepAfter(After(s, chs), e, sets, places, t);
    CompressionKeepsExact(s, h, chs, sets);
    UnionExact(After(s, chs), h, e, sets, places);
  }

  lemma {:induction false} PassExact(h: seq<Edge>, states: seq<Snap>, k: nat, sets: int, places: int)
    requires GuardedPass(h, states, sets, places) && k <= |h| && sets <= 0xFFFF && places <= 0xFFFF
    requires forall e :: e in h ==> EdgeFits(e)
    ensures Exact(states[k], Carried(h[..k], sets, places), sets)
    decreases k
  {
    hide Exact, NoRoom, Step, EdgeFits, Carried, EdgeSet, Starts;
    if k == 0 {
      EmptyIsExact(sets, places);
      assert h[..0] == [];
    } else {
      PassExact(h, states, k - 1, sets, places);
      var before, e := Carried(h[..k - 1], sets, places), h[k - 1];
      assert h[..k] == h[..k - 1] + [e];
      CarriedMore(h[..k - 1], e, sets, places);
      assert Step(states[k - 1], h[k - 1], sets, places, states[k - 1 + 1]);
      StepExact(states[k - 1], before, e, sets, places, states[k]);
    }
  }

  lemma StepWithoutCompression(s: Snap, e: Edge, sets: int, places: int)
    requires Sound(s) && ArePossible(s, UnionChanges(s, e, sets, places))
    ensures Step(s, e, sets, places, After(s, UnionChanges(s, e, sets, places)))
  {
    hide Sound, UnionChanges;
    Idle(s);
    assert OnlyCompress([]);
    assert StepAfter(After(s, []), e, sets, places, After(s, UnionChanges(s, e, sets, places)));
  }

  /** Any unions can be asked for: no change is ever impossible. */
  lemma {:induction false} GuardedPassExists(h: seq<Edge>, sets: int, places: int) returns (states: seq<Snap>)
    requires sets <= 0xFFFF && places <= 0xFFFF && forall e :: e in h ==> EdgeFits(e)
    ensures GuardedPass(h, states, sets, places)
  {
    hide Step, Exact, NoRoom, EdgeFits, UnionChanges, ArePossible, After, Sound, Carried;
    if h == [] {
      states := [EMPTY];
    } else {
      var front, e := h[..|h| - 1], h[|h| - 1];
      var before := GuardedPassExists(front, sets, places);
      PassExact(front, before, |front|, sets, places);
      assert front[..|front|] == front;
      var s := before[|front|];
      assert e in h;
      FittingUnion(s, Carried(front, sets, places), e, sets, places);
      StepWithoutCompression(s, e, sets, places);
      states := before + [After(s, UnionChanges(s, e, sets, places))];
    }
  }

  lemma FittingUnion(s: Snap, h: seq<Edge>, e: Edge, sets: int, places: int)
    requires Exact(s, h, sets) && EdgeFits(e) && sets <= 0xFFFF && places <= 0xFFFF
    ensures Sound(s) && ArePossible(s, UnionChanges(s, e, sets, places))
  {
    hide Exact, UnionChanges, ArePossible, Sound;
    UnionExact(s, h, e, sets, places);
  }

  lemma EmptyIsExact(sets: int, places: int)
    ensures Carried([], sets, places) == [] && Exact(EMPTY, [], sets)
  {
    EmptyIsSound();
    assert Blocks(EMPTY) == {};
  }

  lemma MaskEdgeFits(mask: set<Pixel>, e: Edge)
    requires forall p :: p in mask ==> 0 <= p.x < 0xFFFF && 0 <= p.y < 0x1_0000
    requires IsEdge(mask, e)
    ensures EdgeFits(e)
  {
    RunFits(mask, e.0);
    RunFits(mask, e.1);
  }

  lemma RunFits(mask: set<Pixel>, r: Run)
    requires forall p :: p in mask ==> 0 <= p.x < 0xFFFF && 0 <= p.y < 0x1_0000
    requires IsRun(mask, r)
    ensures r.WellFormed()
  {
    assert Pixel(r.low, r.row) in mask && Pixel(r.high - 1, r.row) in mask;
  }

  /** With the comparison on max_y, whatever room there is and whatever paths are compressed: the blobs
      are right, complete exactly if the mask is not crowded, and every max_y is the bottom row. */
  lemma GuardedPassReports(mask: set<Pixel>, h: seq<Edge>, states: seq<Snap>, sets: int, places: int)
    requires IsPass(mask, h) && GuardedPass(h, states, sets, places) && sets <= 0xFFFF && places <= 0xFFFF
    requires forall p :: p in mask ==> 0 <= p.x < 0xFFFF && 0 <= p.y < 0x1_0000
    ensures var s := states[|h|];
            && Sound(s) && PartialReport(s.roots, BlobPixels(s), mask)
            && (CompleteReport(BlobPixels(s), mask) <==> !CrowdedMask(mask, sets, places))
            && forall k :: 0 <= k < |s.roots| ==> IsGreatest(Y, BlobPixels(s)[k], s.roots[k].stats.maxY)
  {
    forall e | e in h
      ensures EdgeFits(e)
    {
      assert e in EdgeSet(h);
      MaskEdgesHas(mask, e);
      MaskEdgeFits(mask, e);
    }
    var s, unions := states[|h|], Carried(h, sets, places);
    PassExact(h, states, |h|, sets, places);
    assert h[..|h|] == h;
    ExactIsGood(s, unions, sets);
    CarriedAreEdges(mask, h, sets, places);
    CompleteIffRoom(mask, 0xFFFF, s, h, sets, places);
    hide PartialReport, CompleteReport, Sound, CrowdedMask, IsPass, Good, GuardedPass, Carried;
    forall k | 0 <= k < |s.roots|
      ensures IsGreatest(Y, BlobPixels(s)[k], s.roots[k].stats.maxY)
    {
      ExactInPixels(s, EdgeSet(unions), mask, k);
    }
  }

  lemma ExactInPixels(s: Snap, edges: set<Edge>, mask: set<Pixel>, k: nat)
    requires Good(s, edges) && BottomsExact(s) && k < |s.roots| && forall e :: e in edges ==> IsEdge(mask, e)
    ensures Sound(s) && IsGreatest(Y, BlobPixels(s)[k], s.roots[k].stats.maxY)
  {
    GoodSizes(s, edges);
    assert BottomExact(s, k);
    hide Sound, Generated, IsEdge, IsRun, PixelsOf, Economical, IsGreatest;
    forall r | r in EntryRuns(s, k)
      ensures r.low < r.high
    {
      BlockIsOfRuns(mask, edges, Blocks(s), EntryRuns(s, k), r);
      RunIsNonempty(mask, r);
    }
    BottomOfPixels(EntryRuns(s, k), s.roots[k].stats.maxY);
  }
}
