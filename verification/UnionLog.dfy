/** The unions of a Blob_List in the order they were carried out, and what this order decides: whether
    there is room for the next one, and whether max_y ends at the bottom row. */
module UnionLog {
  import opened Folds
  import opened BlobStats
  import opened Reach
  import opened Forest
  import opened Partition

  ghost function EdgeSet(h: seq<Edge>): set<Edge> {
    set e | e in h
  }

  lemma EdgeSetMore(h: seq<Edge>, e: Edge)
    ensures EdgeSet(h + [e]) == EdgeSet(h) + {e}
  {
  }

  /** The runs accounted for are those some union was about. */
  lemma AccountedIffTouched(s: Snap, edges: set<Edge>, r: Run)
    requires Sound(s) && Generated(Blocks(s), edges)
    ensures r in AllRuns(s.cls) <==> Touches(edges, r)
  {
    if r in AllRuns(s.cls) {
      var i :| 1 <= i < |s.cls| && r in s.cls[i];
      assert ClassOk(s.rootOf, s.cls, i) && NodeOk(s.nodes, s.rootOf, i);
      assert IsRoot(s.rootOf, s.rootOf[i]) && s.cls[s.rootOf[i]] in Blocks(s);
    }
    if Touches(edges, r) {
      var e :| e in edges && (e.0 == r || e.1 == r);
      assert Together(Blocks(s), e.0, e.1);
      var x :| x in Blocks(s) && r in x;
      var i :| 0 <= i < |s.rootOf| && IsRoot(s.rootOf, i) && x == s.cls[i];
    }
  }

  /** A run connected to another one is in some union. */
  lemma ConnectedTouches(edges: set<Edge>, a: Run, b: Run)
    requires Connected(edges, a, b) && a != b
    ensures Touches(edges, b)
  {
    var p: seq<Run> :| IsPath(EdgeAdj(edges), p) && p[0] == a && p[|p| - 1] == b;
    assert EdgeAdj(edges)(p[|p| - 2], p[|p| - 2 + 1]);
  }

  // ----- Room -----

  /** Neither run of e has been in a union: e is the first for both. */
  ghost predicate BothNew(before: set<Edge>, e: Edge) {
    !Touches(before, e.0) && !Touches(before, e.1)
  }

  /** How many unions were the first for both of their runs. */
  ghost function Starts(h: seq<Edge>): nat {
    if h == [] then 0
    else
      var front := h[..|h| - 1];
      Starts(front) + if BothNew(EdgeSet(front), h[|h| - 1]) then 1 else 0
  }

  lemma StartsMore(h: seq<Edge>, e: Edge)
    ensures Starts(h + [e]) == Starts(h) + if BothNew(EdgeSet(h), e) then 1 else 0
  {
  }

  /** The union e, after those in before, needs a node, but all sets nodes are used (node 0 is
      reserved) or there are as many blobs as places for them. */
  ghost predicate NoRoom(before: set<Edge>, starts: nat, e: Edge, sets: int, places: int) {
    BothNew(before, e) &&
    (starts + 1 >= sets || exists blocks: set<set<Run>> :: Generated(blocks, before) && |blocks| >= places)
  }

  /** Some union on the way finds no room. */
  ghost predicate Crowded(h: seq<Edge>, sets: int, places: int) {
    exists k :: 0 <= k < |h| && CrowdedAt(h, k, sets, places)
  }

  ghost predicate CrowdedAt(h: seq<Edge>, k: int, sets: int, places: int)
    requires 0 <= k < |h|
  {
    NoRoom(EdgeSet(h[..k]), Starts(h[..k]), h[k], sets, places)
  }

  lemma CrowdedMore(h: seq<Edge>, e: Edge, sets: int, places: int)
    ensures Crowded(h + [e], sets, places) <==>
            Crowded(h, sets, places) || NoRoom(EdgeSet(h), Starts(h), e, sets, places)
  {
    hide NoRoom, Starts, EdgeSet;
    var g := h + [e];
    assert forall k :: 0 <= k < |h| ==> g[..k] == h[..k] && g[k] == h[k];
    assert g[..|h|] == h;
    assert forall k :: 0 <= k < |h| ==> CrowdedAt(g, k, sets, places) == CrowdedAt(h, k, sets, places);
    assert CrowdedAt(g, |h|, sets, places) == NoRoom(EdgeSet(h), Starts(h), e, sets, places);
  }

  /** The unions of h that find room after those carried out before them. */
  ghost function Carried(h: seq<Edge>, sets: int, places: int): seq<Edge> {
    if h == [] then []
    else
      var before, e := Carried(h[..|h| - 1], sets, places), h[|h| - 1];
      if NoRoom(EdgeSet(before), Starts(before), e, sets, places) then before else before + [e]
  }

  lemma CarriedMore(h: seq<Edge>, e: Edge, sets: int, places: int)
    ensures var before := Carried(h, sets, places);
            Carried(h + [e], sets, places) ==
            if NoRoom(EdgeSet(before), Starts(before), e, sets, places) then before else before + [e]
  {
    assert (h + [e])[..|h|] == h;
  }

  lemma {:induction false} CarriedAreAsked(h: seq<Edge>, sets: int, places: int)
    ensures forall e :: e in Carried(h, sets, places) ==> e in h
    ensures |Carried(h, sets, places)| <= |h|
  {
    hide NoRoom, EdgeSet, Starts;
    if h != [] {
      var front, e := h[..|h| - 1], h[|h| - 1];
      CarriedAreAsked(front, sets, places);
      assert front + [e] == h;
    }
  }

  /** All are carried out if and only if none finds no room. */
  lemma {:induction false} AllCarriedIff(h: seq<Edge>, sets: int, places: int)
    ensures Carried(h, sets, places) == h <==> !Crowded(h, sets, places)
  {
    hide NoRoom, Crowded;
    if h == [] {
      NothingCrowded(sets, places);
    } else {
      var front, e := h[..|h| - 1], h[|h| - 1];
      assert front + [e] == h;
      AllCarriedIff(front, sets, places);
      CarriedAreAsked(front, sets, places);
      CrowdedMore(front, e, sets, places);
      var before := Carried(front, sets, places);
      assert before != front ==> before + [e] != h by {
        assert before + [e] == h ==> (before + [e])[..|h| - 1] == before;
      }
    }
  }

  lemma NothingCrowded(sets: int, places: int)
    ensures !Crowded([], sets, places)
  {
  }

  lemma EntryClass(s: Snap, k: nat)
    requires Sound(s) && k < |s.roots|
    ensures IsRoot(s.rootOf, s.roots[k].setIndex) && |s.cls| == |s.rootOf| == |s.nodes| && StatOk(s.roots, s.cls, k)
    ensures s.nodes[s.roots[k].setIndex].rootListIndex == k && 1 <= s.roots[k].setIndex < |s.nodes|
    ensures s.cls[s.roots[k].setIndex] != {} && s.cls[s.roots[k].setIndex] in Blocks(s)
  {
    assert EntryOk(s.nodes, s.roots, s.rootOf, k) && StatOk(s.roots, s.cls, k);
    assert ClassOk(s.rootOf, s.cls, s.roots[k].setIndex);
  }

  lemma ClassesApart(s: Snap, k: nat, l: nat)
    requires Sound(s) && k < l < |s.roots|
    ensures |s.cls| == |s.rootOf| && s.roots[k].setIndex < |s.cls| && s.roots[l].setIndex < |s.cls|
    ensures s.roots[k].setIndex != s.roots[l].setIndex
    ensures s.cls[s.roots[k].setIndex] !! s.cls[s.roots[l].setIndex]
  {
    assert EntryOk(s.nodes, s.roots, s.rootOf, k) && EntryOk(s.nodes, s.roots, s.rootOf, l);
  }

  ghost function FirstClasses(s: Snap, n: nat): set<set<Run>>
    requires Sound(s) && n <= |s.roots|
  {
    if n == 0 then {}
    else
      EntryClass(s, n - 1);
      FirstClasses(s, n - 1) + {s.cls[s.roots[n - 1].setIndex]}
  }

  lemma {:induction false} FirstClassesHold(s: Snap, n: nat, k: nat)
    requires Sound(s) && n <= |s.roots| && k < |s.roots|
    ensures s.roots[k].setIndex < |s.cls|
    ensures s.cls[s.roots[k].setIndex] in FirstClasses(s, n) <==> k < n
    ensures FirstClasses(s, n) <= Blocks(s)
    decreases n
  {
    EntryClass(s, k);
    if n > 0 {
      FirstClassesHold(s, n - 1, k);
      EntryClass(s, n - 1);
      if k < n - 1 { ClassesApart(s, k, n - 1); }
      if k > n - 1 { ClassesApart(s, n - 1, k); }
    }
  }

  lemma {:induction false} FirstClassesSize(s: Snap, n: nat)
    requires Sound(s) && n <= |s.roots|
    ensures |FirstClasses(s, n)| == n
  {
    hide Sound, Blocks;
    if n > 0 {
      FirstClassesSize(s, n - 1);
      FirstClassesHold(s, n - 1, n - 1);
      var last := s.cls[s.roots[n - 1].setIndex];
      assert FirstClasses(s, n) == FirstClasses(s, n - 1) + {last};
    }
  }

  /** There is one entry of root_info for every block. */
  lemma AsManyEntriesAsBlocks(s: Snap)
    requires Sound(s)
    ensures |Blocks(s)| == |s.roots|
  {
    var n := |s.roots|;
    FirstClassesSize(s, n);
    forall x | x in Blocks(s)
      ensures n > 0 && x in FirstClasses(s, n)
    {
      var i :| 0 <= i < |s.rootOf| && IsRoot(s.rootOf, i) && x == s.cls[i];
      assert BackOk(s.nodes, s.roots, s.rootOf, i);
      FirstClassesHold(s, n, s.nodes[i].rootListIndex);
    }
    if n > 0 { FirstClassesHold(s, n, 0); }
    assert Blocks(s) == FirstClasses(s, n);
  }

  lemma SnapSizes(s: Snap)
    requires Sound(s)
    ensures |s.nodes| == |s.rootOf| == |s.cls|
  {
  }

  /** make_set finds no room exactly when the unions so far leave none. */
  lemma FullIffNoRoom(s: Snap, h: seq<Edge>, e: Edge, sets: int, places: int)
    requires Sound(s) && Generated(Blocks(s), EdgeSet(h)) && |s.nodes| == 1 + Starts(h)
    ensures NoRoom(EdgeSet(h), Starts(h), e, sets, places) <==>
            BothNew(EdgeSet(h), e) && (|s.nodes| >= sets || |s.roots| >= places)
  {
    SnapSizes(s);
    hide Sound, Generated, BothNew, Starts;
    AsManyEntriesAsBlocks(s);
    forall blocks | Generated(blocks, EdgeSet(h))
      ensures blocks == Blocks(s)
    {
      GeneratedIsUnique(blocks, Blocks(s), EdgeSet(h));
    }
  }

  // ----- The bottom row -----

  /** e.0 is new and joins the class of e.1 late, after a run further up: line 95 then records the row
      of e.0, one short of the row of e.1, for the whole class, b included. */
  ghost predicate Slips(before: set<Edge>, e: Edge, b: Run) {
    && !Touches(before, e.0) && b.row == e.1.row && Connected(before, b, e.1)
    && exists q: Run :: q.row < e.0.row && Connected(before, q, e.1)
  }

  ghost predicate SlipsAt(h: seq<Edge>, k: int, b: Run)
    requires 0 <= k < |h|
  {
    Slips(EdgeSet(h[..k]), h[k], b)
  }

  /** After run b was added its class recorded the row above. */
  ghost predicate Overwritten(h: seq<Edge>, b: Run) {
    exists k :: 0 <= k < |h| && SlipsAt(h, k, b)
  }

  lemma OverwrittenMore(h: seq<Edge>, e: Edge, b: Run)
    ensures Overwritten(h + [e], b) <==> Overwritten(h, b) || Slips(EdgeSet(h), e, b)
  {
    hide Slips, EdgeSet;
    var g := h + [e];
    assert forall k :: 0 <= k < |h| ==> g[..k] == h[..k] && g[k] == h[k];
    assert g[..|h|] == h;
    assert forall k :: 0 <= k < |h| ==> SlipsAt(g, k, b) == SlipsAt(h, k, b);
    assert SlipsAt(g, |h|, b) == Slips(EdgeSet(h), e, b);
  }

  lemma FreshIsNotOverwritten(h: seq<Edge>, b: Run)
    requires !Touches(EdgeSet(h), b)
    ensures !Overwritten(h, b)
  {
    forall k | 0 <= k < |h|
      ensures !SlipsAt(h, k, b)
    {
      if SlipsAt(h, k, b) {
        assert h[k] in EdgeSet(h) && b != h[k].1;
        assert EdgeSet(h[..k]) <= EdgeSet(h);
        assert !Touches(EdgeSet(h[..k]), b);
        ConnectedBack(EdgeSet(h[..k]), b, h[k].1);
        ConnectedTouches(EdgeSet(h[..k]), h[k].1, b);
      }
    }
  }

  lemma ConnectedBack(edges: set<Edge>, a: Run, b: Run)
    requires Connected(edges, a, b)
    ensures Connected(edges, b, a)
  {
    EdgeAdjSymmetric(edges);
    ReachesSym(EdgeAdj(edges), a, b);
  }

  ghost predicate IsLowest(x: set<Run>, b: Run) {
    b in x && forall q :: q in x ==> q.row <= b.row
  }

  /** Some run of the bottom row of x was never overwritten. */
  ghost predicate Recorded(h: seq<Edge>, x: set<Run>) {
    exists b :: IsLowest(x, b) && !Overwritten(h, b)
  }

  /** max_y is the bottom row of x if and only if some run of the bottom row was never overwritten. */
  ghost predicate BottomIff(h: seq<Edge>, x: set<Run>, maxY: int) {
    IsGreatest(Row, x, maxY) <==> Recorded(h, x)
  }

  ghost predicate EntryBottom(s: Snap, h: seq<Edge>, k: int)
    requires 0 <= k < |s.roots|
  {
    s.roots[k].setIndex < |s.cls| && BottomIff(h, s.cls[s.roots[k].setIndex], s.roots[k].stats.maxY)
  }

  ghost predicate BottomsRecorded(s: Snap, h: seq<Edge>) {
    forall k :: 0 <= k < |s.roots| ==> EntryBottom(s, h, k)
  }

  /** A union that overwrites nothing in a class leaves its condition alone. */
  lemma RecordedStays(h: seq<Edge>, e: Edge, x: set<Run>, maxY: int)
    requires BottomIff(h, x, maxY) && forall b :: b in x ==> !Slips(EdgeSet(h), e, b)
    ensures BottomIff(h + [e], x, maxY)
  {
    hide Slips, Overwritten, EdgeSet;
    forall b | b in x
      ensures Overwritten(h + [e], b) == Overwritten(h, b)
    {
      OverwrittenMore(h, e, b);
    }
    assert forall b :: IsLowest(x, b) ==> b in x;
  }

  /** A new run below all others is recorded at once. */
  lemma NewBottomRecorded(h: seq<Edge>, e: Edge, x: set<Run>, b: Run)
    requires IsLowest(x, b) && !Touches(EdgeSet(h), b) && !Slips(EdgeSet(h), e, b)
    ensures BottomIff(h + [e], x, b.row)
  {
    FreshIsNotOverwritten(h, b);
    OverwrittenMore(h, e, b);
    assert Row(b) == b.row;
  }

  lemma OldUpperNeverSlips(edges: set<Edge>, e: Edge, b: Run)
    requires Touches(edges, e.0)
    ensures !Slips(edges, e, b)
  {
  }

  lemma NewLowerNeverSlips(edges: set<Edge>, e: Edge, b: Run)
    requires !Touches(edges, e.1) && e.0.row < e.1.row
    ensures !Slips(edges, e, b)
  {
    if Slips(edges, e, b) {
      var q: Run :| q.row < e.0.row && Connected(edges, q, e.1);
      ConnectedTouches(edges, q, e.1);
    }
  }

  /** Both runs new. */
  lemma NewPairBottoms(s: Snap, h: seq<Edge>, a: Run, b: Run)
    requires Sound(s) && Generated(Blocks(s), EdgeSet(h)) && BottomsRecorded(s, h)
    requires |s.nodes| < 0xFFFF && |s.roots| < 0xFFFF && a.WellFormed() && b.WellFormed() && b.row == a.row + 1
    requires a !in AllRuns(s.cls) && b !in AllRuns(s.cls) && RootLinked(AddNode(s, a), |s.nodes|)
    ensures BottomsRecorded(Extend(AddNode(s, a), |s.nodes|, b), h + [(a, b)])
  {
    var n, e, m := |s.nodes|, (a, b), AddNode(s, a);
    var t := Extend(m, n, b);
    AccountedIffTouched(s, EdgeSet(h), b);
    forall c
      ensures !Slips(EdgeSet(h), e, c)
    {
      NewLowerNeverSlips(EdgeSet(h), e, c);
    }
    forall k | 0 <= k < |t.roots|
      ensures EntryBottom(t, h + [e], k)
    {
      hide Slips, BottomIff, Generated, Touches, Sound, Describes;
      if k < |s.roots| {
        EntryClass(s, k);
        var i := s.roots[k].setIndex;
        assert EntryBottom(s, h, k) && t.roots[k] == s.roots[k];
        assert i < n && t.cls[i] == s.cls[i];
        RecordedStays(h, e, s.cls[i], s.roots[k].stats.maxY);
      } else {
        assert t.cls[n] == {a} + {b} && t.roots[k].stats.maxY == b.row && t.roots[k].setIndex == n;
        NewBottomRecorded(h, e, t.cls[n], b);
      }
    }
  }

  /** The lower run b new, the upper one in class x. */
  lemma NewLowerBottom(h: seq<Edge>, x: set<Run>, st: BlobStats, a: Run, b: Run)
    requires Describes(st, x) && a in x && b.WellFormed() && b.row == a.row + 1
    requires !Touches(EdgeSet(h), b) && forall q :: q in x ==> q.row <= b.row
    ensures BottomIff(h + [(a, b)], x + {b}, StatsAddSingleton(st, b.row, b.low, b.high).maxY)
  {
    hide Touches, EdgeSet, BottomIff;
    assert st.minY <= Row(a);
    NewLowerNeverSlips(EdgeSet(h), (a, b), b);
    NewBottomRecorded(h, (a, b), x + {b}, b);
  }

  /** The lower run new, the upper one in the class of root i. */
  lemma LowerJoinsBottoms(s: Snap, h: seq<Edge>, i: nat, a: Run, b: Run)
    requires Sound(s) && Generated(Blocks(s), EdgeSet(h)) && BottomsRecorded(s, h)
    requires RootLinked(s, i) && b.WellFormed() && a in s.cls[i] && b !in AllRuns(s.cls) && b.row == a.row + 1
    requires forall q :: q in s.cls[i] ==> q.row <= b.row
    ensures BottomsRecorded(Extend(s, i, b), h + [(a, b)])
  {
    var e, t := (a, b), Extend(s, i, b);
    AccountedIffTouched(s, EdgeSet(h), b);
    hide Slips, BottomIff, Generated, Touches, Sound, Describes, EdgeSet;
    forall c
      ensures !Slips(EdgeSet(h), e, c)
    {
      NewLowerNeverSlips(EdgeSet(h), e, c);
    }
    forall k | 0 <= k < |t.roots|
      ensures EntryBottom(t, h + [e], k)
    {
      EntryClass(s, k);
      var j := s.roots[k].setIndex;
      assert EntryBottom(s, h, k);
      if j == i {
        assert t.cls[i] == s.cls[i] + {b};
        NewLowerBottom(h, s.cls[i], s.roots[k].stats, a, b);
      } else {
        assert k != s.nodes[i].rootListIndex && t.roots[k] == s.roots[k] && t.cls[j] == s.cls[j];
        RecordedStays(h, e, s.cls[j], s.roots[k].stats.maxY);
      }
    }
  }

  /** The upper run a new and late, the lower one b in class x: what happens to the class. */
  lemma LateRunBottom(h: seq<Edge>, x: set<Run>, st: BlobStats, a: Run, b: Run)
    requires Describes(st, x) && BottomIff(h, x, st.maxY) && a.WellFormed()
    requires !Touches(EdgeSet(h), a) && b in x && b.row == a.row + 1
    requires forall c :: c in x ==> c.row <= b.row
    requires forall c :: c in x <==> c == b || Connected(EdgeSet(h), c, b)
    ensures BottomIff(h + [(a, b)], x + {a}, StatsAddSingleton(st, a.row, a.low, a.high).maxY)
  {
    var e, after, y := (a, b), StatsAddSingleton(st, a.row, a.low, a.high), x + {a};
    forall c
      ensures Overwritten(h + [e], c) <==> Overwritten(h, c) || Slips(EdgeSet(h), e, c)
    {
      OverwrittenMore(h, e, c);
    }
    hide Overwritten, EdgeSet, Touches, Connected;
    assert forall c :: IsLowest(y, c) <==> IsLowest(x, c);
    if st.minY < a.row {
      var q :| q in x && Row(q) == st.minY;
      SlipsAll(EdgeSet(h), e, x, q);
      assert after.maxY == a.row && b in y && Row(b) > a.row;
    } else {
      assert after.maxY == st.maxY;
      assert forall q :: q in x ==> st.minY <= Row(q);
      assert forall c :: !Slips(EdgeSet(h), e, c);
      SameGreatest(x, a, b, st.maxY);
    }
  }

  lemma SlipsAll(edges: set<Edge>, e: Edge, x: set<Run>, q: Run)
    requires !Touches(edges, e.0) && e.1 in x && e.1.row == e.0.row + 1 && q in x && q.row < e.0.row
    requires forall c :: c in x ==> c.row <= e.1.row
    requires forall c :: c in x <==> c == e.1 || Connected(edges, c, e.1)
    ensures forall c :: IsLowest(x, c) ==> Slips(edges, e, c)
  {
    ReachesSelf(EdgeAdj(edges), e.1);
  }

  lemma SameGreatest(x: set<Run>, a: Run, b: Run, v: int)
    requires b in x && a.row < b.row
    ensures IsGreatest(Row, x + {a}, v) <==> IsGreatest(Row, x, v)
  {
  }

  lemma ClassIsReached(s: Snap, edges: set<Edge>, i: nat, b: Run)
    requires Sound(s) && Generated(Blocks(s), edges) && IsRoot(s.rootOf, i) && b in s.cls[i]
    ensures forall c :: c in s.cls[i] <==> c == b || Connected(edges, c, b)
  {
    SnapSizes(s);
    hide Sound, Generated;
    BlockOfRoot(s, i, b);
    ClassIsClosed(Blocks(s), edges, b);
    forall c
      ensures c in s.cls[i] <==> c == b || Connected(edges, c, b)
    {
      if c in s.cls[i] {
        ConnectedToOwnClass(Blocks(s), edges, b, c);
      } else if Connected(edges, c, b) {
        ConnectedBack(edges, c, b);
        ClosedHoldsReachable(EdgeAdj(edges), s.cls[i], b, c);
      }
    }
  }

  lemma RootsDisjoint(s: Snap, i: nat, j: nat)
    requires Sound(s) && IsRoot(s.rootOf, i) && IsRoot(s.rootOf, j) && i != j
    ensures |s.cls| == |s.rootOf| && s.cls[i] !! s.cls[j]
  {
  }

  /** The upper run new, the lower one in the class of root i. */
  lemma UpperJoinsBottoms(s: Snap, h: seq<Edge>, i: nat, a: Run, b: Run)
    requires Sound(s) && Generated(Blocks(s), EdgeSet(h)) && BottomsRecorded(s, h)
    requires RootLinked(s, i) && a.WellFormed() && b in s.cls[i] && a !in AllRuns(s.cls) && b.row == a.row + 1
    requires forall q :: q in s.cls[i] ==> q.row <= b.row
    ensures BottomsRecorded(Extend(s, i, a), h + [(a, b)])
  {
    var e, t := (a, b), Extend(s, i, a);
    AccountedIffTouched(s, EdgeSet(h), a);
    ClassIsReached(s, EdgeSet(h), i, b);
    forall k | 0 <= k < |t.roots|
      ensures EntryBottom(t, h + [e], k)
    {
      hide Generated, Touches, BottomIff, EdgeSet, Describes, Sound;
      EntryClass(s, k);
      var j := s.roots[k].setIndex;
      assert EntryBottom(s, h, k);
      if j == i {
        assert t.cls[i] == s.cls[i] + {a};
        LateRunBottom(h, s.cls[i], s.roots[k].stats, a, b);
      } else {
        assert k != s.nodes[i].rootListIndex && t.roots[k] == s.roots[k] && t.cls[j] == s.cls[j];
        RootsDisjoint(s, i, j);
        RecordedStays(h, e, s.cls[j], s.roots[k].stats.maxY);
      }
    }
  }

  lemma UnionRecorded(h: seq<Edge>, x: set<Run>, y: set<Run>, mx: int, my: int)
    requires BottomIff(h, x, mx) && BottomIff(h, y, my) && BottomWithinOne(x, mx) && BottomWithinOne(y, my)
    ensures BottomIff(h, x + y, if my > mx then my else mx)
  {
  }

  lemma OldUpperKeepsBottoms(s: Snap, h: seq<Edge>, e: Edge)
    requires BottomsRecorded(s, h) && Touches(EdgeSet(h), e.0)
    ensures BottomsRecorded(s, h + [e])
  {
    hide Touches, EdgeSet, Slips;
    forall b
      ensures !Slips(EdgeSet(h), e, b)
    {
      OldUpperNeverSlips(EdgeSet(h), e, b);
    }
    forall k | 0 <= k < |s.roots|
      ensures EntryBottom(s, h + [e], k)
    {
      assert EntryBottom(s, h, k);
      RecordedStays(h, e, s.cls[s.roots[k].setIndex], s.roots[k].stats.maxY);
    }
  }

  lemma LinkKeepsBottoms(s: Snap, h: seq<Edge>, c: nat, p: nat)
    requires Sound(s) && Linkable(s, c, p) && BottomsRecorded(s, h)
    ensures BottomsRecorded(Link(s, c, p), h)
  {
    hide BottomIff;
    var t := Link(s, c, p);
    var crx, prx := s.nodes[c].rootListIndex, s.nodes[p].rootListIndex;
    EntryClass(s, crx);
    EntryClass(s, prx);
    assert EntryBottom(s, h, crx) && EntryBottom(s, h, prx);
    UnionRecorded(h, s.cls[p], s.cls[c], s.roots[prx].stats.maxY, s.roots[crx].stats.maxY);
    assert s.cls[c] + s.cls[p] == s.cls[p] + s.cls[c];
    forall k | 0 <= k < |t.roots|
      ensures EntryBottom(t, h, k)
    {
      var from := if k == crx then |s.roots| - 1 else k;
      assert EntryOk(s.nodes, s.roots, s.rootOf, from) && EntryBottom(s, h, from);
      assert EntryOk(s.nodes, s.roots, s.rootOf, crx);
      assert t.roots[k].setIndex == s.roots[from].setIndex;
      if from != prx {
        assert t.roots[k].stats == s.roots[from].stats;
      }
    }
  }

  lemma SameBottoms(s: Snap, t: Snap, h: seq<Edge>)
    requires t.roots == s.roots && t.cls == s.cls && BottomsRecorded(s, h)
    ensures BottomsRecorded(t, h)
  {
    hide BottomIff;
    forall k | 0 <= k < |t.roots|
      ensures EntryBottom(t, h, k)
    {
      assert EntryBottom(s, h, k);
    }
  }
}
