/** The list with line 95 comparing with max_y: whatever the changes and their order, every max_y is the
    bottom row. */
module MaxGuard {
  import opened Folds
  import opened BlobStats
  import opened Forest
  import opened Partition

  /** The changes the code makes to its two arrays: make_set, a run without a node joining root i, link,
      and path compression at node i. */
  datatype Change = MakeSet(r: Run) | Join(i: nat, r: Run) | LinkRoots(c: nat, p: nat) | CompressPath(i: nat)

  /** Forest.Extend, with the comparison on max_y. */
  ghost function ExtendMaxGuard(s: Snap, i: nat, r: Run): Snap
    requires RootLinked(s, i) && r.WellFormed()
  {
    var k := s.nodes[i].rootListIndex;
    Extend(s, i, r).(roots :=
      s.roots[k := s.roots[k].(stats := StatsAddSingletonMaxGuard(s.roots[k].stats, r.row, r.low, r.high))])
  }

  ghost predicate Fresh(s: Snap, r: Run) {
    r.WellFormed() && r !in AllRuns(s.cls)
  }

  ghost predicate Possible(s: Snap, ch: Change) {
    match ch
    case MakeSet(r) => Fresh(s, r) && |s.nodes| < 0xFFFF && |s.roots| < 0xFFFF
    case Join(i, r) => Fresh(s, r) && RootLinked(s, i)
    case LinkRoots(c, p) => Linkable(s, c, p)
    case CompressPath(i) => 1 <= i < |s.nodes| <= 0x1_0000 && |s.nodes| == |s.rootOf| && s.rootOf[i] < 0x1_0000
  }

  ghost function Changed(s: Snap, ch: Change): Snap
    requires Possible(s, ch)
  {
    match ch
    case MakeSet(r) => AddNode(s, r)
    case Join(i, r) => ExtendMaxGuard(s, i, r)
    case LinkRoots(c, p) => Link(s, c, p)
    case CompressPath(i) => Compress(s, i)
  }

  ghost predicate ArePossible(s: Snap, chs: seq<Change>)
    decreases |chs|
  {
    chs == [] || (Possible(s, chs[0]) && ArePossible(Changed(s, chs[0]), chs[1..]))
  }

  ghost function After(s: Snap, chs: seq<Change>): Snap
    requires ArePossible(s, chs)
    decreases |chs|
  {
    if chs == [] then s else After(Changed(s, chs[0]), chs[1..])
  }

  ghost predicate BottomExact(s: Snap, k: int)
    requires 0 <= k < |s.roots|
  {
    s.roots[k].setIndex < |s.cls| && IsGreatest(Row, s.cls[s.roots[k].setIndex], s.roots[k].stats.maxY)
  }

  /** Every max_y is the bottom row of its class. */
  ghost predicate BottomsExact(s: Snap) {
    forall k :: 0 <= k < |s.roots| ==> BottomExact(s, k)
  }

  lemma MakeSetExact(s: Snap, r: Run)
    requires Sound(s) && BottomsExact(s) && Possible(s, MakeSet(r))
    ensures Sound(AddNode(s, r)) && BottomsExact(AddNode(s, r))
  {
    NotAccounted(s.cls, r);
    AddNodeIsSound(s, r);
    InitDescribes(r);
    var t := AddNode(s, r);
    hide Sound;
    forall k | 0 <= k < |t.roots|
      ensures BottomExact(t, k)
    {
      assert k < |s.roots| ==> BottomExact(s, k);
    }
  }

  /** A box that is exact stays right and exact, wherever the new run is. */
  lemma SingletonExact(st: BlobStats, x: set<Run>, r: Run)
    requires r.WellFormed() && r !in x && Describes(st, x) && IsGreatest(Row, x, st.maxY)
    ensures var after := StatsAddSingletonMaxGuard(st, r.row, r.low, r.high);
            Describes(after, x + {r}) && IsGreatest(Row, x + {r}, after.maxY)
  {
    SingletonSums(st, x, r);
    SingletonSides(st, x, r);
    MaxGuardKeepsBottomExact(st, x, r);
  }

  lemma JoinStats(s: Snap, i: nat, r: Run)
    requires Sound(s) && BottomsExact(s) && Possible(s, Join(i, r))
    ensures StatsOk(ExtendMaxGuard(s, i, r).roots, ExtendMaxGuard(s, i, r).cls)
    ensures BottomsExact(ExtendMaxGuard(s, i, r))
  {
    NotAccounted(s.cls, r);
    RootsAreLinkedTo(s, i);
    var k, t := s.nodes[i].rootListIndex, ExtendMaxGuard(s, i, r);
    assert StatOk(s.roots, s.cls, k) && BottomExact(s, k);
    SingletonExact(s.roots[k].stats, s.cls[i], r);
    forall l | 0 <= l < |t.roots|
      ensures StatOk(t.roots, t.cls, l) && BottomExact(t, l)
    {
      hide Describes, IsGreatest;
      assert StatOk(s.roots, s.cls, l) && EntryOk(s.nodes, s.roots, s.rootOf, l) && BottomExact(s, l);
    }
  }

  lemma RootsAreLinkedTo(s: Snap, i: nat)
    requires Sound(s) && RootLinked(s, i)
    ensures s.roots[s.nodes[i].rootListIndex].setIndex == i && 1 <= i < |s.cls|
  {
  }

  lemma JoinExact(s: Snap, i: nat, r: Run)
    requires Sound(s) && BottomsExact(s) && Possible(s, Join(i, r))
    ensures Sound(ExtendMaxGuard(s, i, r)) && BottomsExact(ExtendMaxGuard(s, i, r))
  {
    var t := ExtendMaxGuard(s, i, r);
    NotAccounted(s.cls, r);
    ExtendClassesOk(s, i, r);
    JoinStats(s, i, r);
    hide BottomsExact, StatsOk, ClassesOk;
    forall j | 1 <= j < |t.nodes|
      ensures BackOk(t.nodes, t.roots, t.rootOf, j)
    {
      assert BackOk(s.nodes, s.roots, s.rootOf, j);
    }
    forall k | 0 <= k < |t.roots|
      ensures EntryOk(t.nodes, t.roots, t.rootOf, k)
    {
      assert EntryOk(s.nodes, s.roots, s.rootOf, k);
    }
  }

  lemma LinkExact(s: Snap, c: nat, p: nat)
    requires Sound(s) && BottomsExact(s) && Linkable(s, c, p)
    ensures BottomsExact(Link(s, c, p))
  {
    var t := Link(s, c, p);
    var crx, prx := s.nodes[c].rootListIndex, s.nodes[p].rootListIndex;
    assert BottomExact(s, crx) && BottomExact(s, prx);
    AddKeepsBottomExact(s.roots[prx].stats, s.cls[p], s.roots[crx].stats, s.cls[c]);
    assert s.cls[c] + s.cls[p] == s.cls[p] + s.cls[c];
    hide IsGreatest;
    forall k | 0 <= k < |t.roots|
      ensures BottomExact(t, k)
    {
      var from := if k == crx then |s.roots| - 1 else k;
      assert EntryOk(s.nodes, s.roots, s.rootOf, from) && BottomExact(s, from);
      assert EntryOk(s.nodes, s.roots, s.rootOf, crx);
      assert t.roots[k].setIndex == s.roots[from].setIndex;
      if from != prx {
        assert t.roots[k].stats == s.roots[from].stats;
      }
    }
  }

  lemma ChangeExact(s: Snap, ch: Change)
    requires Sound(s) && BottomsExact(s) && Possible(s, ch)
    ensures Sound(Changed(s, ch)) && BottomsExact(Changed(s, ch))
  {
    hide Sound, BottomsExact, BottomExact;
    match ch {
      case MakeSet(r) => MakeSetExact(s, r);
      case Join(i, r) => JoinExact(s, i, r);
      case LinkRoots(c, p) =>
        LinkIsSound(s, c, p);
        LinkExact(s, c, p);
      case CompressPath(i) =>
        CompressIsSound(s, i);
        CompressExact(s, i);
    }
  }

  lemma CompressExact(s: Snap, i: nat)
    requires BottomsExact(s) && Possible(s, CompressPath(i))
    ensures BottomsExact(Compress(s, i))
  {
    hide IsGreatest;
    var t := Compress(s, i);
    forall k | 0 <= k < |t.roots|
      ensures BottomExact(t, k)
    {
      assert BottomExact(s, k);
    }
  }

  /** From an empty list, any changes in any order leave every box right and every bottom row exact. */
  lemma EveryBottomExact(chs: seq<Change>)
    requires ArePossible(EMPTY, chs)
    ensures Sound(After(EMPTY, chs)) && BottomsExact(After(EMPTY, chs))
  {
    EmptyIsSound();
    RunExact(EMPTY, chs);
  }

  lemma {:induction false} RunExact(s: Snap, chs: seq<Change>)
    requires Sound(s) && BottomsExact(s) && ArePossible(s, chs)
    ensures Sound(After(s, chs)) && BottomsExact(After(s, chs))
    decreases |chs|
  {
    hide Sound, BottomsExact, Possible, Changed;
    if chs != [] {
      ChangeExact(s, chs[0]);
      RunExact(Changed(s, chs[0]), chs[1..]);
    }
  }
}
