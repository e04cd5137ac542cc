/** yuv_run_row_union: one sweep over the runs of two consecutive rows. */
module Sweep {
  import opened Words
  import opened BlobStats
  import opened Forest
  import opened Partition
  import opened UnionLog
  import opened BlobLists

  /** Runs of one row in increasing order, with a gap between any two. */
  ghost predicate Separated(rs: seq<Run>, row: int) {
    && (forall i :: 0 <= i < |rs| ==> rs[i].row == row && 0 <= rs[i].low < rs[i].high)
    && (forall i, j :: 0 <= i < j < |rs| ==> rs[i].high < rs[j].low)
  }

  /** Two runs of neighbouring rows that share a column. */
  predicate Overlaps(a: Run, b: Run) {
    a.low < b.high && b.low < a.high
  }

  /** The row list ys holds the runs rs, and its parent indices are truthful. */
  ghost predicate ListTracked(cls: seq<set<Run>>, ys: seq<YuvRun>, rs: seq<Run>) {
    |ys| == |rs| &&
    forall i :: 0 <= i < |ys| ==>
      ys[i].low == rs[i].low && ys[i].high == rs[i].high && Tracked(cls, ys[i].parentIndex, rs[i])
  }

  lemma TrackedStays(s: Snap, t: Snap, a: Run, b: Run, root: int, p: nat, r: Run)
    requires JoinedTo(s, t, a, b, root) && Tracked(s.cls, p, r) && r != a && r != b
    ensures Tracked(t.cls, p, r)
  {
  }

  lemma ListStaysTracked(s: Snap, t: Snap, a: Run, b: Run, root: int, i: nat,
                         ys: seq<YuvRun>, zs: seq<YuvRun>, rs: seq<Run>, row: int)
    requires JoinedTo(s, t, a, b, root) && a.row != b.row && Separated(rs, row)
    requires ListTracked(s.cls, ys, rs) && SameButParent(zs, ys, i)
    requires rs[i] == a || rs[i] == b
    requires Tracked(t.cls, zs[i].parentIndex, rs[i])
    ensures ListTracked(t.cls, zs, rs)
  {
    hide JoinedTo, Tracked;
    forall j | 0 <= j < |zs|
      ensures zs[j].low == rs[j].low && zs[j].high == rs[j].high && Tracked(t.cls, zs[j].parentIndex, rs[j])
    {
      if j != i {
        assert zs[j] == ys[j] && rs[j] != rs[i] && rs[j].row == rs[i].row;
        TrackedStays(s, t, a, b, root, ys[j].parentIndex, rs[j]);
      }
    }
  }

  /** The unions asked for by the calls, as pairs of runs. */
  ghost function EdgesOf(calls: seq<(nat, nat)>, ra: seq<Run>, rb: seq<Run>): set<Edge> {
    set k | 0 <= k < |calls| && calls[k].0 < |ra| && calls[k].1 < |rb| :: (ra[calls[k].0], rb[calls[k].1])
  }

  lemma EdgesOfMore(calls: seq<(nat, nat)>, c: (nat, nat), ra: seq<Run>, rb: seq<Run>)
    requires c.0 < |ra| && c.1 < |rb|
    ensures EdgesOf(calls + [c], ra, rb) == EdgesOf(calls, ra, rb) + {(ra[c.0], rb[c.1])}
  {
    var more := calls + [c];
    assert more[|calls|] == c;
    forall e | e in EdgesOf(calls, ra, rb)
      ensures e in EdgesOf(more, ra, rb)
    {
      var k :| 0 <= k < |calls| && calls[k].0 < |ra| && calls[k].1 < |rb| && e == (ra[calls[k].0], rb[calls[k].1]);
      assert more[k] == calls[k];
    }
  }

  /** Calls in sweep order, none twice, each on an overlapping pair, all before position n. */
  ghost predicate CallsOk(calls: seq<(nat, nat)>, ra: seq<Run>, rb: seq<Run>, n: int) {
    && (forall k :: 0 <= k < |calls| ==>
          calls[k].0 < |ra| && calls[k].1 < |rb| && Overlaps(ra[calls[k].0], rb[calls[k].1]) &&
          calls[k].0 + calls[k].1 < n)
    && (forall k, l :: 0 <= k < l < |calls| ==> calls[k].0 + calls[k].1 < calls[l].0 + calls[l].1)
  }

  /** Every overlapping pair with a run before ai or bi has been called. */
  ghost predicate CallsCover(calls: seq<(nat, nat)>, ra: seq<Run>, rb: seq<Run>, ai: int, bi: int) {
    forall i: nat, j: nat :: i < |ra| && j < |rb| && (i < ai || j < bi) && Overlaps(ra[i], rb[j]) ==> (i, j) in calls
  }

  /** Run ai ends before any later run of the other row begins: it is done with. */
  lemma CoverPastA(calls: seq<(nat, nat)>, ra: seq<Run>, rb: seq<Run>, ai: nat, bi: nat, rowA: int, rowB: int)
    requires Separated(ra, rowA) && Separated(rb, rowB) && ai < |ra| && bi < |rb|
    requires CallsCover(calls, ra, rb, ai, bi)
    requires Overlaps(ra[ai], rb[bi]) ==> (ai, bi) in calls && ra[ai].high < rb[bi].high
    requires Overlaps(ra[ai], rb[bi]) || ra[ai].high <= rb[bi].low
    ensures CallsCover(calls, ra, rb, ai + 1, bi)
    ensures forall n :: CallsOk(calls, ra, rb, n) ==> CallsOk(calls, ra, rb, n + 1)
    ensures ai + 1 < |ra| ==> ra[ai].low < ra[ai + 1].low
  {
  }

  lemma CoverPastB(calls: seq<(nat, nat)>, ra: seq<Run>, rb: seq<Run>, ai: nat, bi: nat, rowA: int, rowB: int)
    requires Separated(ra, rowA) && Separated(rb, rowB) && ai < |ra| && bi < |rb|
    requires CallsCover(calls, ra, rb, ai, bi)
    requires Overlaps(ra[ai], rb[bi]) ==> (ai, bi) in calls && rb[bi].high <= ra[ai].high
    requires Overlaps(ra[ai], rb[bi]) || rb[bi].high <= ra[ai].low
    ensures CallsCover(calls, ra, rb, ai, bi + 1)
    ensures forall n :: CallsOk(calls, ra, rb, n) ==> CallsOk(calls, ra, rb, n + 1)
    ensures bi + 1 < |rb| ==> rb[bi].low < rb[bi + 1].low
  {
  }

  lemma CallsMore(calls: seq<(nat, nat)>, ra: seq<Run>, rb: seq<Run>, ai: nat, bi: nat)
    requires CallsOk(calls, ra, rb, ai + bi) && ai < |ra| && bi < |rb| && Overlaps(ra[ai], rb[bi])
    requires CallsCover(calls, ra, rb, ai, bi)
    ensures CallsOk(calls + [(ai, bi)], ra, rb, ai + bi + 1)
    ensures CallsCover(calls + [(ai, bi)], ra, rb, ai, bi) && (ai, bi) in calls + [(ai, bi)]
  {
  }

  /** d comes before e in the pass: in higher rows, or in the same two rows further left. */
  predicate Before(d: Edge, e: Edge) {
    d.1.row < e.1.row || (d.1.row == e.1.row && d.0.low + d.1.low < e.0.low + e.1.low)
  }

  ghost predicate InOrder(h: seq<Edge>) {
    forall i, j :: 0 <= i < j < |h| ==> Before(h[i], h[j])
  }

  /** Everything in h comes before the place pos of the row. */
  ghost predicate UpTo(h: seq<Edge>, row: int, pos: int) {
    forall e :: e in h ==> e.1.row < row || (e.1.row == row && e.0.low + e.1.low < pos)
  }

  lemma OrderMore(h: seq<Edge>, e: Edge)
    requires InOrder(h) && UpTo(h, e.1.row, e.0.low + e.1.low)
    ensures InOrder(h + [e]) && UpTo(h + [e], e.1.row, e.0.low + e.1.low + 1)
  {
  }

  lemma UpToFurther(h: seq<Edge>, row: int, pos: int, further: int)
    requires UpTo(h, row, pos) && pos <= further
    ensures UpTo(h, row, further)
  {
  }

  /** No run is accounted for that was not there before or offered. */
  ghost predicate Offered(before: set<Run>, after: set<Run>, ra: seq<Run>, rb: seq<Run>) {
    before <= after && forall q :: q in after ==> q in before || q in ra || q in rb
  }

  lemma OfferedMore(before: set<Run>, middle: set<Run>, after: set<Run>, ra: seq<Run>, rb: seq<Run>, i: nat, j: nat)
    requires Offered(before, middle, ra, rb) && i < |ra| && j < |rb|
    requires middle <= after <= middle + {ra[i], rb[j]}
    ensures Offered(before, after, ra, rb) && |middle| <= |after|
  {
    SubsetSize(middle, after);
  }

  lemma ListAt(cls: seq<set<Run>>, ys: seq<YuvRun>, rs: seq<Run>, i: nat)
    requires ListTracked(cls, ys, rs) && i < |ys|
    ensures i < |rs| && ys[i].low == rs[i].low && ys[i].high == rs[i].high
  {
  }

  lemma RunAt(rs: seq<Run>, row: int, i: nat)
    requires Separated(rs, row) && i < |rs|
    ensures 0 <= rs[i].low < rs[i].high && rs[i].row == row
  {
  }

  /** One call of yuv_run_union inside the sweep. */
  method UnionStep(p: BlobList, aRow: u16, a: array<YuvRun>, aCount: nat, ai: nat,
                   bRow: u16, b: array<YuvRun>, bCount: nat, bi: nat, ghost ra: seq<Run>, ghost rb: seq<Run>)
    requires p.Valid() && a != b && ai < aCount <= a.Length && bi < bCount <= b.Length && bRow == aRow + 1
    requires Separated(ra, aRow) && Separated(rb, bRow)
    requires ListTracked(p.cls, a[..aCount], ra) && ListTracked(p.cls, b[..bCount], rb)
    requires forall q :: q in AllRuns(p.cls) ==> q.row <= bRow
    modifies p, p.blobSet, p.rootInfo, a, b
    ensures p.Valid() && p.asked == old(p.asked) + [(ra[ai], rb[bi])]
    ensures ListTracked(p.cls, a[..aCount], ra) && ListTracked(p.cls, b[..bCount], rb)
    ensures AllRuns(old(p.cls)) <= AllRuns(p.cls) <= AllRuns(old(p.cls)) + {ra[ai], rb[bi]}
  {
    hide JoinedTo, Good, Tracked, BottomsRecorded, Crowded, Carried, Starts;
    ghost var s, ya, yb := p.View(), a[..aCount], b[..bCount];
    assert ya[ai] == a[ai] && ToRun(a[ai], aRow) == ra[ai];
    assert yb[bi] == b[bi] && ToRun(b[bi], bRow) == rb[bi];
    p.YuvRunUnion(aRow, a, ai, bRow, b, bi);
    ghost var t := p.View();
    assert SameButParent(a[..aCount], ya, ai) && SameButParent(b[..bCount], yb, bi);
    if exists root :: JoinedTo(s, t, ra[ai], rb[bi], root) {
      ghost var root :| JoinedTo(s, t, ra[ai], rb[bi], root);
      JoinedRuns(s, t, ra[ai], rb[bi], root);
      ListStaysTracked(s, t, ra[ai], rb[bi], root, ai, ya, a[..aCount], ra, aRow);
      ListStaysTracked(s, t, ra[ai], rb[bi], root, bi, yb, b[..bCount], rb, bRow);
    } else {
      assert a[..aCount] == ya && b[..bCount] == yb;
    }
  }

  lemma JoinedRuns(s: Snap, t: Snap, a: Run, b: Run, root: int)
    requires JoinedTo(s, t, a, b, root)
    ensures AllRuns(t.cls) == AllRuns(s.cls) + {a, b}
  {
  }

  lemma SubsetSize<T>(s: set<T>, t: set<T>)
    requires s <= t
    ensures |s| <= |t|
  {
    assert t == s + (t - s);
  }

  /** The call on an overlapping pair, recorded. */
  method CallUnion(p: BlobList, aRow: u16, a: array<YuvRun>, aCount: nat, ai: nat,
                   bRow: u16, b: array<YuvRun>, bCount: nat, bi: nat, ghost ra: seq<Run>, ghost rb: seq<Run>,
                   ghost calls: seq<(nat, nat)>, ghost asked0: set<Edge>, ghost runs0: set<Run>)
      returns (ghost more: seq<(nat, nat)>)
    requires p.Valid() && a != b && ai < aCount <= a.Length && bi < bCount <= b.Length && bRow == aRow + 1
    requires Separated(ra, aRow) && Separated(rb, bRow)
    requires ListTracked(p.cls, a[..aCount], ra) && ListTracked(p.cls, b[..bCount], rb)
    requires forall q :: q in AllRuns(p.cls) ==> q.row <= bRow
    requires |ra| == aCount && |rb| == bCount && Overlaps(ra[ai], rb[bi])
    requires CallsOk(calls, ra, rb, ai + bi) && CallsCover(calls, ra, rb, ai, bi)
    requires EdgeSet(p.asked) == asked0 + EdgesOf(calls, ra, rb)
    requires InOrder(p.asked) && UpTo(p.asked, bRow, ra[ai].low + rb[bi].low)
    requires Offered(runs0, AllRuns(p.cls), ra, rb)
    modifies p, p.blobSet, p.rootInfo, a, b
    ensures p.Valid()
    ensures ListTracked(p.cls, a[..aCount], ra) && ListTracked(p.cls, b[..bCount], rb)
    ensures forall q :: q in AllRuns(p.cls) ==> q.row <= bRow
    ensures |more| == |calls| + 1 && (ai, bi) in more
    ensures CallsOk(more, ra, rb, ai + bi + 1) && CallsCover(more, ra, rb, ai, bi)
    ensures EdgeSet(p.asked) == asked0 + EdgesOf(more, ra, rb)
    ensures InOrder(p.asked) && UpTo(p.asked, bRow, ra[ai].low + rb[bi].low + 1)
    ensures Offered(runs0, AllRuns(p.cls), ra, rb)
  {
    hide Good, AllRuns, Tracked, ListTracked, CallsOk, CallsCover, Offered, EdgesOf, BottomsRecorded, Crowded,
      Carried, Starts, InOrder, UpTo, EdgeSet;
    RunAt(ra, aRow, ai);
    RunAt(rb, bRow, bi);
    OrderMore(p.asked, (ra[ai], rb[bi]));
    EdgeSetMore(p.asked, (ra[ai], rb[bi]));
    UnionStep(p, aRow, a, aCount, ai, bRow, b, bCount, bi, ra, rb);
    CallsMore(calls, ra, rb, ai, bi);
    EdgesOfMore(calls, (ai, bi), ra, rb);
    OfferedMore(runs0, AllRuns(old(p.cls)), AllRuns(p.cls), ra, rb, ai, bi);
    more := calls + [(ai, bi)];
  }

  lemma ListSize(cls: seq<set<Run>>, ys: seq<YuvRun>, rs: seq<Run>)
    requires ListTracked(cls, ys, rs)
    ensures |rs| == |ys|
  {
  }

  lemma SweepStarts(runs: set<Run>, ra: seq<Run>, rb: seq<Run>)
    ensures CallsOk([], ra, rb, 0) && CallsCover([], ra, rb, 0, 0)
    ensures EdgesOf([], ra, rb) == {} && Offered(runs, runs, ra, rb)
  {
  }

  /** When one row is used up, every overlapping pair has been called. */
  lemma SweepEnds(calls: seq<(nat, nat)>, ra: seq<Run>, rb: seq<Run>, ai: nat, bi: nat)
    requires CallsOk(calls, ra, rb, ai + bi) && CallsCover(calls, ra, rb, ai, bi) && (ai >= |ra| || bi >= |rb|)
    ensures forall i: nat, j: nat :: (i, j) in calls <==> i < |ra| && j < |rb| && Overlaps(ra[i], rb[j])
    ensures forall k, l :: 0 <= k < l < |calls| ==> calls[k] != calls[l]
  {
  }

  /** yuv_run_row_union: yuv_run_union is called once for every overlapping pair of runs and for no
      other pair, from left to right, in at most aCount + bCount - 1 calls. */
  method YuvRunRowUnion(p: BlobList, aRow: int, aCount: nat, a: array<YuvRun>,
                        bRow: u16, bCount: nat, b: array<YuvRun>, ghost ra: seq<Run>, ghost rb: seq<Run>)
      returns (ghost calls: seq<(nat, nat)>)
    requires p.Valid() && a != b && aCount <= a.Length && bCount <= b.Length
    requires aCount == 0 || (0 <= aRow && bRow == aRow + 1)
    requires Separated(ra, aRow) && Separated(rb, bRow)
    requires ListTracked(p.cls, a[..aCount], ra) && ListTracked(p.cls, b[..bCount], rb)
    requires forall q :: q in AllRuns(p.cls) ==> q.row <= bRow
    requires InOrder(p.asked) && UpTo(p.asked, bRow, 0)
    modifies p, p.blobSet, p.rootInfo, a, b
    ensures p.Valid()
    ensures ListTracked(p.cls, a[..aCount], ra) && ListTracked(p.cls, b[..bCount], rb)
    ensures forall i: nat, j: nat :: (i, j) in calls <==> i < aCount && j < bCount && Overlaps(ra[i], rb[j])
    ensures forall k, l :: 0 <= k < l < |calls| ==> calls[k] != calls[l]
    ensures |calls| <= if aCount > 0 && bCount > 0 then aCount + bCount - 1 else 0
    ensures EdgeSet(p.asked) == EdgeSet(old(p.asked)) + EdgesOf(calls, ra, rb) && InOrder(p.asked)
    ensures Offered(AllRuns(old(p.cls)), AllRuns(p.cls), ra, rb)
  {
    hide Good, AllRuns, Tracked, ListTracked, CallsOk, CallsCover, Offered, EdgesOf, Separated, BottomsRecorded,
      Crowded, Carried, Starts, InOrder, UpTo, EdgeSet;
    SweepStarts(AllRuns(p.cls), ra, rb);
    ListSize(p.cls, a[..aCount], ra);
    ListSize(p.cls, b[..bCount], rb);
    if aCount > 0 { RunAt(ra, aRow, 0); }
    if bCount > 0 { RunAt(rb, bRow, 0); }
    var ai, bi, x := 0, 0, 0;
    ghost var asked0, pos := EdgeSet(p.asked), 0;
    calls := [];
    while ai < aCount && bi < bCount
      invariant ai <= aCount && bi <= bCount && (aCount > 0 && bCount > 0 ==> ai < aCount || bi < bCount)
      invariant 0 <= x && (ai < aCount && bi < bCount ==> x <= ra[ai].low || x <= rb[bi].low)
      invariant p.Valid() && InOrder(p.asked) && UpTo(p.asked, bRow, pos)
      invariant ai < aCount && bi < bCount ==> pos <= ra[ai].low + rb[bi].low
      invariant ListTracked(p.cls, a[..aCount], ra) && ListTracked(p.cls, b[..bCount], rb)
      invariant CallsOk(calls, ra, rb, ai + bi) && CallsCover(calls, ra, rb, ai, bi)
      invariant |calls| <= ai + bi && (aCount == 0 || bCount == 0 ==> ai == bi == 0)
      invariant EdgeSet(p.asked) == asked0 + EdgesOf(calls, ra, rb)
      invariant Offered(AllRuns(old(p.cls)), AllRuns(p.cls), ra, rb)
      invariant forall q :: q in AllRuns(p.cls) ==> q.row <= bRow
      decreases aCount + bCount - ai - bi
    {
      ListAt(p.cls, a[..aCount], ra, ai);
      ListAt(p.cls, b[..bCount], rb, bi);
      RunAt(ra, aRow, ai);
      RunAt(rb, bRow, bi);
      if x < a[ai].low {
        x := a[ai].low;
      }
      if x < b[bi].low {
        x := b[bi].low;
      }
      if x < a[ai].high {
        if x < b[bi].high {
          UpToFurther(p.asked, bRow, pos, ra[ai].low + rb[bi].low);
          calls := CallUnion(p, aRow, a, aCount, ai, bRow, b, bCount, bi, ra, rb,
                             calls, asked0, AllRuns(old(p.cls)));
          pos := ra[ai].low + rb[bi].low + 1;
          ListAt(p.cls, a[..aCount], ra, ai);
          ListAt(p.cls, b[..bCount], rb, bi);
          if a[ai].high < b[bi].high {
            CoverPastA(calls, ra, rb, ai, bi, aRow, bRow);
            ai := ai + 1;
          } else {
            CoverPastB(calls, ra, rb, ai, bi, aRow, bRow);
            bi := bi + 1;
          }
        } else {
          CoverPastB(calls, ra, rb, ai, bi, aRow, bRow);
          bi := bi + 1;
        }
      } else {
        CoverPastA(calls, ra, rb, ai, bi, aRow, bRow);
        ai := ai + 1;
      }
    }
    SweepEnds(calls, ra, rb, ai, bi);
  }
}
