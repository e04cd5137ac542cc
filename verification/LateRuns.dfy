/** What the unions of a pass over a mask leave behind, stated on the mask: where make_set finds no room,
    and which blobs end with their bottom row in max_y. */
module LateRuns {
  import opened Folds
  import opened Reach
  import opened BlobStats
  import opened Partition
  import opened UnionLog
  import opened Sweep
  import opened Pixels

  // ----- The edges of a mask -----

  ghost function MaskRuns(mask: set<Pixel>): set<Run> {
    set p, q | p in mask && q in mask && IsRun(mask, RunFrom(p, q)) :: RunFrom(p, q)
  }

  /** The run from p up to and including q. */
  function RunFrom(p: Pixel, q: Pixel): Run {
    Run(p.y, p.x, q.x + 1)
  }

  ghost function MaskEdges(mask: set<Pixel>): set<Edge> {
    set r, t | r in MaskRuns(mask) && t in MaskRuns(mask) && IsEdge(mask, (r, t)) :: (r, t)
  }

  lemma MaskRunsHas(mask: set<Pixel>, r: Run)
    requires IsRun(mask, r)
    ensures r in MaskRuns(mask)
  {
    var p, q := Pixel(r.low, r.row), Pixel(r.high - 1, r.row);
    assert p in mask && q in mask;
    assert RunFrom(p, q) == r;
  }

  lemma MaskEdgesHas(mask: set<Pixel>, e: Edge)
    ensures e in MaskEdges(mask) <==> IsEdge(mask, e)
  {
    if IsEdge(mask, e) {
      MaskRunsHas(mask, e.0);
      MaskRunsHas(mask, e.1);
      assert e == (e.0, e.1);
    }
  }

  /** The edges the pass comes to before e. */
  ghost function Earlier(mask: set<Pixel>, e: Edge): set<Edge> {
    set d | d in MaskEdges(mask) && Before(d, e)
  }

  /** h holds the edges of the mask in the order of the pass. */
  ghost predicate IsPass(mask: set<Pixel>, h: seq<Edge>) {
    EdgeSet(h) == MaskEdges(mask) && InOrder(h)
  }

  lemma PrefixIsEarlier(mask: set<Pixel>, h: seq<Edge>, k: nat)
    requires IsPass(mask, h) && k < |h|
    ensures EdgeSet(h[..k]) == Earlier(mask, h[k]) && h[k] in MaskEdges(mask)
  {
  }

  lemma EdgeHasPlace(mask: set<Pixel>, h: seq<Edge>, e: Edge) returns (k: nat)
    requires IsPass(mask, h) && e in MaskEdges(mask)
    ensures k < |h| && h[k] == e
  {
    assert e in EdgeSet(h);
    k :| 0 <= k < |h| && h[k] == e;
  }

  // ----- Room -----

  /** The edges before e that are the first for both of their runs. */
  ghost function StartsBefore(mask: set<Pixel>, e: Edge): set<Edge> {
    set d | d in Earlier(mask, e) && BothNew(Earlier(mask, d), d)
  }

  /** The pass comes to an edge that needs a node when there is none left, or an entry of root_info when
      as many blobs as there are places have been begun and not yet merged. */
  ghost predicate CrowdedMask(mask: set<Pixel>, sets: int, places: int) {
    exists e :: e in MaskEdges(mask) && CrowdedEdge(mask, e, sets, places)
  }

  ghost predicate CrowdedEdge(mask: set<Pixel>, e: Edge, sets: int, places: int) {
    NoRoom(Earlier(mask, e), |StartsBefore(mask, e)|, e, sets, places)
  }

  ghost function StartsIn(mask: set<Pixel>, edges: set<Edge>): set<Edge> {
    set d | d in edges && BothNew(Earlier(mask, d), d)
  }

  lemma NotBeforeItself(mask: set<Pixel>, e: Edge)
    ensures e !in Earlier(mask, e)
  {
  }

  lemma StartsInMore(mask: set<Pixel>, edges: set<Edge>, e: Edge)
    requires e !in edges
    ensures |StartsIn(mask, edges + {e})| == |StartsIn(mask, edges)| + if BothNew(Earlier(mask, e), e) then 1 else 0
  {
    hide BothNew, Earlier;
    assert StartsIn(mask, edges + {e}) ==
           StartsIn(mask, edges) + if BothNew(Earlier(mask, e), e) then {e} else {};
  }

  lemma NothingStarted(mask: set<Pixel>, h: seq<Edge>)
    ensures h[..0] == [] && Starts([]) == 0 && StartsIn(mask, EdgeSet([])) == {}
  {
  }

  lemma {:induction false} StartsAreCounted(mask: set<Pixel>, h: seq<Edge>, k: nat)
    requires IsPass(mask, h) && k <= |h|
    ensures |StartsIn(mask, EdgeSet(h[..k]))| == Starts(h[..k])
  {
    hide *;
    if k == 0 {
      NothingStarted(mask, h);
    } else {
      var e, front := h[k - 1], h[..k - 1];
      StartsAreCounted(mask, h, k - 1);
      PrefixIsEarlier(mask, h, k - 1);
      NotBeforeItself(mask, e);
      assert h[..k] == front + [e];
      StartsMore(front, e);
      EdgeSetMore(front, e);
      StartsInMore(mask, EdgeSet(front), e);
    }
  }

  /** The order of the pass runs out of room exactly on a crowded mask. */
  lemma CrowdedIff(mask: set<Pixel>, h: seq<Edge>, sets: int, places: int)
    requires IsPass(mask, h)
    ensures Crowded(h, sets, places) <==> CrowdedMask(mask, sets, places)
  {
    hide IsPass, NoRoom, EdgeSet, Earlier, MaskEdges, Starts;
    forall k: nat | k < |h|
      ensures CrowdedAt(h, k, sets, places) == CrowdedEdge(mask, h[k], sets, places) && h[k] in MaskEdges(mask)
    {
      PrefixIsEarlier(mask, h, k);
      StartsAreCounted(mask, h, k);
      assert StartsIn(mask, EdgeSet(h[..k])) == StartsBefore(mask, h[k]);
    }
    if CrowdedMask(mask, sets, places) {
      var e :| e in MaskEdges(mask) && CrowdedEdge(mask, e, sets, places);
      var k := EdgeHasPlace(mask, h, e);
      assert CrowdedAt(h, k, sets, places);
    }
  }

  // ----- Late runs -----

  /** The upper run of e touches no run above it and is not the leftmost one above the lower run, which
      therefore has a node when the pass comes to e. */
  ghost predicate LateRun(mask: set<Pixel>, e: Edge) {
    && IsEdge(mask, e)
    && (forall d: Run :: !IsEdge(mask, (d, e.0)))
    && exists x: Run :: IsEdge(mask, (x, e.1)) && x.low < e.0.low
  }

  /** Maximal runs of one row are apart. */
  lemma RunsApartInRow(mask: set<Pixel>, a: Run, b: Run)
    requires IsRun(mask, a) && IsRun(mask, b) && a.row == b.row && a.low < b.low
    ensures a.high < b.low
  {
  }

  lemma LateIsNew(mask: set<Pixel>, e: Edge, d: Edge)
    requires LateRun(mask, e) && d in Earlier(mask, e)
    ensures d.0 != e.0 && d.1 != e.0
  {
    MaskEdgesHas(mask, d);
    if d.0 == e.0 {
      var x: Run :| IsEdge(mask, (x, e.1)) && x.low < e.0.low;
      RunsApartInRow(mask, x, e.0);
      RunsApartInRow(mask, d.1, e.1);
    }
    assert d.1 == e.0 ==> IsEdge(mask, (d.0, e.0));
  }

  /** A run is late exactly if it has no node when the pass comes to it and the run below has one. */
  lemma LateIff(mask: set<Pixel>, e: Edge)
    requires IsEdge(mask, e)
    ensures LateRun(mask, e) <==> !Touches(Earlier(mask, e), e.0) && Touches(Earlier(mask, e), e.1)
  {
    var before := Earlier(mask, e);
    if LateRun(mask, e) {
      forall d | d in before
        ensures d.0 != e.0 && d.1 != e.0
      {
        LateIsNew(mask, e, d);
      }
      var x: Run :| IsEdge(mask, (x, e.1)) && x.low < e.0.low;
      MaskEdgesHas(mask, (x, e.1));
      assert (x, e.1) in before;
    }
    if !Touches(before, e.0) && Touches(before, e.1) {
      forall d: Run
        ensures !IsEdge(mask, (d, e.0))
      {
        MaskEdgesHas(mask, (d, e.0));
        assert (d, e.0) in MaskEdges(mask) ==> (d, e.0) in before;
      }
      var d :| d in before && (d.0 == e.1 || d.1 == e.1);
      MaskEdgesHas(mask, d);
      assert d.1 == e.1 && d == (d.0, e.1);
      assert IsEdge(mask, (d.0, e.1)) && d.0.low < e.0.low;
    }
  }

  // ----- The bottom row -----

  /** When the late run of e joins, b is in the class that records the row above its own: b is in the row
      of e.1, connected to it by earlier edges, and so is some run above the late one. */
  ghost predicate Overwrites(mask: set<Pixel>, e: Edge, b: Run) {
    && LateRun(mask, e) && b.row == e.1.row && Connected(Earlier(mask, e), b, e.1)
    && exists q: Run :: q.row < e.0.row && Connected(Earlier(mask, e), q, e.1)
  }

  /** Some run of the bottom row of c is not overwritten. */
  ghost predicate BottomRecorded(mask: set<Pixel>, c: set<Pixel>) {
    exists b :: IsBottomRun(mask, c, b) && forall e :: !Overwrites(mask, e, b)
  }

  ghost predicate IsBottomRun(mask: set<Pixel>, c: set<Pixel>, b: Run) {
    IsRun(mask, b) && Pixel(b.low, b.row) in c && forall p :: p in c ==> p.y <= b.row
  }

  lemma OverwritesIffSlips(mask: set<Pixel>, e: Edge, b: Run)
    requires IsEdge(mask, e)
    ensures Overwrites(mask, e, b) <==> Slips(Earlier(mask, e), e, b)
  {
    hide Connected, Earlier, LateRun, Touches;
    LateIff(mask, e);
    if Slips(Earlier(mask, e), e, b) {
      var q: Run :| q.row < e.0.row && Connected(Earlier(mask, e), q, e.1);
      ConnectedTouches(Earlier(mask, e), q, e.1);
    }
  }

  lemma OverwrittenIff(mask: set<Pixel>, h: seq<Edge>, b: Run)
    requires IsPass(mask, h)
    ensures Overwritten(h, b) <==> exists e :: Overwrites(mask, e, b)
  {
    hide IsPass, Slips, EdgeSet, Earlier, MaskEdges;
    forall k: nat | k < |h|
      ensures SlipsAt(h, k, b) == Overwrites(mask, h[k], b)
    {
      PrefixIsEarlier(mask, h, k);
      MaskEdgesHas(mask, h[k]);
      OverwritesIffSlips(mask, h[k], b);
    }
    if exists e :: Overwrites(mask, e, b) {
      var e :| Overwrites(mask, e, b);
      MaskEdgesHas(mask, e);
      var k := EdgeHasPlace(mask, h, e);
      assert SlipsAt(h, k, b);
    }
  }

  lemma RunOfClass(mask: set<Pixel>, x: set<Run>, b: Run)
    requires (forall r :: r in x ==> IsRun(mask, r)) && IsRun(mask, b)
    ensures Pixel(b.low, b.row) in PixelsOf(x) <==> b in x
  {
  }

  lemma LowestIffBottom(mask: set<Pixel>, x: set<Run>, b: Run)
    requires forall r :: r in x ==> IsRun(mask, r)
    ensures IsBottomRun(mask, PixelsOf(x), b) <==> IsLowest(x, b)
  {
    hide PixelsOf;
    if IsBottomRun(mask, PixelsOf(x), b) {
      RunOfClass(mask, x, b);
      forall q | q in x
        ensures q.row <= b.row
      {
        PixelsOfHas(x, q, Pixel(q.low, q.row));
      }
    }
    if IsLowest(x, b) {
      RunOfClass(mask, x, b);
      forall p | p in PixelsOf(x)
        ensures p.y <= b.row
      {
        var r := RunOfPixel(x, p);
      }
    }
  }

  /** The condition on the unions is the condition on the mask. */
  lemma RecordedIff(mask: set<Pixel>, h: seq<Edge>, x: set<Run>)
    requires IsPass(mask, h) && forall r :: r in x ==> IsRun(mask, r)
    ensures Recorded(h, x) <==> BottomRecorded(mask, PixelsOf(x))
  {
    hide IsPass, IsRun, Overwritten, Overwrites, IsBottomRun, IsLowest, PixelsOf;
    forall b
      ensures IsBottomRun(mask, PixelsOf(x), b) == IsLowest(x, b)
      ensures Overwritten(h, b) <==> exists e :: Overwrites(mask, e, b)
    {
      LowestIffBottom(mask, x, b);
      OverwrittenIff(mask, h, b);
    }
  }

  lemma BottomOfPixels(x: set<Run>, v: int)
    requires forall r :: r in x ==> r.low < r.high
    ensures IsGreatest(Y, PixelsOf(x), v) <==> IsGreatest(Row, x, v)
  {
    hide PixelsOf;
    forall r | r in x
      ensures Pixel(r.low, r.row) in PixelsOf(x)
    {
      PixelsOfHas(x, r, Pixel(r.low, r.row));
    }
    if IsGreatest(Y, PixelsOf(x), v) {
      var p :| p in PixelsOf(x) && Y(p) == v;
      var r := RunOfPixel(x, p);
      assert Row(r) == v;
      assert forall q :: q in x ==> Y(Pixel(q.low, q.row)) <= v;
    }
    if IsGreatest(Row, x, v) {
      var r :| r in x && Row(r) == v;
      assert Y(Pixel(r.low, r.row)) == v;
      forall p | p in PixelsOf(x)
        ensures Y(p) <= v
      {
        var q := RunOfPixel(x, p);
        assert Row(q) <= v;
      }
    }
  }

  /** Late runs that overwrite a run of a component are above a run of the same component. */
  lemma OverwritesInside(mask: set<Pixel>, c: set<Pixel>, b: Run, e: Edge)
    requires IsComponent(mask, c) && IsRun(mask, b) && Pixel(b.low, b.row) in c && Overwrites(mask, e, b)
    ensures Pixel(e.1.low, e.1.row) in c
  {
    forall d | d in Earlier(mask, e)
      ensures IsEdge(mask, d)
    {
      MaskEdgesHas(mask, d);
    }
    var p, q := Pixel(b.low, b.row), Pixel(e.1.low, e.1.row);
    ConnectedIsLinked(mask, Earlier(mask, e), b, e.1, p, q);
    assert q in mask && Linked(mask, p, q);
  }

  /** A component is reported with its bottom row if no late run touches a run of that row: in
      particular if it has no late run at all. */
  lemma NoLateRunRecorded(mask: set<Pixel>, cols: int, c: set<Pixel>, bottom: int)
    requires IsComponent(mask, c) && IsGreatest(Y, c, bottom) && forall q :: q in mask ==> 0 <= q.x < cols
    requires forall e :: LateRun(mask, e) && e.1.row == bottom ==> Pixel(e.1.low, bottom) !in c
    ensures BottomRecorded(mask, c)
  {
    var p :| p in c && Y(p) == bottom;
    var b := RunThrough(mask, cols, p);
    var left := Pixel(b.low, b.row);
    RunIsLinked(mask, b, p, left);
    assert b.row == bottom && left in c;
    forall q | q in c
      ensures q.y <= b.row
    {
      assert Y(q) <= bottom;
    }
    forall e
      ensures !Overwrites(mask, e, b)
    {
      if Overwrites(mask, e, b) { OverwritesInside(mask, c, b, e); }
    }
    assert IsBottomRun(mask, c, b);
  }
}
