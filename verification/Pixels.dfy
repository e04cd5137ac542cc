/** 4-connected regions of a set of pixels, and how runs of pixels build them. */
module Pixels {
  import opened Folds
  import opened Reach
  import opened BlobStats
  import opened Partition
  import opened Sweep

  datatype Pixel = Pixel(x: int, y: int)

  function X(p: Pixel): int { p.x }
  function Y(p: Pixel): int { p.y }
  function One(p: Pixel): int { 1 }

  /** 4-neighbours. */
  predicate NextTo(p: Pixel, q: Pixel) {
    (p.y == q.y && (p.x == q.x + 1 || q.x == p.x + 1)) || (p.x == q.x && (p.y == q.y + 1 || q.y == p.y + 1))
  }

  ghost function MaskAdj(mask: set<Pixel>): (Pixel, Pixel) -> bool {
    (p, q) => p in mask && q in mask && NextTo(p, q)
  }

  /** A path of 4-neighbours inside the mask. */
  ghost predicate Linked(mask: set<Pixel>, p: Pixel, q: Pixel) {
    Reaches(MaskAdj(mask), p, q)
  }

  /** A maximal contiguous set of 4-neighbours of the mask. */
  ghost predicate IsComponent(mask: set<Pixel>, c: set<Pixel>) {
    c != {} && c <= mask && forall p, q :: p in c ==> (q in c <==> q in mask && Linked(mask, p, q))
  }

  ghost predicate Contiguous(mask: set<Pixel>, c: set<Pixel>) {
    c <= mask && forall p, q :: p in c && q in c ==> Linked(mask, p, q)
  }

  ghost predicate SpansTwoRows(c: set<Pixel>) {
    exists p, q :: p in c && q in c && p.y != q.y
  }

  ghost function RunPixels(r: Run): set<Pixel> {
    set x | r.low <= x < r.high :: Pixel(x, r.row)
  }

  ghost function PixelsOf(b: set<Run>): set<Pixel> {
    set r, x | r in b && r.low <= x < r.high :: Pixel(x, r.row)
  }

  predicate InRun(p: Pixel, r: Run) {
    p.y == r.row && r.low <= p.x < r.high
  }

  /** A maximal run of the mask. */
  ghost predicate IsRun(mask: set<Pixel>, r: Run) {
    r.low < r.high && (forall x :: r.low <= x < r.high ==> Pixel(x, r.row) in mask) &&
    Pixel(r.low - 1, r.row) !in mask && Pixel(r.high, r.row) !in mask
  }

  /** Two maximal runs, one above the other, that share a column. */
  ghost predicate IsEdge(mask: set<Pixel>, e: Edge) {
    IsRun(mask, e.0) && IsRun(mask, e.1) && e.1.row == e.0.row + 1 && Overlaps(e.0, e.1)
  }

  lemma PixelsOfHas(b: set<Run>, r: Run, p: Pixel)
    requires r in b && InRun(p, r)
    ensures p in PixelsOf(b)
  {
  }

  lemma RunOfPixel(b: set<Run>, p: Pixel) returns (r: Run)
    requires p in PixelsOf(b)
    ensures r in b && InRun(p, r)
  {
    r :| r in b && InRun(p, r);
  }

  /** Maximal runs that share a pixel are the same run. */
  lemma RunsAreDisjoint(mask: set<Pixel>, a: Run, b: Run, p: Pixel)
    requires IsRun(mask, a) && IsRun(mask, b) && InRun(p, a) && InRun(p, b)
    ensures a == b
  {
  }

  /** Every pixel of a mask of bounded width lies in a maximal run. */
  lemma RunThrough(mask: set<Pixel>, cols: int, p: Pixel) returns (r: Run)
    requires p in mask && forall q :: q in mask ==> 0 <= q.x < cols
    ensures IsRun(mask, r) && InRun(p, r)
  {
    var low, high := p.x, p.x + 1;
    while Pixel(low - 1, p.y) in mask
      invariant 0 <= low <= p.x && forall x :: low <= x < high ==> Pixel(x, p.y) in mask
      decreases low
    {
      low := low - 1;
    }
    while Pixel(high, p.y) in mask
      invariant p.x < high <= cols && forall x :: low <= x < high ==> Pixel(x, p.y) in mask
      decreases cols - high
    {
      high := high + 1;
    }
    r := Run(p.y, low, high);
  }

  lemma LinkedSym(mask: set<Pixel>, p: Pixel, q: Pixel)
    requires Linked(mask, p, q)
    ensures Linked(mask, q, p)
  {
    ReachesSym(MaskAdj(mask), p, q);
  }

  lemma LinkedTrans(mask: set<Pixel>, p: Pixel, q: Pixel, r: Pixel)
    requires Linked(mask, p, q) && Linked(mask, q, r)
    ensures Linked(mask, p, r)
  {
    ReachesTrans(MaskAdj(mask), p, q, r);
  }

  lemma LinkedStep(mask: set<Pixel>, p: Pixel, q: Pixel)
    requires p in mask && q in mask && NextTo(p, q)
    ensures Linked(mask, p, q)
  {
    assert MaskAdj(mask)(p, q);
    ReachesStep(MaskAdj(mask), p, q);
  }

  lemma RunIsLinkedForward(mask: set<Pixel>, r: Run, p: Pixel, q: Pixel)
    requires IsRun(mask, r) && InRun(p, r) && InRun(q, r) && p.x <= q.x
    ensures Linked(mask, p, q)
    decreases q.x - p.x
  {
    if p.x == q.x {
      ReachesSelf(MaskAdj(mask), p);
    } else {
      var m := Pixel(p.x + 1, p.y);
      RunIsLinkedForward(mask, r, m, q);
      LinkedStep(mask, p, m);
      LinkedTrans(mask, p, m, q);
    }
  }

  /** The pixels of one maximal run are contiguous. */
  lemma RunIsLinked(mask: set<Pixel>, r: Run, p: Pixel, q: Pixel)
    requires IsRun(mask, r) && InRun(p, r) && InRun(q, r)
    ensures Linked(mask, p, q)
  {
    if p.x <= q.x {
      RunIsLinkedForward(mask, r, p, q);
    } else {
      RunIsLinkedForward(mask, r, q, p);
      LinkedSym(mask, q, p);
    }
  }

  /** Runs that share a column are contiguous with one another. */
  lemma EdgeIsLinked(mask: set<Pixel>, a: Run, b: Run, p: Pixel, q: Pixel)
    requires IsEdge(mask, (a, b)) || IsEdge(mask, (b, a))
    requires InRun(p, a) && InRun(q, b)
    ensures Linked(mask, p, q)
  {
    var x := Max(a.low, b.low);
    var u, v := Pixel(x, a.row), Pixel(x, b.row);
    RunIsLinked(mask, a, p, u);
    RunIsLinked(mask, b, v, q);
    LinkedStep(mask, u, v);
    LinkedTrans(mask, p, u, v);
    LinkedTrans(mask, p, v, q);
  }

  /** Runs connected through edges are contiguous with one another. */
  lemma ConnectedIsLinked(mask: set<Pixel>, edges: set<Edge>, a: Run, b: Run, p: Pixel, q: Pixel)
    requires (forall e :: e in edges ==> IsEdge(mask, e)) && Connected(edges, a, b)
    requires IsRun(mask, a) && InRun(p, a) && InRun(q, b)
    ensures Linked(mask, p, q)
  {
    var path: seq<Run> :| IsPath(EdgeAdj(edges), path) && path[0] == a && path[|path| - 1] == b;
    var i, at := 0, p;
    ReachesSelf(MaskAdj(mask), p);
    while i < |path| - 1
      invariant 0 <= i < |path| && IsRun(mask, path[i]) && InRun(at, path[i]) && Linked(mask, p, at)
    {
      assert EdgeAdj(edges)(path[i], path[i + 1]);
      var next := path[i + 1];
      assert IsEdge(mask, (path[i], next)) || IsEdge(mask, (next, path[i]));
      var to := Pixel(next.low, next.row);
      EdgeIsLinked(mask, path[i], next, at, to);
      LinkedTrans(mask, p, at, to);
      i, at := i + 1, to;
    }
    RunIsLinked(mask, b, at, q);
    LinkedTrans(mask, p, at, q);
  }

  /** Every block of a partition generated by edges is made of maximal runs. */
  lemma BlockIsOfRuns(mask: set<Pixel>, edges: set<Edge>, blocks: set<set<Run>>, b: set<Run>, r: Run)
    requires (forall e :: e in edges ==> IsEdge(mask, e)) && Generated(blocks, edges) && b in blocks && r in b
    ensures IsRun(mask, r)
  {
    assert Touches(edges, r);
    var e :| e in edges && (e.0 == r || e.1 == r);
    assert IsEdge(mask, e);
  }

  /** Even if unions were refused, a block is a contiguous part of the mask. */
  lemma BlockIsContiguous(mask: set<Pixel>, edges: set<Edge>, blocks: set<set<Run>>, b: set<Run>)
    requires (forall e :: e in edges ==> IsEdge(mask, e)) && Generated(blocks, edges) && b in blocks
    ensures Contiguous(mask, PixelsOf(b))
  {
    forall p | p in PixelsOf(b)
      ensures p in mask
    {
      var r := RunOfPixel(b, p);
      BlockIsOfRuns(mask, edges, blocks, b, r);
    }
    forall p, q | p in PixelsOf(b) && q in PixelsOf(b)
      ensures Linked(mask, p, q)
    {
      var r := RunOfPixel(b, p);
      var t := RunOfPixel(b, q);
      BlockIsOfRuns(mask, edges, blocks, b, r);
      ConnectedIsLinked(mask, edges, r, t, p, q);
    }
  }

  /** edges are exactly the pairs of maximal runs that share a column. */
  ghost predicate AllEdges(mask: set<Pixel>, edges: set<Edge>) {
    (forall e :: e in edges ==> IsEdge(mask, e)) && forall e :: IsEdge(mask, e) ==> e in edges
  }

  /** A block contains every mask neighbour of its pixels. */
  lemma BlockIsClosed(mask: set<Pixel>, cols: int, edges: set<Edge>, blocks: set<set<Run>>, b: set<Run>)
    requires AllEdges(mask, edges) && Generated(blocks, edges) && b in blocks
    requires forall q :: q in mask ==> 0 <= q.x < cols
    ensures Closed(MaskAdj(mask), PixelsOf(b))
  {
    forall p, q | p in PixelsOf(b) && MaskAdj(mask)(p, q)
      ensures q in PixelsOf(b)
    {
      var r := RunOfPixel(b, p);
      BlockIsOfRuns(mask, edges, blocks, b, r);
      if p.y == q.y {
        assert q.x == r.high ==> Pixel(r.high, r.row) == q;
        assert q.x == r.low - 1 ==> Pixel(r.low - 1, r.row) == q;
        PixelsOfHas(b, r, q);
      } else {
        var t := RunThrough(mask, cols, q);
        var e := if q.y == p.y + 1 then (r, t) else (t, r);
        assert IsEdge(mask, e);
        assert Together(blocks, e.0, e.1);
        var c :| c in blocks && e.0 in c && e.1 in c;
        assert c == b;
        PixelsOfHas(b, t, q);
      }
    }
  }

  /** A block joins runs of different rows. */
  lemma BlockSpansTwoRows(mask: set<Pixel>, edges: set<Edge>, blocks: set<set<Run>>, b: set<Run>)
    requires (forall e :: e in edges ==> IsEdge(mask, e)) && Generated(blocks, edges) && b in blocks
    ensures SpansTwoRows(PixelsOf(b))
  {
    assert b != {};
    var r :| r in b;
    assert Touches(edges, r);
    var e :| e in edges && (e.0 == r || e.1 == r);
    assert IsEdge(mask, e) && Together(blocks, e.0, e.1);
    var c :| c in blocks && e.0 in c && e.1 in c;
    assert c == b;
    var p, q := Pixel(e.0.low, e.0.row), Pixel(e.1.low, e.1.row);
    PixelsOfHas(b, e.0, p);
    PixelsOfHas(b, e.1, q);
  }

  /** The blocks are components ... */
  lemma BlockIsComponent(mask: set<Pixel>, cols: int, edges: set<Edge>, blocks: set<set<Run>>, b: set<Run>)
    requires AllEdges(mask, edges) && Generated(blocks, edges) && b in blocks
    requires forall q :: q in mask ==> 0 <= q.x < cols
    ensures IsComponent(mask, PixelsOf(b)) && SpansTwoRows(PixelsOf(b))
  {
    BlockIsContiguous(mask, edges, blocks, b);
    BlockIsClosed(mask, cols, edges, blocks, b);
    BlockSpansTwoRows(mask, edges, blocks, b);
    forall p, q | p in PixelsOf(b) && q in mask && Linked(mask, p, q)
      ensures q in PixelsOf(b)
    {
      ClosedHoldsReachable(MaskAdj(mask), PixelsOf(b), p, q);
    }
  }

  ghost predicate HasEdge(mask: set<Pixel>, r: Run) {
    exists t :: IsEdge(mask, (r, t)) || IsEdge(mask, (t, r))
  }

  lemma VerticalNeighbourIsEdge(mask: set<Pixel>, r: Run, t: Run, p: Pixel, q: Pixel)
    requires IsRun(mask, r) && IsRun(mask, t) && InRun(p, r) && InRun(q, t) && NextTo(p, q) && p.y != q.y
    ensures HasEdge(mask, r)
  {
    assert IsEdge(mask, (r, t)) || IsEdge(mask, (t, r));
  }

  /** A run with no edges is a component of its own. */
  lemma LoneRunIsClosed(mask: set<Pixel>, cols: int, r: Run)
    requires IsRun(mask, r) && (forall q :: q in mask ==> 0 <= q.x < cols) && !HasEdge(mask, r)
    ensures Closed(MaskAdj(mask), PixelsOf({r}))
  {
    forall p, q | p in PixelsOf({r}) && MaskAdj(mask)(p, q)
      ensures q in PixelsOf({r})
    {
      var s := RunOfPixel({r}, p);
      var t := RunThrough(mask, cols, q);
      if p.y == q.y {
        assert q.x == r.high ==> Pixel(r.high, r.row) == q;
        assert q.x == r.low - 1 ==> Pixel(r.low - 1, r.row) == q;
        PixelsOfHas({r}, r, q);
      } else {
        VerticalNeighbourIsEdge(mask, r, t, p, q);
      }
    }
  }

  lemma ComponentsThatMeet(mask: set<Pixel>, c: set<Pixel>, d: set<Pixel>, p: Pixel)
    requires IsComponent(mask, c) && IsComponent(mask, d) && p in c && p in d
    ensures c == d
  {
  }

  lemma LoneComponent(mask: set<Pixel>, cols: int, c: set<Pixel>, p: Pixel, q: Pixel, r: Run)
    requires forall s :: s in mask ==> 0 <= s.x < cols
    requires IsComponent(mask, c) && p in c && q in c && IsRun(mask, r) && InRun(p, r) && !HasEdge(mask, r)
    ensures p.y == q.y
  {
    LoneRunIsClosed(mask, cols, r);
    PixelsOfHas({r}, r, p);
    ClosedHoldsReachable(MaskAdj(mask), PixelsOf({r}), p, q);
    var s := RunOfPixel({r}, q);
  }

  lemma BlockWithRun(mask: set<Pixel>, edges: set<Edge>, blocks: set<set<Run>>, r: Run) returns (b: set<Run>)
    requires AllEdges(mask, edges) && Generated(blocks, edges) && HasEdge(mask, r)
    ensures b in blocks && r in b
  {
    var t :| IsEdge(mask, (r, t)) || IsEdge(mask, (t, r));
    var e := if IsEdge(mask, (r, t)) then (r, t) else (t, r);
    assert Together(blocks, e.0, e.1);
    b :| b in blocks && e.0 in b && e.1 in b;
  }

  /** ... and every component of at least two rows is a block. */
  lemma TallComponentIsBlock(mask: set<Pixel>, cols: int, edges: set<Edge>, blocks: set<set<Run>>, c: set<Pixel>)
      returns (b: set<Run>)
    requires AllEdges(mask, edges) && Generated(blocks, edges)
    requires forall q :: q in mask ==> 0 <= q.x < cols
    requires IsComponent(mask, c) && SpansTwoRows(c)
    ensures b in blocks && PixelsOf(b) == c
  {
    hide Generated, AllEdges;
    var p, q :| p in c && q in c && p.y != q.y;
    assert p in mask by { assert c <= mask; }
    var r := RunThrough(mask, cols, p);
    if !HasEdge(mask, r) {
      LoneComponent(mask, cols, c, p, q, r);
    }
    b := BlockWithRun(mask, edges, blocks, r);
    BlockIsComponent(mask, cols, edges, blocks, b);
    PixelsOfHas(b, r, p);
    ComponentsThatMeet(mask, c, PixelsOf(b), p);
  }

  // ----- Statistics of runs as statistics of pixels -----

  lemma {:induction false} SumOfOnes(s: set<Pixel>)
    ensures Sum(One, s) == |s|
    decreases |s|
  {
    if s != {} {
      var p :| p in s;
      SumPick(One, s, p);
      SumOfOnes(s - {p});
    }
  }

  /** The pixels of a run sum to its closed forms (lines 78-81). */
  lemma {:induction false} RunSums(r: Run)
    requires r.low <= r.high
    ensures Sum(One, RunPixels(r)) == Width(r)
    ensures Sum(X, RunPixels(r)) == WeightX(r)
    ensures Sum(Y, RunPixels(r)) == WeightY(r)
    decreases r.high - r.low
  {
    if r.low == r.high {
      assert RunPixels(r) == {};
      assert WeightX(r) == 0 && WeightY(r) == 0;
    } else {
      var shorter := Run(r.row, r.low, r.high - 1);
      var p := Pixel(r.high - 1, r.row);
      RunSums(shorter);
      assert RunPixels(r) == RunPixels(shorter) + {p} && p !in RunPixels(shorter);
      SumInsert(One, RunPixels(shorter), p);
      SumInsert(X, RunPixels(shorter), p);
      SumInsert(Y, RunPixels(shorter), p);
      var w := r.high - 1 - r.low;
      assert (r.low + r.high - 1) * (w + 1) == (r.low + r.high - 2) * w + 2 * (r.high - 1);
      assert r.row * (w + 1) == r.row * w + r.row;
    }
  }

  ghost predicate RunsApart(b: set<Run>) {
    (forall r :: r in b ==> r.low <= r.high) &&
    forall a, c, p :: a in b && c in b && InRun(p, a) && InRun(p, c) ==> a == c
  }

  lemma PixelsWithout(b: set<Run>, r: Run)
    requires RunsApart(b) && r in b
    ensures PixelsOf(b) == PixelsOf(b - {r}) + RunPixels(r) && PixelsOf(b - {r}) !! RunPixels(r)
  {
    forall p | p in PixelsOf(b)
      ensures p in PixelsOf(b - {r}) + RunPixels(r)
    {
      var s := RunOfPixel(b, p);
      if s != r { PixelsOfHas(b - {r}, s, p); }
    }
    forall p | p in RunPixels(r)
      ensures p in PixelsOf(b) && p !in PixelsOf(b - {r})
    {
      PixelsOfHas(b, r, p);
      if p in PixelsOf(b - {r}) { var s := RunOfPixel(b - {r}, p); }
    }
    forall p | p in PixelsOf(b - {r})
      ensures p in PixelsOf(b)
    {
      var s := RunOfPixel(b - {r}, p);
      PixelsOfHas(b, s, p);
    }
  }

  lemma {:induction false} PixelSums(b: set<Run>, f: Pixel -> int, w: Run -> int)
    requires RunsApart(b) && forall r :: r in b ==> Sum(f, RunPixels(r)) == w(r)
    ensures Sum(f, PixelsOf(b)) == Sum(w, b)
    decreases |b|
  {
    if b == {} {
      assert PixelsOf(b) == {};
    } else {
      hide PixelsOf;
      var r :| r in b;
      PixelSums(b - {r}, f, w);
      SumPick(w, b, r);
      PixelsWithout(b, r);
      SumUnion(f, PixelsOf(b - {r}), RunPixels(r));
    }
  }

  /** The reported statistics are those of the pixels of a blob; max_y is the bottom row or one less. */
  ghost predicate Reports(st: BlobStats, c: set<Pixel>) {
    && st.count == |c| && st.sumX == Sum(X, c) && st.sumY == Sum(Y, c)
    && IsLeast(X, c, st.minX) && IsGreatest(X, c, st.maxX) && IsLeast(Y, c, st.minY)
    && (IsGreatest(Y, c, st.maxY) || IsGreatest(Y, c, st.maxY + 1))
  }

  lemma SumsReport(st: BlobStats, b: set<Run>)
    requires SumsDescribe(st, b) && RunsApart(b)
    ensures st.count == |PixelsOf(b)| && st.sumX == Sum(X, PixelsOf(b)) && st.sumY == Sum(Y, PixelsOf(b))
  {
    forall r | r in b
      ensures Sum(One, RunPixels(r)) == Width(r) && Sum(X, RunPixels(r)) == WeightX(r) &&
              Sum(Y, RunPixels(r)) == WeightY(r)
    {
      RunSums(r);
    }
    PixelSums(b, One, Width);
    PixelSums(b, X, WeightX);
    PixelSums(b, Y, WeightY);
    SumOfOnes(PixelsOf(b));
  }

  lemma SidesReport(st: BlobStats, b: set<Run>)
    requires SidesDescribe(st, b) && forall r :: r in b ==> r.low < r.high
    ensures IsLeast(X, PixelsOf(b), st.minX) && IsGreatest(X, PixelsOf(b), st.maxX) && IsLeast(Y, PixelsOf(b), st.minY)
  {
    var l :| l in b && Low(l) == st.minX;
    PixelsOfHas(b, l, Pixel(l.low, l.row));
    var h :| h in b && Last(h) == st.maxX;
    PixelsOfHas(b, h, Pixel(h.high - 1, h.row));
    var t :| t in b && Row(t) == st.minY;
    PixelsOfHas(b, t, Pixel(t.low, t.row));
    forall p | p in PixelsOf(b)
      ensures st.minX <= X(p) <= st.maxX && st.minY <= Y(p)
    {
      var r := RunOfPixel(b, p);
      assert st.minX <= Low(r) && Last(r) <= st.maxX && st.minY <= Row(r);
    }
  }

  lemma BottomReports(b: set<Run>, maxY: int)
    requires BottomWithinOne(b, maxY) && forall r :: r in b ==> r.low < r.high
    ensures IsGreatest(Y, PixelsOf(b), maxY) || IsGreatest(Y, PixelsOf(b), maxY + 1)
  {
    var d :| d in b && maxY <= d.row;
    PixelsOfHas(b, d, Pixel(d.low, d.row));
    forall p | p in PixelsOf(b)
      ensures Y(p) <= maxY + 1
    {
      var r := RunOfPixel(b, p);
    }
    if exists p :: p in PixelsOf(b) && p.y == maxY + 1 {
      var p :| p in PixelsOf(b) && p.y == maxY + 1;
      assert Y(p) == maxY + 1;
    } else {
      assert Y(Pixel(d.low, d.row)) == maxY;
    }
  }

  lemma DescribesReports(mask: set<Pixel>, st: BlobStats, b: set<Run>)
    requires Describes(st, b) && forall r :: r in b ==> IsRun(mask, r)
    ensures Reports(st, PixelsOf(b))
  {
    forall a, c, p | a in b && c in b && InRun(p, a) && InRun(p, c)
      ensures a == c
    {
      RunsAreDisjoint(mask, a, c, p);
    }
    SumsReport(st, b);
    SidesReport(st, b);
    BottomReports(b, st.maxY);
  }
}
