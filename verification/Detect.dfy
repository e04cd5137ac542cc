/** detect_color_blobs: one pass over the image finds its 4-connected colour blobs. */
module Detect {
  import opened Words
  import opened Folds
  import opened BlobStats
  import opened Forest
  import opened Reach
  import opened Partition
  import opened BlobLists
  import opened Sweep
  import opened RowRuns
  import opened Pixels
  import opened UnionLog
  import opened LateRuns
  import opened LostRuns

  /** A YUV420 image: cols * rows Y values, then a quarter as many U values, then as many V values. */
  datatype Image = Image(cols: nat, rows: nat, yuv: seq<byte>) {
    predicate WellFormed() {
      cols % 2 == 0 && rows % 2 == 0 && |yuv| >= cols * rows + 2 * (cols * rows / 4)
    }
  }

  lemma RowFits(i: nat, n: nat, w: nat)
    requires i < n
    ensures i * w + w <= w * n && w * n == n * w
  {
    assert (n - i - 1) * w == n * w - i * w - w;
    assert (n - i - 1) * w >= 0;
  }

  lemma QuarterProduct(w: nat, h: nat)
    ensures (2 * w) * (2 * h) == 4 * (h * w)
  {
  }

  /** The planes are where they should be: pixel (x, y) has its luma inside the first plane and its
      chroma inside the quarter planes. */
  lemma PlaneBounds(cols: nat, rows: nat, x: nat, y: nat)
    requires cols % 2 == 0 && rows % 2 == 0 && x < cols && y < rows
    ensures y * cols + x < cols * rows && y * cols <= cols * rows - cols
    ensures (y / 2) * (cols / 2) + x / 2 < cols * rows / 4
    ensures (y / 2) * (cols / 2) <= cols * rows / 4 - cols / 2
  {
    var w, h, j := cols / 2, rows / 2, y / 2;
    RowFits(y, rows, cols);
    RowFits(j, h, w);
    QuarterProduct(w, h);
    assert cols * rows == (2 * w) * (2 * h);
  }

  lemma PixelBounds(img: Image, x: nat, y: nat)
    requires img.WellFormed() && x < img.cols && y < img.rows
    ensures var pixels, uvOffset := img.cols * img.rows, (y / 2) * (img.cols / 2) + x / 2;
            0 <= y * img.cols + x < |img.yuv| && 0 <= pixels + uvOffset < |img.yuv| &&
            0 <= pixels + uvOffset + pixels / 4 < |img.yuv|
  {
    PlaneBounds(img.cols, img.rows, x, y);
    Products(y, img.cols);
    Products(y / 2, img.cols / 2);
    Products(img.cols, img.rows);
  }

  /** yuv420_get_pixel */
  function GetPixel(img: Image, x: nat, y: nat): (byte, byte, byte)
    requires img.WellFormed()
  {
    if x >= img.cols || y >= img.rows then (0, 0, 0)
    else
      PixelBounds(img, x, y);
      var pixels := img.cols * img.rows;
      var uvOffset := (y / 2) * (img.cols / 2) + x / 2;
      (img.yuv[y * img.cols + x], img.yuv[pixels + uvOffset], img.yuv[pixels + uvOffset + pixels / 4])
  }

  predicate ChromaAt(img: Image, th: Thresholds, x: nat, y: nat)
    requires img.WellFormed()
  {
    x < img.cols && y < img.rows && ChromaIn(th, GetPixel(img, x, y).1, GetPixel(img, x, y).2)
  }

  /** The pixels that count: within the thresholds, and on odd columns only if the chroma of the
      next column is within them too (line 168). */
  predicate InMask(img: Image, th: Thresholds, x: nat, y: nat)
    requires img.WellFormed()
  {
    GetPixel(img, x, y).0 >= th.yLow && ChromaAt(img, th, x, y) && (x % 2 == 1 ==> ChromaAt(img, th, x + 1, y))
  }

  /** The pixels the header promises: within the thresholds (detect_color_blobs.h, lines 194-196). */
  predicate InDocumentedMask(img: Image, th: Thresholds, x: nat, y: nat)
    requires img.WellFormed()
  {
    GetPixel(img, x, y).0 >= th.yLow && ChromaAt(img, th, x, y)
  }

  ghost function Mask(img: Image, th: Thresholds): set<Pixel>
    requires img.WellFormed()
  {
    set x, y | 0 <= x < img.cols && 0 <= y < img.rows && InMask(img, th, x, y) :: Pixel(x, y)
  }

  lemma MaskHas(img: Image, th: Thresholds, x: int, y: int)
    requires img.WellFormed()
    ensures Pixel(x, y) in Mask(img, th) <==> 0 <= x < img.cols && 0 <= y < img.rows && InMask(img, th, x, y)
  {
  }

  /** A pixel takes its values from the three planes that follow one another, Y, U and V; four pixels
      share one U and one V value. */
  lemma PixelOfPlanes(cols: nat, rows: nat, ys: seq<byte>, us: seq<byte>, vs: seq<byte>, x: nat, y: nat)
    requires cols % 2 == 0 && rows % 2 == 0 && x < cols && y < rows
    requires |ys| == cols * rows && |us| == |vs| == cols * rows / 4
    ensures Image(cols, rows, ys + us + vs).WellFormed()
    ensures 0 <= y * cols + x < |ys| && 0 <= (y / 2) * (cols / 2) + x / 2 < |us|
    ensures GetPixel(Image(cols, rows, ys + us + vs), x, y)
            == (ys[y * cols + x], us[(y / 2) * (cols / 2) + x / 2], vs[(y / 2) * (cols / 2) + x / 2])
  {
    PlaneBounds(cols, rows, x, y);
    Products(y, cols);
    Products(y / 2, cols / 2);
    var at, chroma := y * cols + x, (y / 2) * (cols / 2) + x / 2;
    var all := ys + us + vs;
    assert all[at] == ys[at] && all[|ys| + chroma] == us[chroma] && all[|ys| + |us| + chroma] == vs[chroma];
  }

  /** A pixel counts if and only if its Y is at least y_low and its U and V lie between their bounds,
      and, on an odd column, there is a next column and the U and V there lie between the bounds too. */
  lemma MaskByComparisons(img: Image, th: Thresholds, x: nat, y: nat)
    requires img.WellFormed() && x < img.cols && y < img.rows
    ensures var (luma, u, v) := GetPixel(img, x, y);
            var (_, nextU, nextV) := GetPixel(img, x + 1, y);
            Pixel(x, y) in Mask(img, th) <==>
              && th.yLow <= luma && th.uLow <= u <= th.uHigh && th.vLow <= v <= th.vHigh
              && (x % 2 == 1 ==>
                    x + 1 < img.cols && th.uLow <= nextU <= th.uHigh && th.vLow <= nextV <= th.vHigh)
  {
    MaskHas(img, th, x, y);
    hide GetPixel;
  }

  // ----- One row -----

  /** The chroma tests of row pair h. */
  ghost function ChromaSeq(img: Image, th: Thresholds, h: nat): (c: seq<bool>)
    requires img.WellFormed() && h < img.rows / 2
    ensures |c| == img.cols / 2
  {
    seq(img.cols / 2, j requires 0 <= j < img.cols / 2 => ChromaAt(img, th, 2 * j, 2 * h))
  }

  ghost function LumaRow(img: Image, y: nat): (l: seq<byte>)
    requires img.WellFormed() && y < img.rows
    ensures |l| == img.cols
  {
    seq(img.cols, x requires 0 <= x < img.cols => GetPixel(img, x, y).0)
  }

  /** Both columns and both rows of a 2 by 2 block share their chroma. */
  lemma ChromaShared(img: Image, th: Thresholds, x: nat, y: nat)
    requires img.WellFormed() && x < img.cols && y < img.rows
    ensures ChromaAt(img, th, x, y) == ChromaAt(img, th, 2 * (x / 2), 2 * (y / 2))
    ensures y / 2 < img.rows / 2 && x / 2 < img.cols / 2
    ensures ChromaSeq(img, th, y / 2)[x / 2] == ChromaAt(img, th, x, y)
  {
  }

  /** The row mask of the scan is the mask stated pixel by pixel. */
  lemma RowMaskIsMask(img: Image, th: Thresholds, x: nat, y: nat)
    requires img.WellFormed() && x < img.cols && y < img.rows
    ensures y / 2 < img.rows / 2
    ensures RowMask(UvMask(ChromaSeq(img, th, y / 2)), LumaRow(img, y), th.yLow)[x] <==> InMask(img, th, x, y)
  {
    ChromaShared(img, th, x, y);
    if x % 2 == 1 && x + 1 < img.cols {
      ChromaShared(img, th, x + 1, y);
      assert (x + 1) / 2 == x / 2 + 1;
    }
    assert UvMask(ChromaSeq(img, th, y / 2))[x] == UvColumn(ChromaSeq(img, th, y / 2), x);
  }

  /** Where the chroma of block j of row pair h is. */
  lemma ChromaBytes(img: Image, th: Thresholds, h: nat, j: nat)
    requires img.WellFormed() && h < img.rows / 2 && j < img.cols / 2
    ensures var pixels := img.cols * img.rows;
            var at := pixels + h * (img.cols / 2) + j;
            pixels <= at <= at + pixels / 4 < |img.yuv| &&
            ChromaAt(img, th, 2 * j, 2 * h) == ChromaIn(th, img.yuv[at], img.yuv[at + pixels / 4])
  {
    PlaneBounds(img.cols, img.rows, 2 * j, 2 * h);
    assert (2 * h) / 2 == h && (2 * j) / 2 == j;
    Products(h, img.cols / 2);
    Products(img.cols, img.rows);
  }

  lemma Products(a: nat, b: nat)
    ensures a * b >= 0
  {
  }

  /** The bytes at the chroma offset of row pair h are its chroma tests. */
  lemma ChromaRowHolds(img: Image, th: Thresholds, h: nat, yuv: seq<byte>)
    requires img.WellFormed() && h < img.rows / 2 && |yuv| == |img.yuv|
    requires forall k :: img.cols * img.rows <= k < |yuv| ==> yuv[k] == img.yuv[k]
    ensures ChromaRow(ChromaSeq(img, th, h), yuv, img.cols * img.rows + h * (img.cols / 2), img.cols * img.rows, th)
  {
    hide ChromaAt, ChromaIn;
    var pixels, c := img.cols * img.rows, ChromaSeq(img, th, h);
    var base := pixels + h * (img.cols / 2);
    ChromaRowFits(img, h);
    forall j | 0 <= j < |c|
      ensures base + j < |yuv| && base + pixels / 4 + j < |yuv|
      ensures c[j] == ChromaIn(th, yuv[base + j], yuv[base + pixels / 4 + j])
    {
      ChromaBytes(img, th, h, j);
    }
  }

  lemma ChromaRowFits(img: Image, h: nat)
    requires img.WellFormed() && h < img.rows / 2
    ensures var pixels := img.cols * img.rows;
            0 <= pixels + h * (img.cols / 2) && pixels + h * (img.cols / 2) + pixels / 4 + img.cols / 2 <= |img.yuv|
  {
    Products(h, img.cols / 2);
    Products(img.cols, img.rows);
    if img.cols > 0 {
      PlaneBounds(img.cols, img.rows, 0, 2 * h);
      assert (2 * h) / 2 == h;
    } else {
      assert img.cols / 2 == 0 && h * 0 == 0;
    }
  }

  lemma LumaRowHolds(img: Image, y: nat, yuv: seq<byte>)
    requires img.WellFormed() && y < img.rows && |yuv| == |img.yuv|
    requires forall k :: y * img.cols <= k < |yuv| ==> yuv[k] == img.yuv[k]
    ensures y * img.cols + img.cols <= img.cols * img.rows <= |yuv|
    ensures yuv[y * img.cols..y * img.cols + img.cols] == LumaRow(img, y)
  {
    if img.cols > 0 { PlaneBounds(img.cols, img.rows, 0, y); }
  }

  ghost function RunsAt(rs: seq<Interval>, y: int): (runs: seq<Run>)
    ensures |runs| == |rs|
  {
    seq(|rs|, k requires 0 <= k < |rs| => Run(y, rs[k].low, rs[k].high))
  }

  /** The list holds exactly the maximal runs of row y. */
  ghost predicate RowRunsAre(mask: set<Pixel>, runs: seq<Run>, y: int) {
    Separated(runs, y) && (forall k :: 0 <= k < |runs| ==> IsRun(mask, runs[k])) &&
    forall r :: IsRun(mask, r) && r.row == y ==> r in runs
  }

  /** m is row y of the mask. */
  ghost predicate IsRowOf(mask: set<Pixel>, m: seq<bool>, y: int) {
    forall x :: Pixel(x, y) in mask <==> 0 <= x < |m| && m[x]
  }

  lemma CoveredRunIsRun(mask: set<Pixel>, rs: seq<Interval>, m: seq<bool>, y: int, k: nat)
    requires Covers(rs, m, |m|) && IsRowOf(mask, m, y) && k < |rs|
    ensures IsRun(mask, Run(y, rs[k].low, rs[k].high))
  {
  }

  lemma MaximalRunIsCovered(mask: set<Pixel>, rs: seq<Interval>, m: seq<bool>, y: int, r: Run)
    requires Covers(rs, m, |m|) && IsRowOf(mask, m, y) && IsRun(mask, r) && r.row == y
    ensures r in RunsAt(rs, y)
  {
    assert Pixel(r.low, y) in mask;
    assert InSome(rs, r.low);
    var k :| 0 <= k < |rs| && rs[k].low <= r.low < rs[k].high;
    CoveredRunIsRun(mask, rs, m, y, k);
    RunsAreDisjoint(mask, r, Run(y, rs[k].low, rs[k].high), Pixel(r.low, y));
    assert RunsAt(rs, y)[k] == r;
  }

  lemma CoveredRowRuns(mask: set<Pixel>, rs: seq<Interval>, m: seq<bool>, y: int)
    requires Covers(rs, m, |m|) && IsRowOf(mask, m, y)
    ensures RowRunsAre(mask, RunsAt(rs, y), y)
  {
    forall k | 0 <= k < |rs|
      ensures IsRun(mask, RunsAt(rs, y)[k])
    {
      CoveredRunIsRun(mask, rs, m, y, k);
    }
    forall r | IsRun(mask, r) && r.row == y
      ensures r in RunsAt(rs, y)
    {
      MaximalRunIsCovered(mask, rs, m, y, r);
    }
  }

  lemma MaskRow(img: Image, th: Thresholds, y: nat, m: seq<bool>)
    requires img.WellFormed() && y < img.rows && y / 2 < img.rows / 2
    requires m == RowMask(UvMask(ChromaSeq(img, th, y / 2)), LumaRow(img, y), th.yLow)
    ensures |m| == img.cols && IsRowOf(Mask(img, th), m, y)
  {
    hide RowMask, UvMask, ChromaSeq, LumaRow, InMask;
    forall x
      ensures Pixel(x, y) in Mask(img, th) <==> 0 <= x < |m| && m[x]
    {
      MaskHas(img, th, x, y);
      if 0 <= x < |m| { RowMaskIsMask(img, th, x, y); }
    }
  }

  lemma FreshList(rs: seq<Interval>, ys: seq<YuvRun>, y: int, cls: seq<set<Run>>)
    requires YuvTracked(ys, rs) && forall q :: q in AllRuns(cls) ==> q.row < y
    ensures ListTracked(cls, ys, RunsAt(rs, y))
  {
  }

  /** A row just scanned: its list holds the maximal runs, none of them accounted for. */
  lemma FreshRow(img: Image, th: Thresholds, y: nat, rs: seq<Interval>, ys: seq<YuvRun>, cls: seq<set<Run>>)
    requires img.WellFormed() && y < img.rows && y / 2 < img.rows / 2
    requires Covers(rs, RowMask(UvMask(ChromaSeq(img, th, y / 2)), LumaRow(img, y), th.yLow), img.cols)
    requires YuvTracked(ys, rs) && forall q :: q in AllRuns(cls) ==> q.row < y
    ensures RowRunsAre(Mask(img, th), RunsAt(rs, y), y) && ListTracked(cls, ys, RunsAt(rs, y))
    ensures 2 * |rs| <= img.cols
  {
    hide Covers, RowMask, UvMask, ChromaSeq, LumaRow, Mask, YuvTracked, ListTracked, RowRunsAre;
    var m := RowMask(UvMask(ChromaSeq(img, th, y / 2)), LumaRow(img, y), th.yLow);
    MaskRow(img, th, y, m);
    CoveredRowRuns(Mask(img, th), rs, m, y);
    CoversAtMostHalf(rs, m, img.cols);
    FreshList(rs, ys, y, cls);
  }

  // ----- Highlighting -----

  /** Detected pixels are doubled up to 255, others halved. */
  function Shade(on: bool, y: byte): byte {
    if on then (if 2 * y > 255 then 255 else 2 * y) else y / 2
  }

  /** A detected pixel is never darkened and becomes as bright as a byte can be up to twice its luma; any
      other is never brightened and keeps half of its luma, rounded down. */
  lemma ShadeContrast(y: byte, b: byte)
    ensures y <= Shade(true, y) <= 2 * y && (b <= 2 * y ==> b <= Shade(true, y))
    ensures 2 * Shade(false, y) <= y <= 2 * Shade(false, y) + 1 && Shade(false, y) <= y
    ensures Shade(true, 0) == 0 && Shade(true, 127) == 254 && Shade(true, 128) == Shade(true, 255) == 255
    ensures Shade(false, 0) == 0 && Shade(false, 127) == 63 && Shade(false, 128) == 64 && Shade(false, 255) == 127
  {
  }

  /** Columns from up to to of the row at base shaded as given, the rest of yuv as before. */
  method ShadeColumns(yuv: array<byte>, base: nat, from: nat, to: nat, on: bool)
    requires from <= to && base + to <= yuv.Length
    modifies yuv
    ensures forall k :: 0 <= k < yuv.Length ==>
              yuv[k] == if base + from <= k < base + to then Shade(on, old(yuv[k])) else old(yuv[k])
  {
    var kk := from;
    while kk < to
      invariant from <= kk <= to
      invariant forall k :: 0 <= k < yuv.Length ==>
                  yuv[k] == if base + from <= k < base + kk then Shade(on, old(yuv[k])) else old(yuv[k])
    {
      yuv[base + kk] := Shade(on, yuv[base + kk]);
      kk := kk + 1;
    }
  }

  /** The row after highlighting its first n columns. */
  ghost predicate ShadedTo(yuv: seq<byte>, before: seq<byte>, base: nat, m: seq<bool>, n: nat) {
    n <= |m| && base + |m| <= |yuv| == |before| &&
    forall k :: 0 <= k < |yuv| ==>
      yuv[k] == if base <= k < base + n then Shade(m[k - base], before[k]) else before[k]
  }

  lemma ShadedMore(a: seq<byte>, b: seq<byte>, before: seq<byte>, base: nat, m: seq<bool>, n: nat, more: nat, on: bool)
    requires ShadedTo(a, before, base, m, n) && n <= more <= |m| && |b| == |a|
    requires forall x :: n <= x < more ==> m[x] == on
    requires forall k :: 0 <= k < |a| ==> b[k] == if base + n <= k < base + more then Shade(on, a[k]) else a[k]
    ensures ShadedTo(b, before, base, m, more)
  {
  }

  /** The gap before run k is off, the run is on. */
  lemma RunsAlternate(rs: seq<Interval>, m: seq<bool>, k: nat)
    requires Covers(rs, m, |m|) && k <= |rs|
    ensures k < |rs| ==> rs[k].low < rs[k].high <= |m| && forall x :: rs[k].low <= x < rs[k].high ==> m[x]
    ensures var start := if k == 0 then 0 else rs[k - 1].high;
            var end := if k == |rs| then |m| else rs[k].low;
            start <= end && forall x :: start <= x < end ==> !m[x]
  {
  }

  /** The optional marking of detected pixels: the row of the mask m becomes its shaded image. */
  method HighlightRow(yuv: array<byte>, base: nat, cols: nat, count: nat, yuvRun: array<YuvRun>,
                      ghost rs: seq<Interval>, ghost m: seq<bool>)
    requires |m| == cols && base + cols <= yuv.Length && count <= yuvRun.Length
    requires Covers(rs, m, cols) && YuvTracked(yuvRun[..count], rs)
    modifies yuv
    ensures ShadedTo(yuv[..], old(yuv[..]), base, m, cols)
  {
    hide Covers, ShadedTo;
    ghost var before := yuv[..];
    var jj, kk: nat := 0, 0;
    assert ShadedTo(before, before, base, m, 0) by { NothingShaded(before, base, m); }
    while jj < count
      invariant jj <= count && kk == if jj == 0 then 0 else rs[jj - 1].high
      invariant ShadedTo(yuv[..], before, base, m, kk) && kk <= cols
    {
      RunsAlternate(rs, m, jj);
      assert yuvRun[..count][jj] == yuvRun[jj];
      ghost var a := yuv[..];
      ShadeColumns(yuv, base, kk, yuvRun[jj].low, false);
      ShadedMore(a, yuv[..], before, base, m, kk, rs[jj].low, false);
      a := yuv[..];
      ShadeColumns(yuv, base, yuvRun[jj].low, yuvRun[jj].high, true);
      ShadedMore(a, yuv[..], before, base, m, rs[jj].low, rs[jj].high, true);
      kk := yuvRun[jj].high;
      jj := jj + 1;
    }
    RunsAlternate(rs, m, count);
    ghost var a := yuv[..];
    ShadeColumns(yuv, base, kk, cols, false);
    ShadedMore(a, yuv[..], before, base, m, kk, cols, false);
  }

  lemma NothingShaded(yuv: seq<byte>, base: nat, m: seq<bool>)
    requires base + |m| <= |yuv|
    ensures ShadedTo(yuv, yuv, base, m, 0)
  {
  }

  // ----- The rows swept so far -----

  /** The unions asked for are exactly the edges of the mask above row n. */
  ghost predicate Swept(mask: set<Pixel>, asked: set<Edge>, n: int) {
    forall e :: e in asked <==> IsEdge(mask, e) && e.1.row < n
  }

  /** The calls of the sweep over rows n - 1 and n. */
  ghost predicate CallsExact(calls: seq<(nat, nat)>, ra: seq<Run>, rb: seq<Run>) {
    forall i: nat, j: nat :: (i, j) in calls <==> i < |ra| && j < |rb| && Overlaps(ra[i], rb[j])
  }

  ghost predicate PrevRow(mask: set<Pixel>, ra: seq<Run>, n: int) {
    if n == 0 then ra == [] else RowRunsAre(mask, ra, n - 1)
  }

  lemma AskedAreEdges(mask: set<Pixel>, calls: seq<(nat, nat)>, ra: seq<Run>, rb: seq<Run>, n: int, e: Edge)
    requires PrevRow(mask, ra, n) && RowRunsAre(mask, rb, n) && CallsExact(calls, ra, rb)
    requires e in EdgesOf(calls, ra, rb)
    ensures IsEdge(mask, e) && e.1.row == n
  {
  }

  lemma EdgesAreAsked(mask: set<Pixel>, calls: seq<(nat, nat)>, ra: seq<Run>, rb: seq<Run>, n: int, e: Edge)
    requires PrevRow(mask, ra, n) && RowRunsAre(mask, rb, n) && CallsExact(calls, ra, rb)
    requires (forall p :: p in mask ==> 0 <= p.y) && IsEdge(mask, e) && e.1.row == n
    ensures e in EdgesOf(calls, ra, rb)
  {
    assert Pixel(e.0.low, e.0.row) in mask;
    assert e.0 in ra && e.1 in rb;
    var i: nat :| i < |ra| && ra[i] == e.0;
    var j: nat :| j < |rb| && rb[j] == e.1;
    assert (i, j) in calls;
    var k :| 0 <= k < |calls| && calls[k] == (i, j);
    assert calls[k].0 == i && calls[k].1 == j;
  }

  lemma SweptMore(mask: set<Pixel>, before: set<Edge>, calls: seq<(nat, nat)>, ra: seq<Run>, rb: seq<Run>, n: int)
    requires Swept(mask, before, n) && forall p :: p in mask ==> 0 <= p.y
    requires PrevRow(mask, ra, n) && RowRunsAre(mask, rb, n) && CallsExact(calls, ra, rb)
    ensures Swept(mask, before + EdgesOf(calls, ra, rb), n + 1)
  {
    hide EdgesOf, PrevRow, RowRunsAre, CallsExact, IsEdge;
    var after := before + EdgesOf(calls, ra, rb);
    forall e
      ensures e in after <==> IsEdge(mask, e) && e.1.row < n + 1
    {
      if e in after && e !in before { AskedAreEdges(mask, calls, ra, rb, n, e); }
      if IsEdge(mask, e) && e.1.row == n { EdgesAreAsked(mask, calls, ra, rb, n, e); }
    }
  }

  // ----- What the finished list reports -----

  /** Entry k of root_info describes the contiguous set of pixels blobs[k], which spans at least two
      rows, and no pixel is in two of these sets. */
  ghost predicate PartialReport(roots: seq<RootInfo>, blobs: seq<set<Pixel>>, mask: set<Pixel>) {
    && |blobs| == |roots|
    && (forall k :: 0 <= k < |blobs| ==>
          Contiguous(mask, blobs[k]) && SpansTwoRows(blobs[k]) && Reports(roots[k].stats, blobs[k]))
    && (forall k, l :: 0 <= k < l < |blobs| ==> blobs[k] !! blobs[l])
  }

  /** The sets are components of the mask, and every component of at least two rows is one of them. */
  ghost predicate CompleteReport(blobs: seq<set<Pixel>>, mask: set<Pixel>) {
    && (forall k :: 0 <= k < |blobs| ==> IsComponent(mask, blobs[k]))
    && (forall c :: IsComponent(mask, c) && SpansTwoRows(c) ==> c in blobs)
  }

  /** max_y is the bottom row exactly for those blobs whose bottom row has a run that no late run
      overwrites. */
  ghost predicate BottomReport(roots: seq<RootInfo>, blobs: seq<set<Pixel>>, mask: set<Pixel>) {
    |blobs| == |roots| &&
    forall k :: 0 <= k < |blobs| ==>
      (IsGreatest(Y, blobs[k], roots[k].stats.maxY) <==> BottomRecorded(mask, blobs[k]))
  }

  /** Whatever was refused: max_y is the bottom row exactly for those entries whose bottom row has a run
      not overwritten by the unions h carried out. */
  ghost predicate UnionReport(s: Snap, h: seq<Edge>, blobs: seq<set<Pixel>>)
    requires Sound(s)
  {
    |blobs| == |s.roots| &&
    forall k :: 0 <= k < |blobs| ==>
      (IsGreatest(Y, blobs[k], s.roots[k].stats.maxY) <==> Recorded(h, EntryRuns(s, k)))
  }

  /** The pixels behind every entry of root_info. */
  ghost function BlobPixels(s: Snap): (blobs: seq<set<Pixel>>)
    requires Sound(s)
    ensures |blobs| == |s.roots|
  {
    seq(|s.roots|, k requires 0 <= k < |s.roots| => PixelsOf(EntryRuns(s, k)))
  }

  lemma DisjointBlocksDisjointPixels(mask: set<Pixel>, a: set<Run>, b: set<Run>)
    requires a !! b && (forall r :: r in a ==> IsRun(mask, r)) && (forall r :: r in b ==> IsRun(mask, r))
    ensures PixelsOf(a) !! PixelsOf(b)
  {
  }

  /** Whatever was refused, every entry is right about a contiguous part of the mask. */
  lemma GoodReports(s: Snap, edges: set<Edge>, mask: set<Pixel>)
    requires Good(s, edges) && forall e :: e in edges ==> IsEdge(mask, e)
    ensures PartialReport(s.roots, BlobPixels(s), mask)
  {
    hide Sound, Generated, IsEdge, IsRun, Reports, Contiguous, SpansTwoRows, Describes, PixelsOf;
    GoodSizes(s, edges);
    var blobs := BlobPixels(s);
    forall k | 0 <= k < |blobs|
      ensures Contiguous(mask, blobs[k]) && SpansTwoRows(blobs[k]) && Reports(s.roots[k].stats, blobs[k])
      ensures forall r :: r in EntryRuns(s, k) ==> IsRun(mask, r)
    {
      var b := EntryRuns(s, k);
      BlockIsContiguous(mask, edges, Blocks(s), b);
      BlockSpansTwoRows(mask, edges, Blocks(s), b);
      forall r | r in b
        ensures IsRun(mask, r)
      {
        BlockIsOfRuns(mask, edges, Blocks(s), b, r);
      }
      DescribesReports(mask, s.roots[k].stats, b);
    }
    forall k, l | 0 <= k < l < |blobs|
      ensures blobs[k] !! blobs[l]
    {
      EntriesDiffer(s, k, l);
      DisjointBlocksDisjointPixels(mask, EntryRuns(s, k), EntryRuns(s, l));
    }
  }

  /** Whatever was refused, max_y is the bottom row exactly if some run there was not overwritten by the
      unions carried out. */
  lemma BottomByUnions(s: Snap, h: seq<Edge>, mask: set<Pixel>, k: nat)
    requires Good(s, EdgeSet(h)) && BottomsRecorded(s, h) && k < |s.roots|
    requires forall e :: e in h ==> IsEdge(mask, e)
    ensures IsGreatest(Y, BlobPixels(s)[k], s.roots[k].stats.maxY) <==> Recorded(h, EntryRuns(s, k))
    ensures forall r :: r in EntryRuns(s, k) ==> IsRun(mask, r)
  {
    GoodSizes(s, EdgeSet(h));
    assert EntryBottom(s, h, k);
    hide Sound, Generated, IsEdge, IsRun, BottomsRecorded, PixelsOf, Economical, IsGreatest, Recorded;
    forall r | r in EntryRuns(s, k)
      ensures IsRun(mask, r) && r.low < r.high
    {
      BlockIsOfRuns(mask, EdgeSet(h), Blocks(s), EntryRuns(s, k), r);
      RunIsNonempty(mask, r);
    }
    BottomOfPixels(EntryRuns(s, k), s.roots[k].stats.maxY);
  }

  lemma BottomsByUnions(s: Snap, h: seq<Edge>, mask: set<Pixel>)
    requires Good(s, EdgeSet(h)) && BottomsRecorded(s, h) && forall e :: e in h ==> IsEdge(mask, e)
    ensures Sound(s) && UnionReport(s, h, BlobPixels(s))
  {
    hide Good, BottomsRecorded, IsEdge, Recorded, IsGreatest;
    GoodIsSound(s, EdgeSet(h));
    forall k | 0 <= k < |s.roots|
      ensures IsGreatest(Y, BlobPixels(s)[k], s.roots[k].stats.maxY) <==> Recorded(h, EntryRuns(s, k))
    {
      BottomByUnions(s, h, mask, k);
    }
  }

  /** With all unions carried out this is the condition on the mask. */
  lemma BottomsReported(s: Snap, h: seq<Edge>, mask: set<Pixel>)
    requires Good(s, EdgeSet(h)) && BottomsRecorded(s, h) && IsPass(mask, h)
    ensures BottomReport(s.roots, BlobPixels(s), mask)
  {
    forall e | e in h
      ensures IsEdge(mask, e)
    {
      assert e in EdgeSet(h);
      MaskEdgesHas(mask, e);
    }
    hide Good, BottomsRecorded, IsPass, IsEdge, IsRun, BottomRecorded, Recorded, IsGreatest;
    GoodIsSound(s, EdgeSet(h));
    forall k | 0 <= k < |s.roots|
      ensures IsGreatest(Y, BlobPixels(s)[k], s.roots[k].stats.maxY) <==> BottomRecorded(mask, BlobPixels(s)[k])
    {
      BottomByUnions(s, h, mask, k);
      RecordedIff(mask, h, EntryRuns(s, k));
    }
  }

  /** A mask without late runs: every max_y is the bottom row. */
  lemma WithoutLateRunsExact(roots: seq<RootInfo>, blobs: seq<set<Pixel>>, mask: set<Pixel>, cols: int)
    requires PartialReport(roots, blobs, mask) && CompleteReport(blobs, mask) && BottomReport(roots, blobs, mask)
    requires (forall q :: q in mask ==> 0 <= q.x < cols) && forall e :: !LateRun(mask, e)
    ensures forall k :: 0 <= k < |blobs| ==> IsGreatest(Y, blobs[k], roots[k].stats.maxY)
  {
    hide IsComponent, BottomRecorded, LateRun, IsGreatest, Contiguous, SpansTwoRows;
    forall k | 0 <= k < |blobs|
      ensures IsGreatest(Y, blobs[k], roots[k].stats.maxY)
    {
      var maxY: int := roots[k].stats.maxY;
      assert Reports(roots[k].stats, blobs[k]) && IsComponent(mask, blobs[k]);
      NoLateRunRecorded(mask, cols, blobs[k], if IsGreatest(Y, blobs[k], maxY) then maxY else maxY + 1);
    }
  }

  lemma GoodIsSound(s: Snap, edges: set<Edge>)
    requires Good(s, edges)
    ensures Sound(s)
  {
  }

  lemma RunIsNonempty(mask: set<Pixel>, r: Run)
    requires IsRun(mask, r)
    ensures r.low < r.high
  {
  }

  /** If all unions were carried out, the entries are the components of at least two rows. */
  lemma GoodReportsAll(s: Snap, edges: set<Edge>, mask: set<Pixel>, cols: int)
    requires Good(s, edges) && AllEdges(mask, edges) && forall q :: q in mask ==> 0 <= q.x < cols
    ensures CompleteReport(BlobPixels(s), mask)
  {
    hide Sound, Generated, AllEdges, IsComponent, SpansTwoRows, PixelsOf, Economical;
    GoodSizes(s, edges);
    var blobs := BlobPixels(s);
    forall k | 0 <= k < |blobs|
      ensures IsComponent(mask, blobs[k])
    {
      BlockIsComponent(mask, cols, edges, Blocks(s), EntryRuns(s, k));
    }
    forall c | IsComponent(mask, c) && SpansTwoRows(c)
      ensures c in blobs
    {
      var b := TallComponentIsBlock(mask, cols, edges, Blocks(s), c);
      var k := BlockHasEntry(s, b);
      assert blobs[k] == c;
    }
  }

  // ----- Lost runs -----

  /** A pixel whose component reaches another row. */
  ghost predicate InTallComponent(mask: set<Pixel>, p: Pixel) {
    exists q :: Linked(mask, p, q) && q.y != p.y
  }

  lemma LinkedElsewhereInMask(mask: set<Pixel>, p: Pixel, q: Pixel)
    requires Linked(mask, p, q) && p != q && p in mask
    ensures q in mask
  {
    if q !in mask {
      ClosedHoldsReachable(MaskAdj(mask), mask, p, q);
    }
  }

  /** A pixel and all it is linked to form a component. */
  lemma ComponentOf(mask: set<Pixel>, p: Pixel) returns (c: set<Pixel>)
    requires p in mask
    ensures IsComponent(mask, c) && p in c && forall q :: q in c <==> q in mask && Linked(mask, p, q)
  {
    c := set q | q in mask && Linked(mask, p, q);
    ReachesSelf(MaskAdj(mask), p);
    assert p in c;
    forall a, b | a in c
      ensures b in c <==> b in mask && Linked(mask, a, b)
    {
      LinkedSym(mask, p, a);
      if b in c { LinkedTrans(mask, a, p, b); }
      if b in mask && Linked(mask, a, b) { LinkedTrans(mask, p, a, b); }
    }
  }

  lemma TallMeansReported(blobs: seq<set<Pixel>>, mask: set<Pixel>, p: Pixel)
    requires CompleteReport(blobs, mask) && p in mask && InTallComponent(mask, p)
    ensures exists k :: 0 <= k < |blobs| && p in blobs[k]
  {
    var q :| Linked(mask, p, q) && q.y != p.y;
    var c := ComponentOf(mask, p);
    LinkedElsewhereInMask(mask, p, q);
    assert p in c && q in c;
    assert SpansTwoRows(c);
    var k :| 0 <= k < |blobs| && blobs[k] == c;
  }

  /** A run in no union has no pixel in any blob. */
  lemma UntouchedIsUnreported(s: Snap, edges: set<Edge>, mask: set<Pixel>, e: Edge, k: nat, p: Pixel)
    requires Good(s, edges) && (forall d :: d in edges ==> IsEdge(mask, d)) && k < |s.roots|
    requires IsEdge(mask, e) && !Touches(edges, e.0) && InRun(p, e.0)
    ensures p !in BlobPixels(s)[k]
  {
    GoodSizes(s, edges);
    hide Sound, Generated, IsRun, PixelsOf, Economical;
    if p in BlobPixels(s)[k] {
      var r := RunOfPixel(EntryRuns(s, k), p);
      BlockIsOfRuns(mask, edges, Blocks(s), EntryRuns(s, k), r);
      RunsAreDisjoint(mask, r, e.0, p);
      var i := EntryNode(s, k);
      Accounted(s.cls, i, r);
      AccountedIffTouched(s, edges, r);
    }
  }

  /** A report that misses the upper run of an edge is not complete. */
  lemma MissingRunIncomplete(blobs: seq<set<Pixel>>, mask: set<Pixel>, e: Edge)
    requires IsEdge(mask, e) && forall k :: 0 <= k < |blobs| ==> Pixel(e.0.low, e.0.row) !in blobs[k]
    ensures !CompleteReport(blobs, mask)
  {
    var p, q := Pixel(e.0.low, e.0.row), Pixel(e.1.low, e.1.row);
    EdgeIsLinked(mask, e.0, e.1, p, q);
    assert InTallComponent(mask, p);
    if CompleteReport(blobs, mask) { TallMeansReported(blobs, mask, p); }
  }

  /** A pass over a crowded mask loses a run: the report is not complete. */
  lemma CrowdedIsIncomplete(s: Snap, asked: seq<Edge>, mask: set<Pixel>, sets: int, places: int) returns (e: Edge)
    requires IsPass(mask, asked) && Good(s, EdgeSet(Carried(asked, sets, places))) && CrowdedMask(mask, sets, places)
    ensures IsEdge(mask, e) && Sound(s) && !CompleteReport(BlobPixels(s), mask)
    ensures forall k, p :: 0 <= k < |s.roots| && InRun(p, e.0) ==> p !in BlobPixels(s)[k]
  {
    hide IsPass, Good, CompleteReport, CrowdedMask, Touches, Carried, BlobPixels, IsEdge;
    e := CrowdedLosesRun(mask, asked, sets, places);
    var edges := EdgeSet(Carried(asked, sets, places));
    GoodIsSound(s, edges);
    CarriedAreEdges(mask, asked, sets, places);
    forall k, p | 0 <= k < |s.roots| && InRun(p, e.0)
      ensures p !in BlobPixels(s)[k]
    {
      UntouchedIsUnreported(s, edges, mask, e, k, p);
    }
    RunStartsInside(mask, e);
    MissingRunIncomplete(BlobPixels(s), mask, e);
  }

  lemma RunStartsInside(mask: set<Pixel>, e: Edge)
    requires IsEdge(mask, e)
    ensures InRun(Pixel(e.0.low, e.0.row), e.0)
  {
  }

  lemma CarriedAreEdges(mask: set<Pixel>, asked: seq<Edge>, sets: int, places: int)
    requires IsPass(mask, asked)
    ensures forall e :: e in EdgeSet(Carried(asked, sets, places)) ==> IsEdge(mask, e)
  {
    CarriedAreAsked(asked, sets, places);
    forall e | e in EdgeSet(Carried(asked, sets, places))
      ensures IsEdge(mask, e)
    {
      assert e in EdgeSet(asked);
      MaskEdgesHas(mask, e);
    }
  }

  // ----- The image during the pass -----

  /** The image after n rows: as given, except that the rows done are shaded when asked for. */
  ghost predicate ImageAt(now: seq<byte>, img: Image, th: Thresholds, highlight: bool, n: nat)
    requires img.WellFormed()
  {
    |now| == |img.yuv| && forall k :: 0 <= k < |now| ==> now[k] == PixelAt(img, th, highlight, n, k)
  }

  ghost function PixelAt(img: Image, th: Thresholds, highlight: bool, n: nat, k: nat): byte
    requires img.WellFormed() && k < |img.yuv|
  {
    if highlight && img.cols > 0 && k < n * img.cols then
      Shade(InMask(img, th, ColumnOf(k, img.cols), RowOf(k, img.cols)), img.yuv[k])
    else img.yuv[k]
  }

  function ColumnOf(k: nat, cols: nat): nat
    requires cols > 0
  {
    k % cols
  }

  function RowOf(k: nat, cols: nat): nat
    requires cols > 0
  {
    k / cols
  }

  lemma DivModRow(n: nat, cols: nat, x: nat)
    requires x < cols
    ensures n * cols + x >= 0 && RowOf(n * cols + x, cols) == n && ColumnOf(n * cols + x, cols) == x
  {
    DivModUnique(n * cols + x, cols, n, x);
  }

  lemma RowIsShaded(now: seq<byte>, before: seq<byte>, img: Image, th: Thresholds, n: nat, m: seq<bool>)
    requires img.WellFormed() && n < img.rows && |m| == img.cols && IsRowOf(Mask(img, th), m, n)
    requires ImageAt(before, img, th, true, n) && n * img.cols + img.cols <= |before|
    requires ShadedTo(now, before, n * img.cols, m, img.cols)
    ensures ImageAt(now, img, th, true, n + 1)
  {
    hide InMask, Mask, Shade;
    var base := n * img.cols;
    assert (n + 1) * img.cols == base + img.cols;
    forall k | 0 <= k < |now|
      ensures now[k] == PixelAt(img, th, true, n + 1, k)
    {
      assert before[k] == PixelAt(img, th, true, n, k);
      if base <= k < base + img.cols {
        DivModRow(n, img.cols, k - base);
        MaskHas(img, th, k - base, n);
      }
    }
  }

  lemma ImageBelow(now: seq<byte>, img: Image, th: Thresholds, highlight: bool, n: nat)
    requires img.WellFormed() && ImageAt(now, img, th, highlight, n) && n < img.rows
    ensures |now| == |img.yuv| && forall k :: n * img.cols <= k < |now| ==> now[k] == img.yuv[k]
    ensures forall k :: img.cols * img.rows <= k < |now| ==> now[k] == img.yuv[k]
  {
    RowFits(n, img.rows, img.cols);
  }

  // ----- The pass -----

  /** The chroma runs held in uv_run are those of row pair h. */
  ghost predicate ChromaRunsOf(img: Image, th: Thresholds, h: nat, uv: seq<UvRun>, us: seq<Interval>)
    requires img.WellFormed()
  {
    h < img.rows / 2 && UvTracked(uv, us) && Covers(us, UvMask(ChromaSeq(img, th, h)), img.cols)
  }

  /** The luma runs held in yuv_run are those of row y. */
  ghost predicate LumaRunsOf(img: Image, th: Thresholds, y: nat, ys: seq<YuvRun>, rs: seq<Interval>)
    requires img.WellFormed()
  {
    y < img.rows && y / 2 < img.rows / 2 && YuvTracked(ys, rs) &&
    Covers(rs, RowMask(UvMask(ChromaSeq(img, th, y / 2)), LumaRow(img, y), th.yLow), img.cols)
  }

  /** Even row: the chroma runs of its row pair. */
  method RenewChroma(cols: nat, rows: nat, th: Thresholds, ii: nat, yuv: array<byte>, uvRun: array<UvRun>,
                     ghost img: Image)
      returns (uvCount: nat, ghost us: seq<Interval>)
    requires img.WellFormed() && img.cols == cols && img.rows == rows && cols % 4 == 0 && cols < 0x1_0000 && ii < rows
    requires uvRun.Length == cols / 4 && yuv.Length == |img.yuv|
    requires forall k :: cols * rows <= k < yuv.Length ==> yuv[k] == img.yuv[k]
    modifies uvRun
    ensures uvCount <= uvRun.Length && ChromaRunsOf(img, th, ii / 2, uvRun[..uvCount], us)
  {
    hide Covers, UvMask, ChromaSeq, UvTracked, ChromaRow;
    var uvOffset := (ii / 2) * (cols / 2);
    var pixels := cols * rows;
    ChromaRowHolds(img, th, ii / 2, yuv[..]);
    uvCount, us := CreateUvRunSequence(cols, rows, yuv, pixels + uvOffset, th, uvRun, ChromaSeq(img, th, ii / 2));
  }

  /** All runs of row ii, from the chroma runs of its row pair. */
  method DetectLuma(cols: nat, th: Thresholds, ii: nat, yuv: array<byte>, uvRun: array<UvRun>, uvCount: nat,
                    yuvRun: array<YuvRun>, ghost img: Image, ghost us: seq<Interval>)
      returns (count: nat, ghost rs: seq<Interval>)
    requires img.WellFormed() && img.cols == cols && cols < 0x1_0000 && ii < img.rows
    requires yuvRun.Length == cols / 2 && yuv.Length == |img.yuv|
    requires forall k :: ii * cols <= k < yuv.Length ==> yuv[k] == img.yuv[k]
    requires uvCount <= uvRun.Length && ChromaRunsOf(img, th, ii / 2, uvRun[..uvCount], us)
    modifies yuvRun
    ensures count <= yuvRun.Length && LumaRunsOf(img, th, ii, yuvRun[..count], rs)
  {
    hide Covers, UvMask, ChromaSeq, LumaRow, RowMask, UvTracked, YuvTracked;
    LumaRowHolds(img, ii, yuv[..]);
    count, rs := DetectYuvRunsInRow(cols, yuv, ii * cols, uvCount, uvRun, th.yLow, yuvRun, us,
                                    UvMask(ChromaSeq(img, th, ii / 2)));
    assert yuv[ii * cols..ii * cols + cols] == LumaRow(img, ii);
  }

  /** The detection of the runs of row ii; the chroma runs are renewed on even rows only. */
  method DetectRow(cols: nat, rows: nat, th: Thresholds, ii: nat, yuv: array<byte>, uvRun: array<UvRun>, uvCount0: nat,
                   yuvRun: array<YuvRun>, ghost img: Image, ghost us0: seq<Interval>, ghost highlight: bool)
      returns (uvCount: nat, ghost us: seq<Interval>, count: nat, ghost rs: seq<Interval>)
    requires img.WellFormed() && img.cols == cols && img.rows == rows && cols % 4 == 0 && cols < 0x1_0000 && ii < rows
    requires uvRun.Length == cols / 4 && yuvRun.Length == cols / 2
    requires ImageAt(yuv[..], img, th, highlight, ii)
    requires uvCount0 <= uvRun.Length && (ii % 2 == 1 ==> ChromaRunsOf(img, th, ii / 2, uvRun[..uvCount0], us0))
    modifies uvRun, yuvRun
    ensures uvCount <= uvRun.Length && ChromaRunsOf(img, th, ii / 2, uvRun[..uvCount], us)
    ensures count <= yuvRun.Length && LumaRunsOf(img, th, ii, yuvRun[..count], rs)
  {
    hide ImageAt, ChromaRunsOf, LumaRunsOf;
    uvCount, us := uvCount0, us0;
    ImageBelow(yuv[..], img, th, highlight, ii);
    if ii % 2 == 0 {
      uvCount, us := RenewChroma(cols, rows, th, ii, yuv, uvRun, img);
    }
    count, rs := DetectLuma(cols, th, ii, yuv, uvRun, uvCount, yuvRun, img, us);
  }

  /** The state of the list of blobs after n rows, ra holding the runs of the last of them and seen
      all runs so far. */
  ghost predicate Pass(mask: set<Pixel>, s: Snap, asked: seq<Edge>, ra: seq<Run>, seen: set<Run>, n: int, width: nat) {
    && Swept(mask, EdgeSet(asked), n) && InOrder(asked) && PrevRow(mask, ra, n)
    && (forall q :: q in AllRuns(s.cls) ==> q.row < n)
    && AllRuns(s.cls) <= seen && (forall r :: r in ra ==> r in seen) && |seen| <= n * width
  }

  ghost function SetOf(rb: seq<Run>): set<Run> { set r | r in rb }

  lemma {:induction false} SetOfSize(rb: seq<Run>)
    ensures |SetOf(rb)| <= |rb|
  {
    if rb != [] {
      SetOfSize(rb[1..]);
      assert SetOf(rb) == SetOf(rb[1..]) + {rb[0]};
    }
  }

  lemma SeenMore(before: set<Run>, after: set<Run>, ra: seq<Run>, rb: seq<Run>, seen: set<Run>, n: nat, width: nat)
    requires before <= seen && (forall r :: r in ra ==> r in seen) && |seen| <= n * width && |rb| <= width
    requires Offered(before, after, ra, rb)
    ensures after <= seen + SetOf(rb) && (forall r :: r in rb ==> r in seen + SetOf(rb))
    ensures |seen + SetOf(rb)| <= (n + 1) * width
  {
    SetOfSize(rb);
    SumSizes(seen, SetOf(rb));
    assert (n + 1) * width == n * width + width;
  }

  lemma SumSizes<T>(s: set<T>, t: set<T>)
    ensures |s + t| <= |s| + |t|
  {
  }

  lemma RowsBelow(after: set<Run>, before: set<Run>, ra: seq<Run>, rb: seq<Run>, mask: set<Pixel>, n: int)
    requires Offered(before, after, ra, rb) && PrevRow(mask, ra, n) && RowRunsAre(mask, rb, n)
    requires forall q :: q in before ==> q.row < n
    ensures forall q :: q in after ==> q.row < n + 1
  {
  }

  lemma PassMore(mask: set<Pixel>, s: Snap, t: Snap, before: seq<Edge>, after: seq<Edge>,
                 ra: seq<Run>, rb: seq<Run>, calls: seq<(nat, nat)>, seen: set<Run>, n: nat, width: nat)
    requires Pass(mask, s, before, ra, seen, n, width)
    requires RowRunsAre(mask, rb, n) && CallsExact(calls, ra, rb) && |rb| <= width
    requires EdgeSet(after) == EdgeSet(before) + EdgesOf(calls, ra, rb) && InOrder(after)
    requires Offered(AllRuns(s.cls), AllRuns(t.cls), ra, rb)
    requires forall p :: p in mask ==> 0 <= p.y
    ensures Pass(mask, t, after, rb, seen + SetOf(rb), n + 1, width)
  {
    SweptMore(mask, EdgeSet(before), calls, ra, rb, n);
    SeenMore(AllRuns(s.cls), AllRuns(t.cls), ra, rb, seen, n, width);
    RowsBelow(AllRuns(t.cls), AllRuns(s.cls), ra, rb, mask, n);
  }

  lemma MaskInside(img: Image, th: Thresholds)
    requires img.WellFormed()
    ensures forall p :: p in Mask(img, th) ==> 0 <= p.x < img.cols && 0 <= p.y < img.rows
  {
  }

  lemma PrevSeparated(mask: set<Pixel>, ra: seq<Run>, n: int)
    requires PrevRow(mask, ra, n)
    ensures Separated(ra, n - 1) && (n == 0 ==> ra == [])
  {
  }

  lemma PassRows(mask: set<Pixel>, s: Snap, asked: seq<Edge>, ra: seq<Run>, seen: set<Run>, n: nat, width: nat)
    requires Pass(mask, s, asked, ra, seen, n, width)
    ensures PrevRow(mask, ra, n) && InOrder(asked) && UpTo(asked, n, 0)
    ensures forall q :: q in AllRuns(s.cls) ==> q.row < n
  {
  }

  /** The sweep over rows ii - 1 and ii. */
  method JoinRows(p: BlobList, ii: nat, yuvRun0: array<YuvRun>, count0: nat, yuvRun1: array<YuvRun>, count1: nat,
                  ghost img: Image, ghost th: Thresholds, ghost ra: seq<Run>, ghost rs: seq<Interval>,
                  ghost seen0: set<Run>)
      returns (ghost rb: seq<Run>, ghost seen: set<Run>)
    requires p.Valid() && img.WellFormed() && ii < img.rows < 0x1_0000 && yuvRun0 != yuvRun1
    requires count0 <= yuvRun0.Length && count1 <= yuvRun1.Length
    requires Pass(Mask(img, th), p.View(), p.asked, ra, seen0, ii, img.cols / 2)
    requires ListTracked(p.cls, yuvRun0[..count0], ra) && LumaRunsOf(img, th, ii, yuvRun1[..count1], rs)
    modifies p, p.blobSet, p.rootInfo, yuvRun0, yuvRun1
    ensures p.Shape() && p.Valid()
    ensures Pass(Mask(img, th), p.View(), p.asked, rb, seen, ii + 1, img.cols / 2)
    ensures ListTracked(p.cls, yuvRun1[..count1], rb)
  {
    hide Good, Pass, PrevRow, ListTracked, YuvTracked, Covers, Offered, RowMask, UvMask, ChromaSeq, LumaRow,
      Separated, IsRun, Mask, EdgesOf, AllRuns, EdgeSet, InOrder, UpTo, BottomsRecorded, Crowded, Starts;
    ghost var mask, s, before := Mask(img, th), p.View(), p.asked;
    PassRows(mask, s, before, ra, seen0, ii, img.cols / 2);
    PrevSeparated(mask, ra, ii);
    MaskInside(img, th);
    rb := RunsAt(rs, ii);
    FreshRow(img, th, ii, rs, yuvRun1[..count1], p.cls);
    ListSize(p.cls, yuvRun0[..count0], ra);
    ListSize(p.cls, yuvRun1[..count1], rb);
    ghost var calls := YuvRunRowUnion(p, ii - 1, count0, yuvRun0, ii, count1, yuvRun1, ra, rb);
    PassMore(mask, s, p.View(), before, p.asked, ra, rb, calls, seen0, ii, img.cols / 2);
    seen := seen0 + SetOf(rb);
  }

  lemma PassStarts(mask: set<Pixel>, width: nat)
    requires forall p :: p in mask ==> 0 <= p.y
    ensures Pass(mask, EMPTY, [], [], {}, 0, width)
  {
    forall e: Edge | IsEdge(mask, e)
      ensures e.1.row >= 0
    {
      assert Pixel(e.1.low, e.1.row) in mask;
    }
  }

  lemma PassIsOver(img: Image, th: Thresholds, s: Snap, asked: seq<Edge>, ra: seq<Run>, seen: set<Run>)
    requires img.WellFormed() && Pass(Mask(img, th), s, asked, ra, seen, img.rows, img.cols / 2)
    ensures IsPass(Mask(img, th), asked) && 4 * |AllRuns(s.cls)| <= 2 * (img.cols * img.rows)
  {
    hide PrevRow, AllRuns;
    var mask := Mask(img, th);
    MaskInside(img, th);
    hide Mask;
    forall e
      ensures e in EdgeSet(asked) <==> e in MaskEdges(mask)
    {
      MaskEdgesHas(mask, e);
      assert IsEdge(mask, e) ==> Pixel(e.1.low, e.1.row) in mask;
    }
    SubsetSize(AllRuns(s.cls), seen);
    assert 2 * (img.rows * (img.cols / 2)) == img.rows * img.cols;
  }

  /** The blobs of the unions that find room are all components of two rows exactly if all find room. */
  lemma CompleteIffRoom(mask: set<Pixel>, cols: int, s: Snap, asked: seq<Edge>, sets: int, places: int)
    requires IsPass(mask, asked) && Good(s, EdgeSet(Carried(asked, sets, places)))
    requires forall q :: q in mask ==> 0 <= q.x < cols
    ensures Sound(s) && PartialReport(s.roots, BlobPixels(s), mask)
    ensures CompleteReport(BlobPixels(s), mask) <==> !CrowdedMask(mask, sets, places)
  {
    var unions := Carried(asked, sets, places);
    CarriedAreEdges(mask, asked, sets, places);
    hide Good, PartialReport, CompleteReport, BlobPixels, IsEdge, MaskEdges, CrowdedMask, Carried, Crowded, InOrder;
    GoodIsSound(s, EdgeSet(unions));
    GoodReports(s, EdgeSet(unions), mask);
    CrowdedIff(mask, asked, sets, places);
    AllCarriedIff(asked, sets, places);
    if CrowdedMask(mask, sets, places) {
      var e := CrowdedIsIncomplete(s, asked, mask, sets, places);
    } else {
      forall e
        ensures IsEdge(mask, e) ==> e in EdgeSet(unions)
      {
        MaskEdgesHas(mask, e);
      }
      GoodReportsAll(s, EdgeSet(unions), mask, cols);
    }
  }

  /** After the last row. */
  lemma PassEnds(mask: set<Pixel>, cols: int, s: Snap, asked: seq<Edge>, sets: int, places: int)
    requires IsPass(mask, asked) && forall q :: q in mask ==> 0 <= q.x < cols
    requires Good(s, EdgeSet(Carried(asked, sets, places))) && BottomsRecorded(s, Carried(asked, sets, places))
    ensures Sound(s) && PartialReport(s.roots, BlobPixels(s), mask)
    ensures UnionReport(s, Carried(asked, sets, places), BlobPixels(s))
    ensures CompleteReport(BlobPixels(s), mask) <==> !CrowdedMask(mask, sets, places)
    ensures !CrowdedMask(mask, sets, places) ==> BottomReport(s.roots, BlobPixels(s), mask)
  {
    var unions := Carried(asked, sets, places);
    CarriedAreEdges(mask, asked, sets, places);
    assert forall e :: e in unions ==> e in EdgeSet(unions);
    hide *;
    CompleteIffRoom(mask, cols, s, asked, sets, places);
    BottomsByUnions(s, unions, mask);
    CrowdedIff(mask, asked, sets, places);
    AllCarriedIff(asked, sets, places);
    if !CrowdedMask(mask, sets, places) { BottomsReported(s, unions, mask); }
  }

  /** detect_color_blobs. Every entry of root_info ends with the exact pixel count, coordinate sums,
      left, right and top of a contiguous set of mask pixels that spans at least two rows, and with its
      bottom row or the row above it; no two of these sets meet. They are exactly the 4-connected
      components of the mask that span at least two rows if and only if the mask is not crowded, which it
      never is if both arrays have room for more than a quarter as many entries as there are pixels. Then
      the bottom row of a set is exact if and only if some run there is not overwritten by a late run.
      Crowded or not, the sets and their bottom rows are those of the unions that find room, in the one
      order in which a pass comes to the edges of the mask. */
  method DetectColorBlobs(p: BlobList, th: Thresholds, highlight: bool, cols: nat, rows: nat, yuv: array<byte>)
      returns (ghost blobs: seq<set<Pixel>>)
    requires p.Allocated() && Image(cols, rows, yuv[..]).WellFormed()
    requires cols % 4 == 0 && cols < 0x1_0000 && rows < 0x1_0000
    modifies p, p.blobSet, p.rootInfo, yuv
    ensures p.Valid() && PartialReport(p.Roots(), blobs, Mask(Image(cols, rows, old(yuv[..])), th))
    ensures CompleteReport(blobs, Mask(Image(cols, rows, old(yuv[..])), th)) <==>
            !CrowdedMask(Mask(Image(cols, rows, old(yuv[..])), th), p.maxBlobSetCount, p.maxRootListCount)
    ensures !p.refused ==> BottomReport(p.Roots(), blobs, Mask(Image(cols, rows, old(yuv[..])), th))
    ensures p.refused <==>
              CrowdedMask(Mask(Image(cols, rows, old(yuv[..])), th), p.maxBlobSetCount, p.maxRootListCount)
    ensures 4 * p.Capacity() > cols * rows ==> !p.refused
    ensures IsPass(Mask(Image(cols, rows, old(yuv[..])), th), p.asked)
    ensures p.unions == Carried(p.asked, p.maxBlobSetCount, p.maxRootListCount)
    ensures Sound(p.View()) && blobs == BlobPixels(p.View()) && UnionReport(p.View(), p.unions, blobs)
    ensures ImageAt(yuv[..], Image(cols, rows, old(yuv[..])), th, highlight, rows)
  {
    hide *;
    ghost var img := Image(cols, rows, yuv[..]);
    var uvRun := new UvRun[cols / 4];
    var uvCount: nat := 0;
    var yuvRun0 := new YuvRun[cols / 2];
    var count0: nat := 0;
    var yuvRun1 := new YuvRun[cols / 2];
    p.Clear();
    ghost var us, ra, seen := [], [], {};
    StartOfPass(p, img, th, highlight);
    assert yuvRun0[..count0] == [];
    var ii: nat := 0;
    while ii < rows
      invariant ii <= rows && yuvRun0 != yuvRun1 && yuvRun0.Length == yuvRun1.Length == cols / 2
      invariant fresh(uvRun) && fresh(yuvRun0) && fresh(yuvRun1) && uvRun.Length == cols / 4
      invariant uvCount <= uvRun.Length && (ii % 2 == 1 ==> ChromaRunsOf(img, th, ii / 2, uvRun[..uvCount], us))
      invariant p.Shape() && p.Valid() && count0 <= yuvRun0.Length && ListTracked(p.cls, yuvRun0[..count0], ra)
      invariant Pass(Mask(img, th), p.View(), p.asked, ra, seen, ii, cols / 2)
      invariant ImageAt(yuv[..], img, th, highlight, ii)
    {
      uvCount, us, count0, ra, seen := PassRow(p, th, highlight, cols, rows, ii, yuv, uvRun, uvCount,
                                               yuvRun0, count0, yuvRun1, img, us, ra, seen);
      yuvRun0, yuvRun1 := yuvRun1, yuvRun0;
      ii := ii + 1;
    }
    blobs := EndOfPass(p, img, th, ra, seen);
  }

  lemma StartOfPass(p: BlobList, img: Image, th: Thresholds, highlight: bool)
    requires p.Valid() && p.View() == EMPTY && p.asked == [] && img.WellFormed()
    ensures ImageAt(img.yuv, img, th, highlight, 0) && ListTracked(p.cls, [], [])
    ensures Pass(Mask(img, th), p.View(), p.asked, [], {}, 0, img.cols / 2)
  {
    MaskInside(img, th);
    PassStarts(Mask(img, th), img.cols / 2);
  }

  lemma EndOfPass(p: BlobList, img: Image, th: Thresholds, ra: seq<Run>, seen: set<Run>)
      returns (blobs: seq<set<Pixel>>)
    requires p.Valid() && img.WellFormed()
    requires Pass(Mask(img, th), p.View(), p.asked, ra, seen, img.rows, img.cols / 2)
    ensures p.Shape() && PartialReport(p.Roots(), blobs, Mask(img, th))
    ensures CompleteReport(blobs, Mask(img, th)) <==>
            !CrowdedMask(Mask(img, th), p.maxBlobSetCount, p.maxRootListCount)
    ensures !p.refused ==> BottomReport(p.Roots(), blobs, Mask(img, th))
    ensures p.refused <==> CrowdedMask(Mask(img, th), p.maxBlobSetCount, p.maxRootListCount)
    ensures 4 * p.Capacity() > img.cols * img.rows ==> !p.refused
    ensures IsPass(Mask(img, th), p.asked) && p.unions == Carried(p.asked, p.maxBlobSetCount, p.maxRootListCount)
    ensures Sound(p.View()) && blobs == BlobPixels(p.View()) && UnionReport(p.View(), p.unions, blobs)
  {
    MaskInside(img, th);
    hide Pass, PartialReport, CompleteReport, BottomReport, UnionReport, Sound, Good, BlobPixels, Mask, BottomsRecorded,
      IsPass, EdgeSet, Crowded, CrowdedMask, Carried, AllRuns;
    PassIsOver(img, th, p.View(), p.asked, ra, seen);
    PassEnds(Mask(img, th), img.cols, p.View(), p.asked, p.maxBlobSetCount, p.maxRootListCount);
    CrowdedIff(Mask(img, th), p.asked, p.maxBlobSetCount, p.maxRootListCount);
    blobs := BlobPixels(p.View());
  }

  lemma UnmarkedRow(now: seq<byte>, img: Image, th: Thresholds, n: nat)
    requires img.WellFormed() && ImageAt(now, img, th, false, n)
    ensures ImageAt(now, img, th, false, n + 1)
  {
  }

  /** The highlighting of row ii. */
  method MarkRow(cols: nat, th: Thresholds, ii: nat, yuv: array<byte>, yuvRun: array<YuvRun>, count: nat,
                 ghost img: Image, ghost rs: seq<Interval>)
    requires img.WellFormed() && img.cols == cols && ii < img.rows && count <= yuvRun.Length
    requires ImageAt(yuv[..], img, th, true, ii) && LumaRunsOf(img, th, ii, yuvRun[..count], rs)
    modifies yuv
    ensures ImageAt(yuv[..], img, th, true, ii + 1)
  {
    hide ImageAt, Covers, YuvTracked, RowMask, UvMask, ChromaSeq, LumaRow, ShadedTo, Mask;
    ghost var m := RowMask(UvMask(ChromaSeq(img, th, ii / 2)), LumaRow(img, ii), th.yLow);
    ghost var before := yuv[..];
    MaskRow(img, th, ii, m);
    ImageBelow(before, img, th, true, ii);
    RowFits(ii, img.rows, cols);
    HighlightRow(yuv, ii * cols, cols, count, yuvRun, rs, m);
    RowIsShaded(yuv[..], before, img, th, ii, m);
  }

  /** One iteration of the loop over rows. */
  method PassRow(p: BlobList, th: Thresholds, highlight: bool, cols: nat, rows: nat, ii: nat, yuv: array<byte>,
                 uvRun: array<UvRun>, uvCount0: nat, yuvRun0: array<YuvRun>, count0: nat, yuvRun1: array<YuvRun>,
                 ghost img: Image, ghost us0: seq<Interval>, ghost ra: seq<Run>, ghost seen0: set<Run>)
      returns (uvCount: nat, ghost us: seq<Interval>, count: nat, ghost rb: seq<Run>, ghost seen: set<Run>)
    requires img.WellFormed() && img.cols == cols && img.rows == rows
    requires cols % 4 == 0 && cols < 0x1_0000 && ii < rows < 0x1_0000
    requires yuvRun0 != yuvRun1 && yuvRun0.Length == yuvRun1.Length == cols / 2 && uvRun.Length == cols / 4
    requires uvCount0 <= uvRun.Length && (ii % 2 == 1 ==> ChromaRunsOf(img, th, ii / 2, uvRun[..uvCount0], us0))
    requires p.Valid() && count0 <= yuvRun0.Length && ListTracked(p.cls, yuvRun0[..count0], ra)
    requires Pass(Mask(img, th), p.View(), p.asked, ra, seen0, ii, cols / 2)
    requires ImageAt(yuv[..], img, th, highlight, ii)
    modifies p, p.blobSet, p.rootInfo, yuv, uvRun, yuvRun0, yuvRun1
    ensures uvCount <= uvRun.Length && ChromaRunsOf(img, th, ii / 2, uvRun[..uvCount], us)
    ensures p.Shape() && p.Valid() && count <= yuvRun1.Length && ListTracked(p.cls, yuvRun1[..count], rb)
    ensures Pass(Mask(img, th), p.View(), p.asked, rb, seen, ii + 1, cols / 2)
    ensures ImageAt(yuv[..], img, th, highlight, ii + 1)
  {
    hide *;
    ghost var rs;
    uvCount, us, count, rs := DetectRow(cols, rows, th, ii, yuv, uvRun, uvCount0, yuvRun1, img, us0, highlight);
    if highlight {
      MarkRow(cols, th, ii, yuv, yuvRun1, count, img, rs);
    } else {
      UnmarkedRow(yuv[..], img, th, ii);
    }
    rb, seen := JoinRows(p, ii, yuvRun0, count0, yuvRun1, count, img, th, ra, rs, seen0);
  }

  // ----- Totals -----

  ghost function TallPixels(mask: set<Pixel>): set<Pixel> {
    set p | p in mask && InTallComponent(mask, p)
  }

  lemma {:induction false} CountsAreSums(roots: seq<RootInfo>, blobs: seq<set<Pixel>>, n: nat)
    requires |blobs| == |roots| && n <= |roots|
    requires forall k :: 0 <= k < |roots| ==> roots[k].stats.count == |blobs[k]|
    ensures FieldTo(roots, CountOf, n) == SumsTo(One, blobs, n)
  {
    if n > 0 {
      CountsAreSums(roots, blobs, n - 1);
      SumOfOnes(blobs[n - 1]);
    }
  }

  lemma CountsAreUnion(roots: seq<RootInfo>, blobs: seq<set<Pixel>>, mask: set<Pixel>)
    requires PartialReport(roots, blobs, mask)
    ensures FieldTo(roots, CountOf, |roots|) == |UnionTo(blobs, |roots|)|
  {
    hide Contiguous, SpansTwoRows, Sum, IsLeast, IsGreatest;
    CountsAreSums(roots, blobs, |roots|);
    SumOfUnionTo(One, blobs, |roots|);
    SumOfOnes(UnionTo(blobs, |roots|));
  }

  lemma TallIs(mask: set<Pixel>, p: Pixel)
    requires p in TallPixels(mask)
    ensures p in mask && InTallComponent(mask, p)
  {
  }

  lemma ReportedMeansTall(roots: seq<RootInfo>, blobs: seq<set<Pixel>>, mask: set<Pixel>, p: Pixel, k: nat)
    requires PartialReport(roots, blobs, mask) && k < |blobs| && p in blobs[k]
    ensures p in TallPixels(mask)
  {
    assert Contiguous(mask, blobs[k]) && SpansTwoRows(blobs[k]);
    var a, b :| a in blobs[k] && b in blobs[k] && a.y != b.y;
    assert Linked(mask, p, a) && Linked(mask, p, b);
  }

  /** With a complete report the counts add up to the mask pixels whose component spans two rows;
      otherwise to no more than these. */
  lemma TotalIsTallPixels(roots: seq<RootInfo>, blobs: seq<set<Pixel>>, mask: set<Pixel>)
    requires PartialReport(roots, blobs, mask)
    ensures FieldTo(roots, CountOf, |roots|) <= |TallPixels(mask)|
    ensures CompleteReport(blobs, mask) ==> FieldTo(roots, CountOf, |roots|) == |TallPixels(mask)|
  {
    hide FieldTo, UnionTo, TallPixels, CompleteReport, Contiguous, SpansTwoRows, Reports;
    var n := |blobs|;
    CountsAreUnion(roots, blobs, mask);
    var union := UnionTo(blobs, n);
    forall p | p in union
      ensures p in TallPixels(mask)
    {
      UnionToHas(blobs, n, p);
      var k :| 0 <= k < n && p in blobs[k];
      ReportedMeansTall(roots, blobs, mask, p, k);
    }
    SubsetSize(union, TallPixels(mask));
    if CompleteReport(blobs, mask) {
      var tall := TallPixels(mask);
      forall p | p in tall
        ensures p in union
      {
        TallIs(mask, p);
        TallMeansReported(blobs, mask, p);
        UnionToHas(blobs, n, p);
      }
      assert union == TallPixels(mask);
    }
  }

  /** The fields of Blob_Stats are wide enough: counts and coordinate sums are bounded by the image,
      so that 32-bit sums do not wrap for images of fewer than 2^32 / max(cols, rows) pixels. */
  lemma StatsFit(st: BlobStats, c: set<Pixel>, cols: nat, rows: nat)
    requires Reports(st, c) && forall p :: p in c ==> 0 <= p.x < cols && 0 <= p.y < rows
    ensures 0 <= st.sumX <= cols * st.count && 0 <= st.sumY <= rows * st.count && st.count <= cols * rows
  {
    SumBounds(X, c, 0, cols);
    SumBounds(Y, c, 0, rows);
    GridSize(c, cols, rows);
  }

  lemma {:induction false} GridSize(c: set<Pixel>, cols: nat, rows: nat)
    requires forall p :: p in c ==> 0 <= p.x < cols && 0 <= p.y < rows
    ensures |c| <= cols * rows
    decreases rows
  {
    if rows == 0 {
      assert c == {};
    } else {
      var last := set p | p in c && p.y == rows - 1;
      var rest := c - last;
      GridSize(rest, cols, rows - 1);
      RowSize(last, cols, rows - 1);
      assert c == rest + last;
      assert cols * rows == cols * (rows - 1) + cols;
    }
  }

  lemma {:induction false} RowSize(c: set<Pixel>, cols: nat, y: int)
    requires forall p :: p in c ==> 0 <= p.x < cols && p.y == y
    ensures |c| <= cols
    decreases cols
  {
    if cols == 0 {
      assert c == {};
    } else {
      var p := Pixel(cols - 1, y);
      RowSize(c - {p}, cols - 1, y);
      SubsetSize(c, (c - {p}) + {p});
    }
  }

  // ----- The mask and its documentation -----

  /** The mask misses a documented pixel exactly on the last, odd column of a chroma run. */
  lemma MaskMissesLastColumn(img: Image, th: Thresholds, x: nat, y: nat)
    requires img.WellFormed() && x < img.cols && y < img.rows && InDocumentedMask(img, th, x, y)
    ensures Pixel(x, y) !in Mask(img, th) <==> x % 2 == 1 && !ChromaAt(img, th, x + 1, y)
  {
    MaskHas(img, th, x, y);
  }

  /** A uniform image of 4 by 2 pixels within the thresholds: its last column is not detected. */
  lemma LastColumnWitness(th: Thresholds, yuv: seq<byte>)
    requires |yuv| == 12 && (forall k :: 0 <= k < 8 ==> yuv[k] == th.yLow)
    requires th.uLow <= th.uHigh && th.vLow <= th.vHigh
    requires yuv[8] == yuv[9] == th.uLow && yuv[10] == yuv[11] == th.vLow
    ensures InDocumentedMask(Image(4, 2, yuv), th, 3, 1) && Pixel(3, 1) !in Mask(Image(4, 2, yuv), th)
    ensures Pixel(2, 1) in Mask(Image(4, 2, yuv), th)
  {
  }
}
