/** Two small images: one whose blob is reported one row short, and one whose single blob finds no room
    in a list for one blob. */
module Examples {
  import opened Folds
  import opened Reach
  import opened BlobStats
  import opened Forest
  import opened Partition
  import BlobLists
  import opened UnionLog
  import opened Sweep
  import opened RowRuns
  import opened Pixels
  import opened LateRuns
  import opened Detect

  const ONE_AND_UP := Thresholds(1, 0, 0, 0, 0)

  /** A 4 by 4 image with luma 1 where a bit is set, and 0 elsewhere; all chroma is 0. */
  function Picture(bits: seq<bool>): (img: Image)
    requires |bits| == 16
    ensures img.cols == 4 && img.rows == 4 && |img.yuv| == 24 && img.WellFormed()
  {
    Image(4, 4, seq(24, k requires 0 <= k < 24 => if k < 16 && bits[k] then 1 else 0))
  }

  /** Its mask: the bits, without the last column. */
  lemma PictureMask(bits: seq<bool>, x: int, y: int)
    requires |bits| == 16
    ensures Pixel(x, y) in Mask(Picture(bits), ONE_AND_UP) <==> 0 <= x < 3 && 0 <= y < 4 && bits[4 * y + x]
  {
    var img := Picture(bits);
    MaskHas(img, ONE_AND_UP, x, y);
    if 0 <= x < 4 && 0 <= y < 4 {
      assert GetPixel(img, x, y) == (img.yuv[4 * y + x], 0, 0);
      assert x < 3 ==> ChromaAt(img, ONE_AND_UP, x + 1, y);
    }
  }

  // ----- A late run -----

  const LATE: seq<bool> := [
    true, false, false, false,
    true, false, true, false,
    true, true, true, false,
    false, false, false, false]

  const LATE_MASK: set<Pixel> := {Pixel(0, 0), Pixel(0, 1), Pixel(2, 1), Pixel(0, 2), Pixel(1, 2), Pixel(2, 2)}

  const TOP := Run(0, 0, 1)
  const LEFT := Run(1, 0, 1)
  const RIGHT := Run(1, 2, 3)
  const BOTTOM := Run(2, 0, 3)

  lemma LateBits(x: int, y: int)
    ensures Pixel(x, y) in LATE_MASK <==> 0 <= x < 3 && 0 <= y < 4 && LATE[4 * y + x]
  {
    if 0 <= x < 3 && 0 <= y < 4 {
      assert y == 0 || y == 1 || y == 2 || y == 3;
      assert x == 0 || x == 1 || x == 2;
    }
  }

  lemma LateMaskIs()
    ensures Mask(Picture(LATE), ONE_AND_UP) == LATE_MASK
  {
    assert |LATE| == 16;
    var mask := Mask(Picture(LATE), ONE_AND_UP);
    hide *;
    forall p: Pixel
      ensures p in mask <==> p in LATE_MASK
    {
      PictureMask(LATE, p.x, p.y);
      LateBits(p.x, p.y);
    }
  }

  lemma LateEdges()
    ensures IsEdge(LATE_MASK, (TOP, LEFT)) && IsEdge(LATE_MASK, (LEFT, BOTTOM)) && IsEdge(LATE_MASK, (RIGHT, BOTTOM))
  {
  }

  lemma RightIsLate()
    ensures LateRun(LATE_MASK, (RIGHT, BOTTOM))
  {
    LateEdges();
    forall d: Run
      ensures !IsEdge(LATE_MASK, (d, RIGHT))
    {
      assert Pixel(2, 0) !in LATE_MASK;
    }
    assert LEFT.low < RIGHT.low;
  }

  /** The late run overwrites the whole bottom row. */
  lemma RightOverwrites()
    ensures Overwrites(LATE_MASK, (RIGHT, BOTTOM), BOTTOM)
  {
    RightIsLate();
    LateEdges();
    var e := (RIGHT, BOTTOM);
    var before := Earlier(LATE_MASK, e);
    MaskEdgesHas(LATE_MASK, (TOP, LEFT));
    MaskEdgesHas(LATE_MASK, (LEFT, BOTTOM));
    assert (TOP, LEFT) in before && (LEFT, BOTTOM) in before;
    ReachesSelf(EdgeAdj(before), BOTTOM);
    assert EdgeAdj(before)(TOP, LEFT) && EdgeAdj(before)(LEFT, BOTTOM);
    ReachesStep(EdgeAdj(before), TOP, LEFT);
    ReachesStep(EdgeAdj(before), LEFT, BOTTOM);
    ReachesTrans(EdgeAdj(before), TOP, LEFT, BOTTOM);
    assert Connected(before, TOP, BOTTOM) && TOP.row < RIGHT.row;
  }

  lemma LateBottomIsOverwritten()
    ensures !BottomRecorded(LATE_MASK, LATE_MASK)
  {
    RightOverwrites();
    LateEdges();
    forall b | IsBottomRun(LATE_MASK, LATE_MASK, b)
      ensures b == BOTTOM
    {
      assert Pixel(2, 2) in LATE_MASK;
      RunsAreDisjoint(LATE_MASK, b, BOTTOM, Pixel(b.low, b.row));
    }
  }

  /** Pixels each next to the one before are contiguous. */
  lemma ChainIsLinked(mask: set<Pixel>, chain: seq<Pixel>)
    requires chain != [] && forall i :: 0 <= i < |chain| ==> chain[i] in mask
    requires forall i :: 0 <= i < |chain| - 1 ==> NextTo(chain[i], chain[i + 1])
    ensures forall i :: 0 <= i < |chain| ==> Linked(mask, chain[0], chain[i])
  {
    ReachesSelf(MaskAdj(mask), chain[0]);
    var k := 0;
    while k < |chain| - 1
      invariant 0 <= k < |chain| && forall i :: 0 <= i <= k ==> Linked(mask, chain[0], chain[i])
    {
      LinkedStep(mask, chain[k], chain[k + 1]);
      LinkedTrans(mask, chain[0], chain[k], chain[k + 1]);
      k := k + 1;
    }
  }

  /** A mask that is all one chain is one component. */
  lemma ChainIsComponent(mask: set<Pixel>, chain: seq<Pixel>)
    requires chain != [] && forall p :: p in mask <==> p in chain
    requires forall i :: 0 <= i < |chain| - 1 ==> NextTo(chain[i], chain[i + 1])
    ensures IsComponent(mask, mask)
  {
    ChainIsLinked(mask, chain);
    assert chain[0] in mask;
    forall p, q | p in mask && q in mask
      ensures Linked(mask, p, q)
    {
      var i :| 0 <= i < |chain| && chain[i] == p;
      var j :| 0 <= j < |chain| && chain[j] == q;
      LinkedSym(mask, chain[0], p);
      LinkedTrans(mask, p, chain[0], q);
    }
  }

  lemma LateMaskIsOneBlob()
    ensures IsComponent(LATE_MASK, LATE_MASK) && SpansTwoRows(LATE_MASK) && IsGreatest(Y, LATE_MASK, 2)
  {
    var chain := [Pixel(0, 0), Pixel(0, 1), Pixel(0, 2), Pixel(1, 2), Pixel(2, 2), Pixel(2, 1)];
    ChainIsComponent(LATE_MASK, chain);
    assert Pixel(0, 0) in LATE_MASK && Pixel(0, 2) in LATE_MASK && Y(Pixel(0, 2)) == 2;
  }

  /** A blob whose bottom row is overwritten ends with max_y one short. */
  lemma OverwrittenIsOneShort(mask: set<Pixel>, c: set<Pixel>, bottom: int, roots: seq<RootInfo>,
                              blobs: seq<set<Pixel>>)
      returns (k: nat)
    requires PartialReport(roots, blobs, mask) && CompleteReport(blobs, mask) && BottomReport(roots, blobs, mask)
    requires IsComponent(mask, c) && SpansTwoRows(c) && IsGreatest(Y, c, bottom) && !BottomRecorded(mask, c)
    ensures k < |roots| == |blobs| && blobs[k] == c && roots[k].stats.maxY == bottom - 1
  {
    hide Contiguous, IsComponent, SpansTwoRows, BottomRecorded, IsGreatest;
    assert c in blobs;
    k :| 0 <= k < |blobs| && blobs[k] == c;
    var maxY: int := roots[k].stats.maxY;
    assert Reports(roots[k].stats, c);
    assert IsGreatest(Y, c, maxY + 1);
    GreatestIsOne(Y, c, bottom, maxY + 1);
  }

  /** Whatever list detect_color_blobs leaves for this image, its one blob ends in row 2 and max_y is 1. */
  lemma LateBlobIsOneShort(roots: seq<RootInfo>, blobs: seq<set<Pixel>>)
    returns (k: nat)
    requires var mask := Mask(Picture(LATE), ONE_AND_UP);
             PartialReport(roots, blobs, mask) && CompleteReport(blobs, mask) && BottomReport(roots, blobs, mask)
    ensures k < |roots| == |blobs| && IsGreatest(Y, blobs[k], 2) && roots[k].stats.maxY == 1
  {
    hide *;
    LateMaskIs();
    LateMaskIsOneBlob();
    LateBottomIsOverwritten();
    k := OverwrittenIsOneShort(LATE_MASK, LATE_MASK, 2, roots, blobs);
  }

  lemma GreatestIsOne<T>(f: T -> int, s: set<T>, v: int, w: int)
    requires IsGreatest(f, s, v) && IsGreatest(f, s, w)
    ensures v == w
  {
  }

  // ----- A comb -----

  const COMB: seq<bool> := [
    true, false, true, false,
    true, false, true, false,
    true, true, true, false,
    false, false, false, false]

  const COMB_MASK: set<Pixel> :=
    {Pixel(0, 0), Pixel(2, 0), Pixel(0, 1), Pixel(2, 1), Pixel(0, 2), Pixel(1, 2), Pixel(2, 2)}

  const TIP := Run(0, 2, 3)

  lemma CombBits(x: int, y: int)
    ensures Pixel(x, y) in COMB_MASK <==> 0 <= x < 3 && 0 <= y < 4 && COMB[4 * y + x]
  {
    if 0 <= x < 3 && 0 <= y < 4 {
      assert y == 0 || y == 1 || y == 2 || y == 3;
      assert x == 0 || x == 1 || x == 2;
    }
  }

  lemma CombMaskIs()
    ensures Mask(Picture(COMB), ONE_AND_UP) == COMB_MASK
  {
    assert |COMB| == 16;
    var mask := Mask(Picture(COMB), ONE_AND_UP);
    hide *;
    forall p: Pixel
      ensures p in mask <==> p in COMB_MASK
    {
      PictureMask(COMB, p.x, p.y);
      CombBits(p.x, p.y);
    }
  }

  lemma CombIsOneBlob()
    ensures IsComponent(COMB_MASK, COMB_MASK)
  {
    var chain := [Pixel(0, 0), Pixel(0, 1), Pixel(0, 2), Pixel(1, 2), Pixel(2, 2), Pixel(2, 1), Pixel(2, 0)];
    ChainIsComponent(COMB_MASK, chain);
  }

  lemma CombBefore()
    ensures IsEdge(COMB_MASK, (TIP, RIGHT)) && Earlier(COMB_MASK, (TIP, RIGHT)) == {(TOP, LEFT)}
  {
    var e := (TIP, RIGHT);
    assert IsEdge(COMB_MASK, e) && IsEdge(COMB_MASK, (TOP, LEFT));
    hide IsEdge, IsRun;
    forall d
      ensures d in Earlier(COMB_MASK, e) <==> d == (TOP, LEFT)
    {
      MaskEdgesHas(COMB_MASK, d);
      if IsEdge(COMB_MASK, d) && Before(d, e) { CombUpperEdge(d); }
    }
  }

  lemma CombUpperEdge(d: Edge)
    requires IsEdge(COMB_MASK, d) && Before(d, (TIP, RIGHT))
    ensures d == (TOP, LEFT)
  {
    assert Pixel(d.0.low, d.0.row) in COMB_MASK && Pixel(d.1.low, d.1.row) in COMB_MASK;
    assert d.0.row == 0 && d.1.row == 1;
    assert IsRun(COMB_MASK, TOP) && IsRun(COMB_MASK, TIP) && IsRun(COMB_MASK, LEFT) && IsRun(COMB_MASK, RIGHT);
    CombRun(d.0, TOP, TIP);
    CombRun(d.1, LEFT, RIGHT);
  }

  lemma CombRun(r: Run, a: Run, b: Run)
    requires IsRun(COMB_MASK, r) && IsRun(COMB_MASK, a) && IsRun(COMB_MASK, b)
    requires r.row == a.row == b.row && r.low in {a.low, b.low}
    ensures r == a || r == b
  {
  }

  lemma PairIsGenerated(a: Run, b: Run)
    requires a != b
    ensures Generated({{a, b}}, {(a, b)})
  {
    assert Generated({}, {});
    JoinIsGenerated({}, {}, a, b);
    assert {} + {(a, b)} == {(a, b)};
    assert ClassOf({}, a) + ClassOf({}, b) == {a, b};
    assert JoinBlocks({}, a, b) == {{a, b}};
  }

  lemma SecondPairIsCrowded(mask: set<Pixel>, first: Edge, e: Edge, sets: int)
    requires IsEdge(mask, e) && Earlier(mask, e) == {first} && first.0 != first.1
    requires e.0 != first.0 && e.0 != first.1 && e.1 != first.0 && e.1 != first.1
    ensures CrowdedMask(mask, sets, 1)
  {
    hide IsEdge, Earlier, Generated;
    MaskEdgesHas(mask, e);
    PairIsGenerated(first.0, first.1);
    assert first == (first.0, first.1);
    var blocks := {{first.0, first.1}};
    assert Generated(blocks, Earlier(mask, e)) && |blocks| >= 1;
    assert BothNew(Earlier(mask, e), e);
    assert CrowdedEdge(mask, e, sets, 1);
  }

  /** A list with room for one blob is too small for this image of one blob: its two teeth need an entry
      each until the row below joins them. */
  lemma CombIsCrowded(sets: int)
    ensures IsComponent(Mask(Picture(COMB), ONE_AND_UP), Mask(Picture(COMB), ONE_AND_UP))
    ensures CrowdedMask(Mask(Picture(COMB), ONE_AND_UP), sets, 1)
  {
    assert TOP != LEFT && TIP != TOP && TIP != LEFT && RIGHT != TOP && RIGHT != LEFT;
    hide *;
    CombMaskIs();
    CombIsOneBlob();
    CombBefore();
    SecondPairIsCrowded(COMB_MASK, (TOP, LEFT), (TIP, RIGHT), sets);
  }

  /** Whatever list detect_color_blobs leaves for it, with room for one blob: the comb is misreported. */
  lemma CombIsMisreported(s: Snap, asked: seq<Edge>, sets: int) returns (lost: Edge)
    requires IsPass(Mask(Picture(COMB), ONE_AND_UP), asked)
    requires BlobLists.Good(s, EdgeSet(Carried(asked, sets, 1)))
    ensures Sound(s) && !CompleteReport(BlobPixels(s), Mask(Picture(COMB), ONE_AND_UP))
    ensures IsEdge(Mask(Picture(COMB), ONE_AND_UP), lost)
    ensures forall k, p :: 0 <= k < |s.roots| && InRun(p, lost.0) ==> p !in BlobPixels(s)[k]
  {
    assert |COMB| == 16;
    hide *;
    CombIsCrowded(sets);
    lost := CrowdedIsIncomplete(s, asked, Mask(Picture(COMB), ONE_AND_UP), sets, 1);
  }
}
