/** create_uv_run_sequence and detect_yuv_runs_in_row: the runs of one row. */
module RowRuns {
  import opened Words
  import opened BlobLists

  datatype UvRun = UvRun(low: u16, high: u16)

  datatype Interval = Interval(low: nat, high: nat)

  /** The intervals cover exactly the columns below n where the mask is set, in order, with a gap
      between any two: they are the maximal runs of the mask. */
  ghost predicate Covers(rs: seq<Interval>, m: seq<bool>, n: nat) {
    && n <= |m|
    && (forall k :: 0 <= k < |rs| ==> rs[k].low < rs[k].high <= n)
    && (forall k, x :: 0 <= k < |rs| && rs[k].low <= x < rs[k].high ==> m[x])
    && (forall k, l :: 0 <= k < l < |rs| ==> rs[k].high < rs[l].low)
    && (forall x :: 0 <= x < n && m[x] ==> InSome(rs, x))
  }

  ghost predicate InSome(rs: seq<Interval>, x: int) {
    exists k :: 0 <= k < |rs| && rs[k].low <= x < rs[k].high
  }

  /** A new run may start at column n. */
  ghost predicate EndsBefore(rs: seq<Interval>, n: nat) {
    rs == [] || rs[|rs| - 1].high < n
  }

  lemma CoversGap(rs: seq<Interval>, m: seq<bool>, n: nat, more: nat)
    requires Covers(rs, m, n) && n <= more <= |m|
    requires forall x :: n <= x < more ==> !m[x]
    ensures Covers(rs, m, more)
  {
  }

  lemma CoversRun(rs: seq<Interval>, m: seq<bool>, lo: nat, hi: nat)
    requires Covers(rs, m, lo) && EndsBefore(rs, lo) && lo < hi <= |m|
    requires forall x :: lo <= x < hi ==> m[x]
    ensures Covers(rs + [Interval(lo, hi)], m, hi)
  {
    var more := rs + [Interval(lo, hi)];
    forall x | 0 <= x < hi && m[x]
      ensures InSome(more, x)
    {
      if x < lo {
        assert InSome(rs, x);
        var k :| 0 <= k < |rs| && rs[k].low <= x < rs[k].high;
        assert more[k] == rs[k];
      } else {
        assert more[|rs|] == Interval(lo, hi);
      }
    }
    forall k, l | 0 <= k < l < |more|
      ensures more[k].high < more[l].low
    {
      if l == |rs| {
        assert k < |rs| - 1 ==> rs[k].high < rs[|rs| - 1].low;
        assert rs[|rs| - 1].low < rs[|rs| - 1].high;
      }
    }
  }

  /** Runs separated by gaps fill at most half of the columns. */
  lemma {:induction false} CoversAtMostHalf(rs: seq<Interval>, m: seq<bool>, n: nat)
    requires Covers(rs, m, n)
    ensures 2 * |rs| <= n + 1
    decreases |rs|
  {
    if |rs| > 0 {
      var last := rs[|rs| - 1];
      var front := rs[..|rs| - 1];
      if |front| > 0 {
        assert front[|front| - 1].high < last.low;
        forall k | 0 <= k < |front|
          ensures front[k].high <= last.low - 1
        {
          assert rs[k].high < rs[|rs| - 1].low;
        }
        forall x | 0 <= x < last.low - 1 && m[x]
          ensures InSome(front, x)
        {
          assert InSome(rs, x);
          var k :| 0 <= k < |rs| && rs[k].low <= x < rs[k].high;
          assert front[k] == rs[k];
        }
        CoversAtMostHalf(front, m, last.low - 1);
      }
    }
  }

  // ----- Chroma -----

  /** The thresholds of one call of detect_color_blobs. */
  datatype Thresholds = Thresholds(yLow: byte, uLow: byte, uHigh: byte, vLow: byte, vHigh: byte)

  /** The test of uv_is_in. */
  predicate ChromaIn(th: Thresholds, u: byte, v: byte) {
    u >= th.uLow && u <= th.uHigh && v >= th.vLow && v <= th.vHigh
  }

  /** The columns a chroma row lets through: run_high is one short of the end of each run (line 168),
      so an odd column passes only when the chroma of the next column does. */
  ghost function UvMask(c: seq<bool>): (m: seq<bool>)
    ensures |m| == 2 * |c|
  {
    seq(2 * |c|, x requires 0 <= x < 2 * |c| => UvColumn(c, x))
  }

  ghost predicate UvColumn(c: seq<bool>, x: nat)
    requires x < 2 * |c|
  {
    c[x / 2] && (x % 2 == 0 || (x / 2 + 1 < |c| && c[x / 2 + 1]))
  }

  lemma UvMaskGap(c: seq<bool>, j: nat)
    requires j < |c| && !c[j]
    ensures !UvMask(c)[2 * j] && !UvMask(c)[2 * j + 1]
  {
  }

  lemma UvMaskRun(c: seq<bool>, from: nat, to: nat)
    requires from < to <= |c| && (forall j :: from <= j < to ==> c[j]) && (to < |c| ==> !c[to])
    ensures forall x :: 2 * from <= x < 2 * to - 1 ==> UvMask(c)[x]
    ensures !UvMask(c)[2 * to - 1]
  {
  }

  ghost predicate UvTracked(uv: seq<UvRun>, rs: seq<Interval>) {
    |uv| == |rs| && forall k :: 0 <= k < |uv| ==> uv[k].low == rs[k].low && uv[k].high == rs[k].high
  }

  lemma UvTrackedMore(uv: seq<UvRun>, rs: seq<Interval>, lo: u16, hi: u16)
    requires UvTracked(uv, rs)
    ensures UvTracked(uv + [UvRun(lo, hi)], rs + [Interval(lo, hi)])
  {
  }

  /** The chroma tests of a row: its U values start at base, its V values a quarter of the pixels later. */
  ghost predicate ChromaRow(c: seq<bool>, yuv: seq<byte>, base: nat, pixels: nat, th: Thresholds) {
    base + pixels / 4 + |c| <= |yuv| &&
    forall j :: 0 <= j < |c| ==> c[j] == ChromaIn(th, yuv[base + j], yuv[base + pixels / 4 + j])
  }

  /** uv_is_in, with uv_row starting at base in yuv. */
  method UvIsIn(pixels: nat, yuv: array<byte>, base: nat, th: Thresholds, jj: nat, ghost c: seq<bool>)
      returns (isIn: bool)
    requires ChromaRow(c, yuv[..], base, pixels, th) && jj / 2 < |c|
    ensures isIn == c[jj / 2]
    ensures isIn <==> th.uLow <= yuv[base + jj / 2] <= th.uHigh &&
                      th.vLow <= yuv[base + pixels / 4 + jj / 2] <= th.vHigh
  {
    var uvOffset := jj / 2;
    var u := yuv[base + uvOffset];
    var v := yuv[base + pixels / 4 + uvOffset];
    isIn := ChromaIn(th, u, v);
  }

  /** The inner loop of create_uv_run_sequence: the first column at or after jj whose chroma is out. */
  method UvRunEnd(cols: nat, pixels: nat, yuv: array<byte>, base: nat, th: Thresholds, start: nat,
                  ghost c: seq<bool>, ghost h: nat)
      returns (jj: nat)
    requires cols == 2 * |c| && start == 2 * h && h <= |c| && ChromaRow(c, yuv[..], base, pixels, th)
    ensures jj % 2 == 0 && start <= jj <= cols
    ensures (forall j :: h <= j < jj / 2 ==> c[j]) && (jj < cols ==> !c[jj / 2])
  {
    hide ChromaRow;
    jj := start;
    while jj < cols
      invariant jj % 2 == 0 && start <= jj <= cols && forall j :: h <= j < jj / 2 ==> c[j]
    {
      var isIn := UvIsIn(pixels, yuv, base, th, jj, c);
      if !isIn { return; }
      jj := jj + 2;
    }
  }

  /** create_uv_run_sequence: the maximal runs of the chroma mask. Four columns per slot of uv_run
      suffice when 4 divides cols; other even widths can need one slot more. */
  method CreateUvRunSequence(cols: nat, rows: nat, yuv: array<byte>, base: nat, th: Thresholds,
                             uvRun: array<UvRun>, ghost c: seq<bool>)
      returns (count: nat, ghost rs: seq<Interval>)
    requires cols == 2 * |c| < 0x1_0000 && (|c| + 1) / 2 <= uvRun.Length
    requires ChromaRow(c, yuv[..], base, cols * rows, th)
    modifies uvRun
    ensures count <= uvRun.Length
    ensures Covers(rs, UvMask(c), cols) && UvTracked(uvRun[..count], rs)
  {
    hide UvMask, Covers, ChromaRow, EndsBefore;
    count, rs := 0, [];
    var pixels := cols * rows;
    var jj := 0;
    ghost var m, h := UvMask(c), 0;
    CoversNothing(m);
    while jj < cols
      invariant jj == 2 * h && h <= |c|
      invariant 2 * count <= h || (2 * count <= h + 1 && (h < |c| ==> !c[h]))
      invariant count <= uvRun.Length
      invariant Covers(rs, m, jj) && (jj < cols && c[h] ==> EndsBefore(rs, jj))
      invariant UvTracked(uvRun[..count], rs)
      decreases cols - jj
    {
      var isIn := UvIsIn(pixels, yuv, base, th, jj, c);
      if isIn {
        ghost var before := uvRun[..count];
        var low := jj;
        jj := UvRunEnd(cols, pixels, yuv, base, th, jj + 2, c, h + 1);
        UvMaskRun(c, h, jj / 2);
        CoversUvRun(rs, m, low, jj);
        h := jj / 2;
        uvRun[count] := UvRun(low, jj - 1);
        assert uvRun[..count + 1] == before + [UvRun(low, jj - 1)];
        UvTrackedMore(before, rs, low, jj - 1);
        rs := rs + [Interval(low, jj - 1)];
        count := count + 1;
      } else {
        UvMaskGap(c, h);
        CoversUvGap(rs, m, jj);
        jj, h := jj + 2, h + 1;
      }
    }
  }

  lemma CoversUvRun(rs: seq<Interval>, m: seq<bool>, lo: nat, hi: nat)
    requires Covers(rs, m, lo) && EndsBefore(rs, lo) && lo + 1 < hi <= |m|
    requires (forall x :: lo <= x < hi - 1 ==> m[x]) && !m[hi - 1]
    ensures Covers(rs + [Interval(lo, hi - 1)], m, hi) && EndsBefore(rs + [Interval(lo, hi - 1)], hi)
  {
    hide Covers;
    CoversRun(rs, m, lo, hi - 1);
    CoversGap(rs + [Interval(lo, hi - 1)], m, hi - 1, hi);
  }

  lemma CoversUvGap(rs: seq<Interval>, m: seq<bool>, n: nat)
    requires Covers(rs, m, n) && n + 2 <= |m| && !m[n] && !m[n + 1]
    ensures Covers(rs, m, n + 2) && EndsBefore(rs, n + 2)
  {
  }

  lemma CoversNothing(m: seq<bool>)
    ensures Covers([], m, 0) && EndsBefore([], 0)
  {
  }

  lemma ColumnBeforeRunIsOff(rs: seq<Interval>, m: seq<bool>, n: nat, k: nat)
    requires Covers(rs, m, n) && k < |rs| && rs[k].low > 0
    ensures !m[rs[k].low - 1]
  {
  }

  /** Chroma runs start on even columns, at least four columns apart. */
  lemma {:induction false} UvRunStart(c: seq<bool>, rs: seq<Interval>, k: nat)
    requires Covers(rs, UvMask(c), 2 * |c|) && k < |rs|
    ensures rs[k].low % 2 == 0 && rs[k].low >= 4 * k
  {
    var x := rs[k].low;
    assert UvColumn(c, x) by { assert UvMask(c)[x]; }
    if x > 0 {
      ColumnBeforeRunIsOff(rs, UvMask(c), 2 * |c|, k);
      assert !UvColumn(c, x - 1);
    }
    if k > 0 {
      UvRunStart(c, rs, k - 1);
      var y := rs[k - 1].low;
      assert UvColumn(c, y) by { assert UvMask(c)[y]; }
      assert rs[k - 1].high < x;
    }
  }

  lemma UvSlotsEnough(c: seq<bool>, rs: seq<Interval>)
    requires Covers(rs, UvMask(c), 2 * |c|)
    ensures |rs| <= (|c| + 1) / 2
  {
    if rs != [] { UvRunStart(c, rs, |rs| - 1); }
  }

  ghost function Alternating(h: nat): (c: seq<bool>)
    ensures |c| == h && forall j :: 0 <= j < h ==> c[j] == (j % 2 == 0)
  {
    seq(h, j => j % 2 == 0)
  }

  ghost function EveryFourth(n: nat): (rs: seq<Interval>)
    ensures |rs| == n && forall k :: 0 <= k < n ==> rs[k].low == 4 * k && rs[k].high == 4 * k + 1
  {
    seq(n, k requires 0 <= k < n => Interval(4 * k, 4 * k + 1))
  }

  lemma AlternatingColumn(h: nat, x: nat)
    requires x < 2 * h
    ensures UvMask(Alternating(h))[x] == (x % 4 == 0)
  {
  }

  /** Alternating chroma needs one run for every other block. */
  lemma AlternatingRuns(h: nat)
    ensures Covers(EveryFourth((h + 1) / 2), UvMask(Alternating(h)), 2 * h)
  {
    hide Alternating, EveryFourth, UvMask;
    var c, n := Alternating(h), (h + 1) / 2;
    var m, rs := UvMask(c), EveryFourth(n);
    forall x | 0 <= x < 2 * h
      ensures m[x] == (x % 4 == 0) && (x % 4 == 0 ==> InSome(rs, x))
    {
      AlternatingColumn(h, x);
      var k := x / 4;
      assert x % 4 == 0 ==> k < n && rs[k].low <= x < rs[k].high;
    }
    forall k, x | 0 <= k < |rs| && rs[k].low <= x < rs[k].high
      ensures m[x]
    {
      assert x == 4 * k;
    }
  }

  /** The cols/4 slots of uv_run hold the runs of every chroma row if and only if 4 divides cols. */
  lemma UvSlotsSufficeIff(cols: nat)
    requires cols % 2 == 0
    ensures (forall c, rs :: 2 * |c| == cols && Covers(rs, UvMask(c), cols) ==> |rs| <= cols / 4) <==> cols % 4 == 0
  {
    hide Covers, UvMask;
    if cols % 4 == 0 {
      forall c, rs | 2 * |c| == cols && Covers(rs, UvMask(c), cols)
        ensures |rs| <= cols / 4
      {
        UvSlotsEnough(c, rs);
      }
    } else {
      var h := cols / 2;
      var c, rs := Alternating(h), EveryFourth((h + 1) / 2);
      AlternatingRuns(h);
      assert 2 * |c| == cols && Covers(rs, UvMask(c), cols) && |rs| > cols / 4;
    }
  }

  // ----- Luma -----

  ghost function RowMask(uv: seq<bool>, yRow: seq<byte>, yLow: byte): (m: seq<bool>)
    requires |uv| == |yRow|
    ensures |m| == |uv|
  {
    seq(|uv|, x requires 0 <= x < |uv| => uv[x] && yRow[x] >= yLow)
  }

  ghost predicate YuvTracked(ys: seq<YuvRun>, rs: seq<Interval>) {
    |ys| == |rs| &&
    forall k :: 0 <= k < |ys| ==> ys[k].low == rs[k].low && ys[k].high == rs[k].high && ys[k].parentIndex == 0
  }

  lemma YuvTrackedMore(ys: seq<YuvRun>, rs: seq<Interval>, lo: u16, hi: u16)
    requires YuvTracked(ys, rs)
    ensures YuvTracked(ys + [YuvRun(0, lo, hi)], rs + [Interval(lo, hi)])
  {
  }

  /** The inner loops of detect_yuv_runs_in_row: the first column from start on, below high, whose
      luma test does not come out as bright; high if there is none. */
  method LumaEnd(yuv: array<byte>, base: nat, start: nat, high: nat, yLow: byte, bright: bool, ghost yRow: seq<byte>)
      returns (yi: nat)
    requires start <= high <= |yRow| && base + |yRow| <= yuv.Length && yuv[base..base + |yRow|] == yRow
    ensures start <= yi <= high
    ensures forall x :: start <= x < yi ==> (yRow[x] >= yLow) == bright
    ensures yi < high ==> (yRow[yi] >= yLow) != bright
  {
    yi := start;
    while yi < high
      invariant start <= yi <= high
      invariant forall x :: start <= x < yi ==> (yRow[x] >= yLow) == bright
    {
      assert yRow[yi] == yuv[base + yi];
      if (yuv[base + yi] >= yLow) != bright { return; }
      yi := yi + 1;
    }
  }

  /** The scan has reached column yi of chroma run k; rs are the runs found so far. */
  ghost predicate ScanOk(rs: seq<Interval>, m: seq<bool>, us: seq<Interval>, k: nat, yi: nat) {
    k < |us| && us[k].low <= yi <= us[k].high <= |m| && Covers(rs, m, yi) &&
    (yi < us[k].high && m[yi] ==> EndsBefore(rs, yi)) && (yi == us[k].high ==> EndsBefore(rs, yi + 1))
  }

  lemma ScanSkip(rs: seq<Interval>, m: seq<bool>, us: seq<Interval>, k: nat, from: nat, to: nat)
    requires ScanOk(rs, m, us, k, from) && from <= to <= us[k].high
    requires forall x :: from <= x < to ==> !m[x]
    ensures ScanOk(rs, m, us, k, to)
  {
  }

  lemma ScanRun(rs: seq<Interval>, m: seq<bool>, us: seq<Interval>, k: nat, lo: nat, hi: nat)
    requires ScanOk(rs, m, us, k, lo) && lo < hi <= us[k].high
    requires (forall x :: lo <= x < hi ==> m[x]) && (hi < us[k].high ==> !m[hi])
    ensures ScanOk(rs + [Interval(lo, hi)], m, us, k, hi)
  {
    CoversRun(rs, m, lo, hi);
  }

  lemma ScanNext(uv: seq<bool>, yRow: seq<byte>, yLow: byte, rs: seq<Interval>, us: seq<Interval>, k: nat)
    requires |uv| == |yRow| && Covers(us, uv, |uv|) && k + 1 < |us|
    requires ScanOk(rs, RowMask(uv, yRow, yLow), us, k, us[k].high)
    ensures us[k + 1].low < us[k + 1].high <= |uv|
    ensures ScanOk(rs, RowMask(uv, yRow, yLow), us, k + 1, us[k + 1].low)
  {
  }

  lemma RowMaskInside(uv: seq<bool>, yRow: seq<byte>, yLow: byte, us: seq<Interval>, k: nat)
    requires |uv| == |yRow| && Covers(us, uv, |uv|) && k < |us|
    ensures us[k].low < us[k].high <= |uv|
    ensures forall x :: us[k].low <= x < us[k].high ==> RowMask(uv, yRow, yLow)[x] == (yRow[x] >= yLow)
  {
  }

  lemma RowMaskEmpty(uv: seq<bool>, yRow: seq<byte>, yLow: byte)
    requires |uv| == |yRow| && Covers([], uv, |uv|)
    ensures Covers([], RowMask(uv, yRow, yLow), |uv|)
  {
  }

  lemma UvTrackedAt(uv: seq<UvRun>, rs: seq<Interval>, k: nat)
    requires UvTracked(uv, rs) && k < |uv|
    ensures k < |rs| && uv[k].low == rs[k].low && uv[k].high == rs[k].high
  {
  }

  /** detect_yuv_runs_in_row: the maximal runs of pixels that pass the chroma and the luma tests. */
  method DetectYuvRunsInRow(cols: nat, yuv: array<byte>, base: nat, uvRunCount: nat, uvRun: array<UvRun>,
                            yLow: byte, yuvRun: array<YuvRun>, ghost us: seq<Interval>, ghost uv: seq<bool>)
      returns (count: nat, ghost rs: seq<Interval>)
    requires |uv| == cols < 0x1_0000 && base + cols <= yuv.Length && (cols + 1) / 2 <= yuvRun.Length
    requires uvRunCount <= uvRun.Length && UvTracked(uvRun[..uvRunCount], us) && Covers(us, uv, cols)
    modifies yuvRun
    ensures count <= yuvRun.Length
    ensures Covers(rs, RowMask(uv, yuv[base..base + cols], yLow), cols)
    ensures YuvTracked(yuvRun[..count], rs)
  {
    hide Covers, RowMask, ScanOk, UvTracked, YuvTracked;
    ghost var yRow := yuv[base..base + cols];
    ghost var m := RowMask(uv, yRow, yLow);
    count, rs := 0, [];
    NoRunsTracked();
    UvTrackedSize(uvRun[..uvRunCount], us);
    if uvRunCount < 1 {
      RowMaskEmpty(uv, yRow, yLow);
      return;
    }
    var uvi := 0;
    UvTrackedAt(uvRun[..uvRunCount], us, 0);
    ScanStart(uv, yRow, yLow, us);
    var yi: nat := uvRun[0].low;
    while yi < cols
      invariant uvi < uvRunCount && us[uvi].low <= yi < us[uvi].high <= cols
      invariant ScanOk(rs, m, us, uvi, yi) && yuv[base..base + cols] == yRow
      invariant |rs| == count <= yuvRun.Length && YuvTracked(yuvRun[..count], rs)
      decreases uvRunCount - uvi, cols - yi
    {
      UvTrackedAt(uvRun[..uvRunCount], us, uvi);
      RowMaskInside(uv, yRow, yLow, us, uvi);
      var high := uvRun[uvi].high;
      ghost var from := yi;
      yi := LumaEnd(yuv, base, yi, high, yLow, false, yRow);
      ScanSkip(rs, m, us, uvi, from, yi);
      if yi < high {
        ghost var before := yuvRun[..count];
        var low := yi;
        yi := LumaEnd(yuv, base, yi + 1, high, yLow, true, yRow);
        ScanRun(rs, m, us, uvi, low, yi);
        ScanRoom(rs + [Interval(low, yi)], m, us, uvi, yi);
        yuvRun[count] := YuvRun(0, low, yi);
        assert yuvRun[..count + 1] == before + [YuvRun(0, low, yi)];
        YuvTrackedMore(before, rs, low, yi);
        rs := rs + [Interval(low, yi)];
        count := count + 1;
      }
      if yi >= high {
        uvi := uvi + 1;
        if uvi >= uvRunCount {
          ScanEnd(uv, yRow, yLow, rs, us);
          break;
        }
        ScanNext(uv, yRow, yLow, rs, us, uvi - 1);
        UvTrackedAt(uvRun[..uvRunCount], us, uvi);
        yi := uvRun[uvi].low;
      }
    }
  }

  lemma NoRunsTracked()
    ensures YuvTracked([], [])
  {
  }

  lemma UvTrackedSize(uv: seq<UvRun>, rs: seq<Interval>)
    requires UvTracked(uv, rs)
    ensures |uv| == |rs|
  {
  }

  lemma ScanStart(uv: seq<bool>, yRow: seq<byte>, yLow: byte, us: seq<Interval>)
    requires |uv| == |yRow| && Covers(us, uv, |uv|) && us != []
    ensures us[0].low < us[0].high <= |uv| && ScanOk([], RowMask(uv, yRow, yLow), us, 0, us[0].low)
  {
  }

  lemma ScanEnd(uv: seq<bool>, yRow: seq<byte>, yLow: byte, rs: seq<Interval>, us: seq<Interval>)
    requires |uv| == |yRow| && Covers(us, uv, |uv|) && us != []
    requires ScanOk(rs, RowMask(uv, yRow, yLow), us, |us| - 1, us[|us| - 1].high)
    ensures Covers(rs, RowMask(uv, yRow, yLow), |uv|)
  {
  }

  /** The runs found so far leave room in an array of half as many slots as columns. */
  lemma ScanRoom(rs: seq<Interval>, m: seq<bool>, us: seq<Interval>, k: nat, yi: nat)
    requires ScanOk(rs, m, us, k, yi)
    ensures |rs| <= (|m| + 1) / 2
  {
    CoversAtMostHalf(rs, m, yi);
  }
}
