/** Blob_Stats and the rolling updates of detect_color_blobs.c, lines 64-112. */
module BlobStats {
  import opened Words
  import opened Folds

  /** A horizontal run of pixels, columns low (included) to high (excluded) of one row. */
  datatype Run = Run(row: int, low: int, high: int) {
    predicate WellFormed() {
      0 <= row < 0x1_0000 && 0 <= low < high < 0x1_0000
    }
  }

  function Row(r: Run): int { r.row }
  function Low(r: Run): int { r.low }
  function Last(r: Run): int { r.high - 1 }
  function Width(r: Run): int { r.high - r.low }
  function WeightX(r: Run): int { (r.low + r.high - 1) * (r.high - r.low) / 2 }
  function WeightY(r: Run): int { r.row * (r.high - r.low) }

  datatype BlobStats = BlobStats(minX: u16, maxX: u16, minY: u16, maxY: u16, sumX: int, sumY: int, count: int)

  function StatsInit(row: u16, low: u16, high: u16): BlobStats
    requires low < high
  {
    BlobStats(low, high - 1, row, row, (low + high - 1) * (high - low) / 2, row * (high - low), high - low)
  }

  /** The code's update: the guard on the last row compares with min_y (line 95). */
  function StatsAddSingleton(st: BlobStats, row: u16, low: u16, high: u16): BlobStats
    requires low < high
  {
    var minX := if low < st.minX then low else st.minX;
    var maxX := if high - 1 > st.maxX then high - 1 else st.maxX;
    var minY := if row < st.minY then row else st.minY;
    var maxY := if row > minY then row else st.maxY;
    BlobStats(minX, maxX, minY, maxY,
              st.sumX + (low + high - 1) * (high - low) / 2, st.sumY + row * (high - low), st.count + (high - low))
  }

  /** The same update with the guard of line 95 comparing with max_y. */
  function StatsAddSingletonMaxGuard(st: BlobStats, row: u16, low: u16, high: u16): BlobStats
    requires low < high
  {
    StatsAddSingleton(st, row, low, high).(maxY := if row > st.maxY then row else st.maxY)
  }

  function StatsAdd(a: BlobStats, b: BlobStats): BlobStats {
    BlobStats(if b.minX < a.minX then b.minX else a.minX,
              if b.maxX > a.maxX then b.maxX else a.maxX,
              if b.minY < a.minY then b.minY else a.minY,
              if b.maxY > a.maxY then b.maxY else a.maxY,
              a.sumX + b.sumX, a.sumY + b.sumY, a.count + b.count)
  }

  /** The bottom row is recorded exactly or one row short. */
  ghost predicate BottomWithinOne(s: set<Run>, maxY: int) {
    (exists r :: r in s && maxY <= r.row) && forall r :: r in s ==> r.row <= maxY + 1
  }

  ghost predicate SumsDescribe(st: BlobStats, s: set<Run>) {
    st.count == Sum(Width, s) && st.sumX == Sum(WeightX, s) && st.sumY == Sum(WeightY, s)
  }

  ghost predicate SidesDescribe(st: BlobStats, s: set<Run>) {
    IsLeast(Low, s, st.minX) && IsGreatest(Last, s, st.maxX) && IsLeast(Row, s, st.minY)
  }

  /** The statistics st are those of the set of runs s, up to the slack in the bottom row. */
  ghost predicate Describes(st: BlobStats, s: set<Run>) {
    SumsDescribe(st, s) && SidesDescribe(st, s) && st.minY <= st.maxY && BottomWithinOne(s, st.maxY)
  }

  lemma InitDescribes(r: Run)
    requires r.WellFormed()
    ensures Describes(StatsInit(r.row, r.low, r.high), {r})
    ensures IsGreatest(Row, {r}, StatsInit(r.row, r.low, r.high).maxY)
  {
  }

  lemma SingletonSums(st: BlobStats, s: set<Run>, r: Run)
    requires r.WellFormed() && r !in s && SumsDescribe(st, s)
    ensures SumsDescribe(StatsAddSingleton(st, r.row, r.low, r.high), s + {r})
  {
    SumInsert(Width, s, r);
    SumInsert(WeightX, s, r);
    SumInsert(WeightY, s, r);
  }

  lemma SingletonSides(st: BlobStats, s: set<Run>, r: Run)
    requires r.WellFormed() && SidesDescribe(st, s)
    ensures SidesDescribe(StatsAddSingleton(st, r.row, r.low, r.high), s + {r})
  {
  }

  /** A singleton no more than one row above the rest keeps the statistics right and the bottom within one row. */
  lemma SingletonDescribes(st: BlobStats, s: set<Run>, r: Run)
    requires r.WellFormed() && r !in s && Describes(st, s)
    requires forall q :: q in s ==> q.row <= r.row + 1
    ensures Describes(StatsAddSingleton(st, r.row, r.low, r.high), s + {r})
  {
    SingletonSums(st, s, r);
    SingletonSides(st, s, r);
    var after := StatsAddSingleton(st, r.row, r.low, r.high);
    var deep :| deep in s && st.maxY <= deep.row;
    assert deep in s + {r} && r in s + {r};
    var top :| top in s && Row(top) == st.minY;
    assert top.row <= st.maxY + 1;
  }

  lemma AddDescribes(a: BlobStats, s: set<Run>, b: BlobStats, t: set<Run>)
    requires s !! t && Describes(a, s) && Describes(b, t)
    ensures Describes(StatsAdd(a, b), s + t)
  {
    SumUnion(Width, s, t);
    SumUnion(WeightX, s, t);
    SumUnion(WeightY, s, t);
    LeastOfUnion(Low, s, t, a.minX, b.minX);
    GreatestOfUnion(Last, s, t, a.maxX, b.maxX);
    LeastOfUnion(Row, s, t, a.minY, b.minY);
    var x :| x in s && a.maxY <= x.row;
    var y :| y in t && b.maxY <= y.row;
    assert x in s + t && y in s + t;
  }

  /** From an exact box, the code's update is exact if and only if the row is not strictly inside the box. */
  lemma SingletonBottomExactIff(st: BlobStats, s: set<Run>, r: Run)
    requires r.WellFormed() && SidesDescribe(st, s) && IsGreatest(Row, s, st.maxY)
    ensures IsGreatest(Row, s + {r}, StatsAddSingleton(st, r.row, r.low, r.high).maxY)
            <==> !(st.minY < r.row < st.maxY)
  {
    assert r in {r};
    GreatestOfUnion(Row, s, {r}, st.maxY, r.row);
    var deep :| deep in s && Row(deep) == st.maxY;
    assert deep in s + {r};
  }

  /** With the guard of line 95 on max_y the box stays exact, whatever the order of the runs. */
  lemma MaxGuardKeepsBottomExact(st: BlobStats, s: set<Run>, r: Run)
    requires r.WellFormed() && IsGreatest(Row, s, st.maxY)
    ensures IsGreatest(Row, s + {r}, StatsAddSingletonMaxGuard(st, r.row, r.low, r.high).maxY)
  {
  }

  /** Merging two exact boxes is exact. */
  lemma AddKeepsBottomExact(a: BlobStats, s: set<Run>, b: BlobStats, t: set<Run>)
    requires IsGreatest(Row, s, a.maxY) && IsGreatest(Row, t, b.maxY)
    ensures IsGreatest(Row, s + t, StatsAdd(a, b).maxY)
  {
  }

  /** A column of two runs, a run below them, then a late run beside the second: the recorded bottom is
      row 1, the true bottom is row 2. */
  lemma BottomOneShortWitness()
    ensures var top, left, right, bottom := Run(0, 0, 1), Run(1, 0, 1), Run(1, 2, 3), Run(2, 0, 3);
            var st := StatsAddSingleton(
                        StatsAddSingleton(StatsAddSingleton(StatsInit(0, 0, 1), 1, 0, 1), 2, 0, 3), 1, 2, 3);
            Describes(st, {top, left, bottom, right}) && st.maxY == 1 &&
            IsGreatest(Row, {top, left, bottom, right}, 2)
  {
    var top, left, right, bottom := Run(0, 0, 1), Run(1, 0, 1), Run(1, 2, 3), Run(2, 0, 3);
    InitDescribes(top);
    var s1 := StatsInit(0, 0, 1);
    SingletonDescribes(s1, {top}, left);
    var s2 := StatsAddSingleton(s1, 1, 0, 1);
    SingletonDescribes(s2, {top} + {left}, bottom);
    var s3 := StatsAddSingleton(s2, 2, 0, 3);
    SingletonDescribes(s3, {top} + {left} + {bottom}, right);
    var all := {top} + {left} + {bottom} + {right};
    assert all == {top, left, bottom, right};
    assert bottom in all;
  }
}
