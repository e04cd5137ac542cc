/** What a pass over a crowded mask loses: the upper run of the first union without room is never
    accounted for, because the pass comes to all its edges at once and finds the same full list. */
module LostRuns {
  import opened BlobStats
  import opened Partition
  import opened UnionLog
  import opened Sweep
  import opened Pixels
  import opened LateRuns

  // ----- The mask fixes the pass -----

  lemma {:induction false} PrefixSize(h: seq<Edge>, k: nat)
    requires InOrder(h) && k <= |h|
    ensures |EdgeSet(h[..k])| == k
  {
    if k > 0 {
      PrefixSize(h, k - 1);
      var front, e := h[..k - 1], h[k - 1];
      assert h[..k] == front + [e];
      EdgeSetMore(front, e);
      assert e !in front;
    } else {
      assert EdgeSet(h[..0]) == {};
    }
  }

  /** There is one order in which a pass comes to the edges of a mask. */
  lemma PassIsUnique(mask: set<Pixel>, g: seq<Edge>, h: seq<Edge>)
    requires IsPass(mask, g) && IsPass(mask, h)
    ensures g == h
  {
    PrefixSize(g, |g|);
    PrefixSize(h, |h|);
    assert g[..|g|] == g && h[..|h|] == h;
    forall k | 0 <= k < |h|
      ensures g[k] == h[k]
    {
      PrefixIsEarlier(mask, h, k);
      PrefixSize(h, k);
      var i := EdgeHasPlace(mask, g, h[k]);
      PrefixIsEarlier(mask, g, i);
      PrefixSize(g, i);
    }
  }

  // ----- The edges of one upper run -----

  /** Of two upper runs of a row above lower runs of the next, the left one does not reach further right. */
  lemma EdgesDoNotCross(mask: set<Pixel>, d: Edge, e: Edge)
    requires IsEdge(mask, d) && IsEdge(mask, e) && d.1.row == e.1.row
    requires d.0.low < e.0.low
    ensures d.1 == e.1 || d.1.low < e.1.low
  {
    RunsApartInRow(mask, d.0, e.0);
    if e.1.low < d.1.low { RunsApartInRow(mask, e.1, d.1); }
    if e.1.low == d.1.low { RunsAreDisjoint(mask, d.1, e.1, Pixel(e.1.low, e.1.row)); }
  }

  lemma SameLowSameRun(mask: set<Pixel>, a: Run, b: Run)
    requires IsRun(mask, a) && IsRun(mask, b) && a.row == b.row && a.low == b.low
    ensures a == b
  {
    RunsAreDisjoint(mask, a, b, Pixel(a.low, a.row));
  }

  /** Between two edges of one upper run the pass comes to no other edge. */
  lemma EdgesOfRunTogether(mask: set<Pixel>, c: Edge, d: Edge, e: Edge)
    requires IsEdge(mask, c) && IsEdge(mask, d) && IsEdge(mask, e) && c.0 == e.0
    requires Before(c, d) && Before(d, e)
    ensures d.0 == c.0
  {
    if d.0.low < c.0.low { EdgesDoNotCross(mask, d, c); }
    if d.0.low > c.0.low { EdgesDoNotCross(mask, e, d); }
    if d.0.low == c.0.low { SameLowSameRun(mask, d.0, c.0); }
  }

  /** The lower runs of later edges of the upper run of c have been in no union before c. */
  lemma LaterLowerIsNew(mask: set<Pixel>, c: Edge, e: Edge)
    requires IsEdge(mask, c) && IsEdge(mask, e) && c.0 == e.0 && Before(c, e) && BothNew(Earlier(mask, c), c)
    ensures BothNew(Earlier(mask, c), e)
  {
    forall d | d in Earlier(mask, c)
      ensures d.0 != e.1 && d.1 != e.1
    {
      MaskEdgesHas(mask, d);
      LaterLowerNotIn(mask, c, d, e);
    }
  }

  lemma LaterLowerNotIn(mask: set<Pixel>, c: Edge, d: Edge, e: Edge)
    requires IsEdge(mask, c) && IsEdge(mask, d) && IsEdge(mask, e) && c.0 == e.0 && Before(d, c) && Before(c, e)
    ensures d.0 != e.1 && d.1 != e.1
  {
    if d.1 == e.1 { EdgesDoNotCross(mask, d, c); }
  }

  // ----- The first union without room -----

  /** Before place k all unions were carried out; the one at k finds no room. */
  ghost predicate FirstRefusal(h: seq<Edge>, k: nat, sets: int, places: int) {
    k < |h| && CrowdedAt(h, k, sets, places) && Carried(h[..k], sets, places) == h[..k]
  }

  lemma {:induction false} FirstRefusalExists(h: seq<Edge>, sets: int, places: int) returns (k: nat)
    requires Crowded(h, sets, places)
    ensures FirstRefusal(h, k, sets, places)
  {
    hide NoRoom;
    var front, e := h[..|h| - 1], h[|h| - 1];
    assert front + [e] == h;
    if Crowded(front, sets, places) {
      k := FirstRefusalExists(front, sets, places);
      assert front[..k] == h[..k];
    } else {
      k := |h| - 1;
      CrowdedMore(front, e, sets, places);
      AllCarriedIff(front, sets, places);
    }
  }

  /** The edge at place j is one more of the upper run of the edge at place k. */
  ghost predicate SameUpper(h: seq<Edge>, k: nat, j: nat) {
    k <= j <= |h| && forall i :: k <= i < j ==> h[i].0 == h[k].0
  }

  lemma StillNoRoom(before: set<Edge>, starts: nat, c: Edge, e: Edge, sets: int, places: int)
    requires NoRoom(before, starts, c, sets, places) && BothNew(before, e)
    ensures NoRoom(before, starts, e, sets, places)
  {
  }

  lemma LaterIsNew(mask: set<Pixel>, h: seq<Edge>, k: nat, j: nat, sets: int, places: int)
    requires IsPass(mask, h) && k <= j < |h| && CrowdedAt(h, k, sets, places) && h[j].0 == h[k].0
    ensures BothNew(EdgeSet(h[..k]), h[j])
  {
    PrefixIsEarlier(mask, h, k);
    PrefixIsEarlier(mask, h, j);
    MaskEdgesHas(mask, h[k]);
    MaskEdgesHas(mask, h[j]);
    assert k < j ==> Before(h[k], h[j]);
    hide IsPass, BothNew, Earlier, MaskEdges, EdgeSet, IsEdge;
    assert BothNew(EdgeSet(h[..k]), h[k]);
    if j > k { LaterLowerIsNew(mask, h[k], h[j]); }
  }

  lemma OneMoreRefused(mask: set<Pixel>, h: seq<Edge>, k: nat, j: nat, sets: int, places: int)
    requires IsPass(mask, h) && FirstRefusal(h, k, sets, places) && k <= j < |h| && h[j].0 == h[k].0
    requires Carried(h[..j], sets, places) == h[..k]
    ensures Carried(h[..j + 1], sets, places) == h[..k]
  {
    hide IsPass, Carried, NoRoom, BothNew, EdgeSet, Starts;
    LaterIsNew(mask, h, k, j, sets, places);
    StillNoRoom(EdgeSet(h[..k]), Starts(h[..k]), h[k], h[j], sets, places);
    assert h[..j + 1] == h[..j] + [h[j]];
    CarriedMore(h[..j], h[j], sets, places);
  }

  lemma UpperNotLower(mask: set<Pixel>, h: seq<Edge>, k: nat, j: nat)
    requires IsPass(mask, h) && k <= j < |h|
    ensures h[j].1 != h[k].0
  {
    assert h[j] in EdgeSet(h) && h[k] in EdgeSet(h);
    MaskEdgesHas(mask, h[j]);
    MaskEdgesHas(mask, h[k]);
    assert k < j ==> Before(h[k], h[j]);
  }

  lemma StillSameUpper(mask: set<Pixel>, h: seq<Edge>, k: nat, j: nat)
    requires IsPass(mask, h) && k <= j < |h| && h[j].0 == h[k].0
    ensures SameUpper(h, k, j)
  {
    forall i | k <= i < j
      ensures h[i].0 == h[k].0
    {
      assert h[i] in EdgeSet(h) && h[j] in EdgeSet(h) && h[k] in EdgeSet(h);
      MaskEdgesHas(mask, h[i]);
      MaskEdgesHas(mask, h[j]);
      MaskEdgesHas(mask, h[k]);
      assert Before(h[i], h[j]) && (k < i ==> Before(h[k], h[i]));
      if k < i { EdgesOfRunTogether(mask, h[k], h[i], h[j]); }
    }
  }

  lemma UntouchedMore(edges: set<Edge>, e: Edge, a: Run)
    requires !Touches(edges, a) && e.0 != a && e.1 != a
    ensures !Touches(edges + {e}, a)
  {
  }

  /** After the first refusal its upper run stays out of every union. */
  lemma {:induction false} NeverCarried(mask: set<Pixel>, h: seq<Edge>, k: nat, j: nat, sets: int, places: int)
    requires IsPass(mask, h) && FirstRefusal(h, k, sets, places) && k <= j <= |h|
    ensures !Touches(EdgeSet(Carried(h[..j], sets, places)), h[k].0)
    ensures SameUpper(h, k, j) ==> Carried(h[..j], sets, places) == h[..k]
    decreases j
  {
    hide IsPass, Touches, EdgeSet, Carried;
    if j == k {
      RefusedIsNew(h, k, sets, places);
    } else {
      var e, before := h[j - 1], Carried(h[..j - 1], sets, places);
      NeverCarried(mask, h, k, j - 1, sets, places);
      if e.0 == h[k].0 {
        StillSameUpper(mask, h, k, j - 1);
        OneMoreRefused(mask, h, k, j - 1, sets, places);
        RefusedIsNew(h, k, sets, places);
      } else {
        UpperNotLower(mask, h, k, j - 1);
        assert h[..j] == h[..j - 1] + [e];
        CarriedMore(h[..j - 1], e, sets, places);
        EdgeSetMore(before, e);
        UntouchedMore(EdgeSet(before), e, h[k].0);
      }
    }
  }

  lemma RefusedIsNew(h: seq<Edge>, k: nat, sets: int, places: int)
    requires FirstRefusal(h, k, sets, places)
    ensures Carried(h[..k], sets, places) == h[..k] && !Touches(EdgeSet(h[..k]), h[k].0)
  {
  }

  /** A pass over a crowded mask leaves the upper run of some edge out of every union. */
  lemma CrowdedLosesRun(mask: set<Pixel>, h: seq<Edge>, sets: int, places: int) returns (e: Edge)
    requires IsPass(mask, h) && CrowdedMask(mask, sets, places)
    ensures IsEdge(mask, e) && !Touches(EdgeSet(Carried(h, sets, places)), e.0)
  {
    CrowdedIff(mask, h, sets, places);
    hide CrowdedMask, Crowded, Touches, Carried;
    var k := FirstRefusalExists(h, sets, places);
    NeverCarried(mask, h, k, |h|, sets, places);
    assert h[..|h|] == h;
    PrefixIsEarlier(mask, h, k);
    MaskEdgesHas(mask, h[k]);
    e := h[k];
  }
}
