/** The Huffman tables of the autofocus plugin (processJPEG_onlyCenter.c): how they are built from a
    DHT segment (ITU-T T.81, Annex C), and how a code is looked up in the next 32 bits of the stream. */
module Huffman {
  import opened Words

  const WORD := 0x1_0000_0000

  // ----- Bitwise and -----

  /** The operator &, bit by bit. */
  function And(a: nat, b: nat): nat
    decreases a
  {
    if a == 0 then 0 else 2 * And(a / 2, b / 2) + (a % 2) * (b % 2)
  }

  lemma {:induction false} AndAllOnes(a: nat, n: nat)
    requires a < Pow2(n)
    ensures And(a, Pow2(n) - 1) == a
    decreases n
  {
    if a > 0 {
      assert n > 0;
      assert (Pow2(n) - 1) / 2 == Pow2(n - 1) - 1 && (Pow2(n) - 1) % 2 == 1;
      AndAllOnes(a / 2, n - 1);
    }
  }

  lemma ModHalf(a: nat, p: nat)
    requires p > 0
    ensures a % (2 * p) == 2 * (a / 2 % p) + a % 2
  {
    var h := a / 2;
    var q, r := h / p, h % p;
    assert h == q * p + r;
    assert a == q * (2 * p) + (2 * r + a % 2);
    DivModUnique(a, 2 * p, q, 2 * r + a % 2);
  }

  lemma AndDouble(a: nat, m: nat)
    ensures And(a, 2 * m) == 2 * And(a / 2, m)
  {
    var b := 2 * m;
    assert b / 2 == m && b % 2 == 0;
    assert (a % 2) * (b % 2) == 0;
    if a > 0 { assert And(a, b) == 2 * And(a / 2, b / 2) + (a % 2) * (b % 2); }
  }

  /** len ones, shifted left by k. */
  function TopMask(len: nat, k: nat): (m: nat)
    ensures m == Pow2(len + k) - Pow2(k)
  {
    if k == 0 then Pow2(len) - 1 else 2 * TopMask(len, k - 1)
  }

  /** It keeps the top len bits of a len + k bit word. */
  lemma {:induction false} AndTopBits(a: nat, len: nat, k: nat)
    requires a < Pow2(len + k)
    ensures And(a, TopMask(len, k)) == a - a % Pow2(k)
    decreases k
  {
    if k == 0 {
      AndAllOnes(a, len);
    } else {
      AndDouble(a, TopMask(len, k - 1));
      AndTopBits(a / 2, len, k - 1);
      ModHalf(a, Pow2(k - 1));
    }
  }

  // ----- Code lengths and code space -----

  function Repeat(v: nat, n: nat): (s: seq<nat>)
    ensures |s| == n && forall i :: 0 <= i < n ==> s[i] == v
  {
    seq(n, i => v)
  }

  /** The lengths of the codes, shortest first: counts[i] codes of length i + 1. */
  function Lengths(counts: seq<byte>): seq<nat> {
    if counts == [] then [] else Lengths(counts[..|counts| - 1]) + Repeat(|counts|, counts[|counts| - 1])
  }

  /** The share of the 32-bit words that begin with a code of this length. */
  function Share(len: nat): nat
    requires len <= 32
  {
    Pow2(32 - len)
  }

  ghost predicate LengthsOk(lens: seq<nat>) {
    (forall i :: 0 <= i < |lens| ==> 1 <= lens[i] <= 16) && forall i, j :: 0 <= i < j < |lens| ==> lens[i] <= lens[j]
  }

  /** Where the words of code k start: after the shares of all codes before it. */
  ghost function StartOf(lens: seq<nat>, k: nat): nat
    requires k <= |lens| && LengthsOk(lens)
  {
    if k == 0 then 0 else StartOf(lens, k - 1) + Share(lens[k - 1])
  }

  /** The Kraft sum is at most 1. */
  ghost predicate Kraft(lens: seq<nat>)
    requires LengthsOk(lens)
  {
    StartOf(lens, |lens|) <= WORD
  }

  lemma {:induction false} LengthsAreOk(counts: seq<byte>)
    requires |counts| <= 16
    ensures LengthsOk(Lengths(counts)) && forall i :: 0 <= i < |Lengths(counts)| ==> Lengths(counts)[i] <= |counts|
  {
    if counts != [] {
      LengthsAreOk(counts[..|counts| - 1]);
    }
  }

  lemma {:induction false} StartOfMono(lens: seq<nat>, j: nat, k: nat)
    requires LengthsOk(lens) && j <= k <= |lens|
    ensures StartOf(lens, j) <= StartOf(lens, k)
    decreases k
  {
    if j < k { StartOfMono(lens, j, k - 1); }
  }

  lemma Distribute(a: int, b: int, c: int)
    ensures (a + b) * c == a * c + b * c
  {
  }

  /** A code starts at a multiple of its share. */
  lemma {:induction false} StartOfAligned(lens: seq<nat>, k: nat, len: nat) returns (q: nat)
    requires LengthsOk(lens) && k <= |lens| && len <= 16 && forall i :: 0 <= i < k ==> lens[i] <= len
    ensures StartOf(lens, k) == q * Share(len)
  {
    if k == 0 {
      q := 0;
    } else {
      var p := StartOfAligned(lens, k - 1, len);
      var d := len - lens[k - 1];
      Pow2Sum(d, 32 - len);
      assert Share(lens[k - 1]) == Pow2(d) * Share(len);
      q := p + Pow2(d);
      Distribute(p, Pow2(d), Share(len));
    }
  }

  // ----- The table -----

  /** One row of the dht_lookup arrays. */
  datatype Entry = Entry(code: byte, bits: u32, mask: u32, bitlen: nat)

  /** The entry of code value v and length len. */
  function EntryFor(code: byte, v: nat, len: nat): Entry
    requires 1 <= len <= 16
  {
    Pow2Values();
    Entry(code, (v * Pow2(32 - len)) % WORD, TopMask(len, 32 - len), len)
  }

  /** Entry k holds symbol k, its length, the mask of that many top bits, and as its bits the start of
      its share of the words. */
  ghost predicate EntryIs(e: Entry, symbols: seq<byte>, lens: seq<nat>, k: nat)
    requires k < |lens| && |symbols| >= |lens| && LengthsOk(lens)
  {
    e.code == symbols[k] && e.bitlen == lens[k] &&
    e.mask == TopMask(lens[k], 32 - lens[k]) && e.bits == StartOf(lens, k) % WORD
  }

  ghost predicate IsTable(t: seq<Entry>, symbols: seq<byte>, lens: seq<nat>) {
    LengthsOk(lens) && |t| == |lens| <= |symbols| && forall k :: 0 <= k < |t| ==> EntryIs(t[k], symbols, lens, k)
  }

  /** The comparison of the search loop. */
  predicate Matches(e: Entry, data: u32) {
    And(data, e.mask) == e.bits
  }

  /** Codes own consecutive disjoint intervals of words starting at 0, and match exactly these. */
  lemma MatchesItsShare(t: seq<Entry>, symbols: seq<byte>, lens: seq<nat>, k: nat, data: u32)
    requires IsTable(t, symbols, lens) && Kraft(lens) && k < |t|
    ensures Matches(t[k], data) <==> StartOf(lens, k) <= data < StartOf(lens, k + 1)
    ensures StartOf(lens, k + 1) == StartOf(lens, k) + Share(lens[k]) <= WORD
  {
    hide Pow2, And, TopMask, Lengths;
    var len, start := lens[k], StartOf(lens, k);
    var p := Share(len);
    assert EntryIs(t[k], symbols, lens, k);
    StartOfMono(lens, k + 1, |lens|);
    assert StartOf(lens, k + 1) == start + p;
    assert start % WORD == start;
    var q := StartOfAligned(lens, k, len);
    Pow2Values();
    AndTopBits(data, len, 32 - len);
    ShareOfWord(data, p, q);
  }

  lemma ShareOfWord(data: nat, p: nat, q: nat)
    requires p > 0
    ensures data - data % p == q * p <==> q * p <= data < q * p + p
  {
    if q * p <= data < q * p + p {
      DivModUnique(data, p, q, data - q * p);
    }
  }

  /** No word matches two codes: the codes are prefix-free. */
  lemma PrefixFree(t: seq<Entry>, symbols: seq<byte>, lens: seq<nat>, j: nat, k: nat, data: u32)
    requires IsTable(t, symbols, lens) && Kraft(lens) && j < k < |t|
    ensures !(Matches(t[j], data) && Matches(t[k], data))
  {
    MatchesItsShare(t, symbols, lens, j, data);
    MatchesItsShare(t, symbols, lens, k, data);
    StartOfMono(lens, j + 1, k);
  }

  /** The result of the search: the first matching entry, but never the last of the table, because the
      test for the end of the table comes before the test for success. */
  ghost predicate Finds(t: seq<Entry>, data: u32, k: int) {
    0 <= k < |t| - 1 && Matches(t[k], data) && forall j :: 0 <= j < k ==> !Matches(t[j], data)
  }

  lemma OthersDoNotMatch(t: seq<Entry>, symbols: seq<byte>, lens: seq<nat>, k: nat, i: nat, data: u32)
    requires IsTable(t, symbols, lens) && Kraft(lens) && k < |t| && i < |t| && i != k && Matches(t[k], data)
    ensures !Matches(t[i], data)
  {
    if i < k {
      PrefixFree(t, symbols, lens, i, k, data);
    } else {
      PrefixFree(t, symbols, lens, k, i, data);
    }
  }

  /** For every word that begins with code k the search finds entry k and no other, if and only if
      code k is not the last one of the table; a word that begins with the last code is not decoded. */
  lemma SearchDecodes(t: seq<Entry>, symbols: seq<byte>, lens: seq<nat>, k: nat, data: u32)
    requires IsTable(t, symbols, lens) && Kraft(lens) && k < |t|
    requires StartOf(lens, k) <= data < StartOf(lens, k + 1)
    ensures forall i :: Finds(t, data, i) ==> i == k
    ensures Finds(t, data, k) <==> k + 1 < |t|
    ensures t[k].code == symbols[k] && t[k].bitlen == lens[k]
  {
    MatchesItsShare(t, symbols, lens, k, data);
    assert EntryIs(t[k], symbols, lens, k);
    forall i | 0 <= i < |t| && i != k
      ensures !Matches(t[i], data)
    {
      OthersDoNotMatch(t, symbols, lens, k, i, data);
    }
  }

  /** The table of the codes 0 and 10: every word that begins with 10 matches the second entry, and the
      search finds nothing. */
  lemma LastCodeIsLost(t: seq<Entry>, symbols: seq<byte>, data: u32, i: int)
    requires IsTable(t, symbols, [1, 2]) && 0x8000_0000 <= data < 0xC000_0000
    ensures Matches(t[1], data) && !Finds(t, data, i)
  {
    var lens: seq<nat> := [1, 2];
    Pow2Values();
    assert Pow2(31) == 0x8000_0000 && Pow2(30) == 0x4000_0000;
    assert StartOf(lens, 0) == 0;
    assert StartOf(lens, 1) == 0x8000_0000;
    assert StartOf(lens, 2) == 0xC000_0000;
    MatchesItsShare(t, symbols, lens, 1, data);
    SearchDecodes(t, symbols, lens, 1, data);
  }

  /** The shift after a successful search drops the code and nothing else. */
  lemma ShiftDropsCode(lens: seq<nat>, k: nat, data: u32)
    requires LengthsOk(lens) && k < |lens| && StartOf(lens, k) <= data < StartOf(lens, k + 1)
    ensures (data * Pow2(lens[k])) % WORD == (data - StartOf(lens, k)) * Pow2(lens[k])
  {
    var len, start := lens[k], StartOf(lens, k);
    assert StartOf(lens, k + 1) == start + Share(len);
    var q := StartOfAligned(lens, k, len);
    ShareTimesPower(len);
    hide *;
    ShiftOut(q, data - start, Share(len), Pow2(len));
    assert data == q * Share(len) + (data - start);
  }

  lemma ShareTimesPower(len: nat)
    requires len <= 32
    ensures Share(len) * Pow2(len) == WORD
  {
    hide Pow2;
    Pow2Values();
    Pow2Sum(len, 32 - len);
  }

  lemma ShiftOut(q: nat, tail: nat, p: nat, m: nat)
    requires p * m == WORD && tail < p && m > 0
    ensures ((q * p + tail) * m) % WORD == tail * m
  {
    Distribute(q * p, tail, m);
    assert (q * p) * m == q * (p * m);
    assert (p - tail) * m == p * m - tail * m && (p - tail) * m > 0;
    DivModUnique((q * p + tail) * m, WORD, q, tail * m);
  }

  /** A word that begins with no code is not decoded. */
  lemma SearchFails(t: seq<Entry>, symbols: seq<byte>, lens: seq<nat>, data: u32, i: int)
    requires IsTable(t, symbols, lens) && Kraft(lens) && data >= StartOf(lens, |t|)
    ensures !Finds(t, data, i)
  {
    if 0 <= i < |t| {
      MatchesItsShare(t, symbols, lens, i, data);
      StartOfMono(lens, i + 1, |t|);
    }
  }

  // ----- The builder and the search, in place -----

  /** How many codes have at most i bits. */
  function Offset(counts: seq<byte>, i: nat): nat
    requires i <= |counts|
  {
    |Lengths(counts[..i])|
  }

  /** The codes of length i come after all shorter ones. */
  lemma {:induction false} LengthAt(counts: seq<byte>, i: nat, m: nat)
    requires 1 <= i <= |counts|
    ensures Offset(counts, i) == Offset(counts, i - 1) + counts[i - 1] <= |Lengths(counts)|
    ensures m < counts[i - 1] ==> Lengths(counts)[Offset(counts, i - 1) + m] == i
    decreases |counts|
  {
    var front := counts[..|counts| - 1];
    assert counts[..i][..i - 1] == counts[..i - 1];
    if i == |counts| {
      assert counts[..i] == counts;
    } else {
      LengthAt(front, i, m);
      assert front[..i] == counts[..i] && front[..i - 1] == counts[..i - 1];
    }
  }

  const MAX_CODES := 162

  class HuffmanTable {
    /** The rows of dht_lookup_code, _bits, _mask and _bitlen, and dht_lookup_size. */
    const entry: array<Entry>
    var size: nat

    ghost predicate Valid()
      reads this
    {
      entry.Length == MAX_CODES && size <= MAX_CODES
    }

    ghost function Rows(): seq<Entry>
      requires Valid()
      reads this, entry
    {
      entry[..size]
    }

    constructor ()
      ensures Valid() && fresh(entry)
    {
      entry := new Entry[MAX_CODES];
      size := 0;
    }

    /** The loop over the codes of one length. */
    method AddCodes(iLen: nat, count: byte, buffer: seq<byte>, symbols: nat, first: nat, firstVal: nat,
                    ghost lens: seq<nat>)
        returns (tableInd: nat, codeVal: nat)
      requires Valid() && LengthsOk(lens) && |lens| <= MAX_CODES && symbols + |lens| <= |buffer|
      requires 1 <= iLen <= 16 && first + count <= |lens|
      requires forall m :: first <= m < first + count ==> lens[m] == iLen
      requires firstVal * Share(iLen) == StartOf(lens, first)
      requires forall k: nat :: k < first ==> EntryIs(entry[k], buffer[symbols..], lens, k)
      modifies entry
      ensures tableInd == first + count && codeVal * Share(iLen) == StartOf(lens, tableInd)
      ensures forall k: nat :: k < tableInd ==> EntryIs(entry[k], buffer[symbols..], lens, k)
    {
      hide Pow2, TopMask, Lengths;
      tableInd, codeVal := first, firstVal;
      var indCode := 0;
      while indCode < count
        invariant indCode <= count && tableInd == first + indCode
        invariant codeVal * Share(iLen) == StartOf(lens, tableInd)
        invariant forall k: nat :: k < tableInd ==> EntryIs(entry[k], buffer[symbols..], lens, k)
      {
        entry[tableInd] := EntryFor(buffer[symbols + tableInd], codeVal, iLen);
        assert EntryIs(entry[tableInd], buffer[symbols..], lens, tableInd);
        Distribute(codeVal, 1, Share(iLen));
        tableInd, codeVal, indCode := tableInd + 1, codeVal + 1, indCode + 1;
      }
    }

    /** The construction of one table from its 16 counts at pos and the symbols after them; the
        returned position is that of the next table in the segment. */
    method Build(buffer: seq<byte>, pos: nat) returns (pos2: nat)
      requires Valid() && pos + 16 <= |buffer|
      requires var n := |Lengths(buffer[pos..pos + 16])|; n <= MAX_CODES && pos + 16 + n <= |buffer|
      modifies this, entry
      ensures Valid() && pos2 == pos + 16 + size
      ensures IsTable(Rows(), buffer[pos + 16..], Lengths(buffer[pos..pos + 16]))
      ensures forall k: nat :: k < size ==> entry[k].code == buffer[pos + 16 + k]
    {
      hide EntryIs, Lengths, LengthsOk, StartOf;
      ghost var counts := buffer[pos..pos + 16];
      ghost var lens := Lengths(counts);
      StartOfNothing(counts);
      var tableInd: nat, codeVal: nat := 0, 0;
      var iLen := 1;
      while iLen <= 16
        invariant Valid() && 1 <= iLen <= 17 && tableInd == Offset(counts, iLen - 1) <= |lens|
        invariant codeVal * Pow2(32 - iLen) == StartOf(lens, tableInd)
        invariant forall k: nat :: k < tableInd ==> EntryIs(entry[k], buffer[pos + 16..], lens, k)
      {
        var count := buffer[pos + iLen - 1];
        forall m | tableInd <= m < tableInd + count
          ensures m < |lens| && lens[m] == iLen
        {
          LengthAt(counts, iLen, m - tableInd);
        }
        LengthAt(counts, iLen, 0);
        tableInd, codeVal := AddCodes(iLen, count, buffer, pos + 16, tableInd, codeVal, lens);
        Doubled(codeVal, iLen);
        codeVal := codeVal * 2;
        iLen := iLen + 1;
      }
      size := tableInd;
      pos2 := pos + 16 + tableInd;
      forall k: nat | k < size
        ensures entry[k].code == buffer[pos + 16 + k]
      {
        EntryCode(entry[k], buffer[pos + 16..], lens, k);
      }
    }

    /** The search loop of readXC on the next 32 bits, and the shift past the code found: -1, leaving
        the bits alone, when the search reaches the end of the table. */
    method ReadCode(data: u32) returns (res: int, bitsUsed: nat, rest: u32)
      requires Valid()
      ensures res == -1 ==> rest == data && forall k :: !Finds(Rows(), data, k)
      ensures res != -1 ==>
                rest == (data * Pow2(bitsUsed)) % WORD &&
                exists k :: Finds(Rows(), data, k) && res == Rows()[k].code && bitsUsed == Rows()[k].bitlen
    {
      var ind := 0;
      bitsUsed, rest := 0, data;
      while true
        invariant 0 <= ind < MAX_CODES && (ind > 0 ==> ind < size)
        invariant rest == data && forall j :: 0 <= j < ind ==> !Matches(entry[j], data)
        decreases MAX_CODES - ind
      {
        var done := false;
        if And(data, entry[ind].mask) == entry[ind].bits {
          res := entry[ind].code;
          bitsUsed := entry[ind].bitlen;
          done := true;
        }
        ind := ind + 1;
        if ind >= size {
          return -1, bitsUsed, data;
        }
        if done {
          rest := (data * Pow2(bitsUsed)) % WORD;
          assert Finds(Rows(), data, ind - 1);
          return;
        }
      }
    }
  }

  lemma EntryCode(e: Entry, symbols: seq<byte>, lens: seq<nat>, k: nat)
    requires k < |lens| && |symbols| >= |lens| && LengthsOk(lens) && EntryIs(e, symbols, lens, k)
    ensures e.code == symbols[k]
  {
  }

  lemma StartOfNothing(counts: seq<byte>)
    requires |counts| <= 16
    ensures LengthsOk(Lengths(counts)) && StartOf(Lengths(counts), 0) == 0
    ensures Offset(counts, 0) == 0 && Offset(counts, |counts|) == |Lengths(counts)|
  {
    LengthsAreOk(counts);
    assert counts[..|counts|] == counts;
  }

  lemma Doubled(v: nat, len: nat)
    requires 1 <= len <= 16
    ensures (v * 2) * Pow2(32 - (len + 1)) == v * Pow2(32 - len)
  {
    var p := Pow2(32 - (len + 1));
    assert Pow2(32 - len) == 2 * p;
    assert (v * 2) * p == v * (2 * p);
  }
}
