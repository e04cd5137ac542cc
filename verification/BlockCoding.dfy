/** Blocks of 64 DCT coefficients at the level of Huffman symbols: the run/size coding of ITU-T T.81,
    sections F.1.2.1 and F.1.2.2, and readTable of processJPEG_onlyCenter.c, which decodes it. */
module BlockCoding {
  import opened Options
  import opened Words

  /** A decoded Huffman symbol and the bits that follow it in the stream. */
  datatype Symbol = Symbol(comb: byte, extra: nat)

  // ----- Values and their sizes -----

  /** The number of bits of a magnitude. */
  function Category(m: nat): nat {
    if m == 0 then 0 else 1 + Category(m / 2)
  }

  function Abs(v: int): nat { if v < 0 then -v else v }

  /** The low-order bits sent for a value: those of v, or of v - 1 if v is negative. */
  function BitsOf(v: int): int {
    if v > 0 then v else v + Pow2(Category(Abs(v))) - 1
  }

  /** The macro HUFF_EXTEND; its shift is undefined for size 0, which stands for the value 0. */
  function HuffExtend(x: int, s: nat): int {
    if s == 0 then 0 else if x < Pow2(s - 1) then x - Pow2(s) + 1 else x
  }

  lemma {:induction false} CategoryBounds(m: nat)
    requires m > 0
    ensures Category(m) >= 1 && Pow2(Category(m) - 1) <= m < Pow2(Category(m))
  {
    if m > 1 { CategoryBounds(m / 2); }
  }

  lemma {:induction false} CategoryAtMost(m: nat, n: nat)
    requires m < Pow2(n)
    ensures Category(m) <= n
  {
    if m > 0 { CategoryAtMost(m / 2, n - 1); }
  }

  /** HUFF_EXTEND inverts the coding of a value in its size. */
  lemma ExtendInverts(v: int)
    ensures 0 <= BitsOf(v) < Pow2(Category(Abs(v)))
    ensures HuffExtend(BitsOf(v), Category(Abs(v))) == v
  {
    if v != 0 { CategoryBounds(Abs(v)); }
  }

  /** HUFF_EXTEND maps the numbers of s bits, in order, onto the values of size s: those of a magnitude
      from 2^(s-1) up to 2^s. */
  lemma ExtendOrders(x: int, y: int, s: nat)
    requires s >= 1 && 0 <= x < y < Pow2(s)
    ensures HuffExtend(x, s) < HuffExtend(y, s)
    ensures Pow2(s - 1) <= Abs(HuffExtend(x, s)) < Pow2(s) && Pow2(s - 1) <= Abs(HuffExtend(y, s)) < Pow2(s)
  {
    assert Pow2(s) == 2 * Pow2(s - 1);
  }

  // ----- The coder of the standard -----

  /** n zero-run symbols, 16 zeros each. */
  function Zrls(n: nat): seq<Symbol> {
    if n == 0 then [] else [Symbol(0xF0, 0)] + Zrls(n - 1)
  }

  const EOB := Symbol(0, 0)

  /** A block in zigzag order, every AC coefficient codable in at most 15 bits. */
  ghost predicate IsBlock(zz: seq<int>) {
    |zz| == 64 && forall k :: 1 <= k < 64 ==> Abs(zz[k]) < 0x8000
  }

  /** The code of coefficients k and up, r zeros having gone before. */
  function EncodeAc(zz: seq<int>, k: nat, r: nat): seq<Symbol>
    requires IsBlock(zz) && 1 <= k <= 64
    decreases 64 - k
  {
    if k == 64 then (if r > 0 then [EOB] else [])
    else if zz[k] == 0 then EncodeAc(zz, k + 1, r + 1)
    else
      Zrls(r / 16) + [SymbolOf(zz[k], r % 16)] + EncodeAc(zz, k + 1, 0)
  }

  lemma SizeFits(v: int)
    requires Abs(v) < 0x8000
    ensures Category(Abs(v)) <= 15 && BitsOf(v) >= 0
  {
    Pow2Values();
    assert Pow2(16) == 2 * Pow2(15);
    CategoryAtMost(Abs(v), 15);
    ExtendInverts(v);
  }

  // ----- The decoder -----

  datatype Result = Decoded(table: seq<int>, rest: seq<Symbol>) | Failed

  /** The AC loop of readTable from index j: -1, here Failed, when the symbols run out or more than
      63 coefficients are announced. */
  function DecodeAc(syms: seq<Symbol>, j: nat, table: seq<int>): Result
    requires |table| == 128 && j < 63 + 16
    decreases |syms|
  {
    if j >= 63 then (if j <= 63 then Decoded(table, syms) else Failed)
    else if syms == [] then Failed
    else
      var val, repeat := syms[0].comb % 16, syms[0].comb / 16;
      if val == 0 then
        if repeat == 15 then DecodeAc(syms[1..], j + 16, table) else Decoded(table, syms[1..])
      else
        DecodeAc(syms[1..], j + repeat + 1, table[j + repeat + 1 := HuffExtend(syms[0].extra % Pow2(val), val)])
  }

  lemma {:induction false} ZrlsSkip(n: nat, syms: seq<Symbol>, j: nat, table: seq<int>)
    requires |table| == 128 && j + 16 * n < 63
    ensures DecodeAc(Zrls(n) + syms, j, table) == DecodeAc(syms, j + 16 * n, table)
  {
    if n == 0 {
      assert Zrls(0) + syms == syms;
    } else {
      var all := Zrls(n) + syms;
      assert all[0] == Symbol(0xF0, 0) && all[1..] == Zrls(n - 1) + syms;
      ZrlsSkip(n - 1, syms, j + 16, table);
    }
  }

  /** The symbol of a nonzero value after r zeros, r below 16. */
  function SymbolOf(v: int, r: nat): Symbol
    requires Abs(v) < 0x8000 && r < 16
  {
    SizeFits(v);
    Symbol(16 * r + Category(Abs(v)), BitsOf(v))
  }

  lemma SymbolParts(v: int, r: nat)
    requires v != 0 && Abs(v) < 0x8000 && r < 16
    ensures var s := SymbolOf(v, r);
            s.comb % 16 != 0 && s.comb / 16 == r && HuffExtend(s.extra % Pow2(s.comb % 16), s.comb % 16) == v
  {
    hide Category, BitsOf, HuffExtend, Pow2;
    SizeFits(v);
    CategoryBounds(Abs(v));
    ExtendInverts(v);
    SmallMod(BitsOf(v), Pow2(Category(Abs(v))));
    DivModUnique(16 * r + Category(Abs(v)), 16, r, Category(Abs(v)));
  }

  lemma OneSymbol(v: int, r: nat, j: nat, syms: seq<Symbol>, table: seq<int>)
    requires v != 0 && Abs(v) < 0x8000 && r < 16 && |table| == 128 && j + r < 63
    ensures DecodeAc([SymbolOf(v, r)] + syms, j, table) == DecodeAc(syms, j + r + 1, table[j + r + 1 := v])
  {
    hide SymbolOf, HuffExtend, Pow2;
    SymbolParts(v, r);
    var all := [SymbolOf(v, r)] + syms;
    assert all[0] == SymbolOf(v, r) && all[1..] == syms;
  }

  /** One nonzero coefficient after any number of zeros. */
  lemma OneCoefficient(v: int, r: nat, j: nat, syms: seq<Symbol>, table: seq<int>)
    requires v != 0 && Abs(v) < 0x8000 && |table| == 128 && j + r < 63
    ensures DecodeAc(Zrls(r / 16) + [SymbolOf(v, r % 16)] + syms, j, table)
            == DecodeAc(syms, j + r + 1, table[j + r + 1 := v])
  {
    hide DecodeAc, SymbolOf, Zrls;
    var tail := [SymbolOf(v, r % 16)] + syms;
    assert Zrls(r / 16) + [SymbolOf(v, r % 16)] + syms == Zrls(r / 16) + tail;
    assert j + 16 * (r / 16) + r % 16 == j + r;
    ZrlsSkip(r / 16, tail, j, table);
    OneSymbol(v, r % 16, j + 16 * (r / 16), syms, table);
  }

  /** The table holds coefficients 1 up to k of the block and zeros after them. */
  ghost predicate Holds(table: seq<int>, zz: seq<int>, k: nat) {
    |table| == 128 && |zz| == 64 && k <= 64 && (forall i :: 1 <= i < k ==> table[i] == zz[i]) &&
    forall i :: k <= i < 64 && i >= 1 ==> table[i] == 0
  }

  /** A block that ends in zeros ends with an EOB, one that does not ends without. */
  lemma EndInverts(zz: seq<int>, r: nat, table: seq<int>, rest: seq<Symbol>)
    requires IsBlock(zz) && r < 64 && |table| == 128
    ensures DecodeAc(EncodeAc(zz, 64, r) + rest, 63 - r, table) == Decoded(table, rest)
  {
  }

  /** Decoding undoes coding from coefficient k on, r zeros being pending. */
  lemma {:induction false} AcInverts(zz: seq<int>, k: nat, r: nat, table: seq<int>, rest: seq<Symbol>)
      returns (t: seq<int>)
    requires IsBlock(zz) && 1 <= k <= 64 && r < k
    requires Holds(table, zz, k) && forall i :: k - r <= i < k ==> zz[i] == 0
    ensures DecodeAc(EncodeAc(zz, k, r) + rest, k - 1 - r, table) == Decoded(t, rest)
    ensures Holds(t, zz, 64) && t[0] == table[0]
    decreases 64 - k, 1
  {
    hide SymbolOf, Zrls, DecodeAc;
    if k == 64 {
      t := table;
      EndInverts(zz, r, table, rest);
    } else if zz[k] == 0 {
      t := AcInverts(zz, k + 1, r + 1, table, rest);
    } else {
      t := AcInvertsNonzero(zz, k, r, table, rest);
    }
  }

  lemma {:induction false} AcInvertsNonzero(zz: seq<int>, k: nat, r: nat, table: seq<int>, rest: seq<Symbol>)
      returns (t: seq<int>)
    requires IsBlock(zz) && 1 <= k < 64 && r < k && zz[k] != 0
    requires Holds(table, zz, k)
    ensures DecodeAc(EncodeAc(zz, k, r) + rest, k - 1 - r, table) == Decoded(t, rest)
    ensures Holds(t, zz, 64) && t[0] == table[0]
    decreases 64 - k, 0
  {
    hide SymbolOf, Zrls, DecodeAc;
    var tail := EncodeAc(zz, k + 1, 0);
    OneCoefficient(zz[k], r, k - 1 - r, tail + rest, table);
    assert EncodeAc(zz, k, r) + rest == Zrls(r / 16) + [SymbolOf(zz[k], r % 16)] + (tail + rest);
    t := AcInverts(zz, k + 1, 0, table[k := zz[k]], rest);
  }

  // ----- Whole blocks -----

  /** Difference coding of the DC coefficient, then the AC coefficients. */
  function EncodeBlock(zz: seq<int>, lastDc: int): seq<Symbol>
    requires IsBlock(zz) && Abs(zz[0] - lastDc) < 0x1_0000
  {
    Pow2Values();
    CategoryAtMost(Abs(zz[0] - lastDc), 16);
    ExtendInverts(zz[0] - lastDc);
    [Symbol(Category(Abs(zz[0] - lastDc)), BitsOf(zz[0] - lastDc))] + EncodeAc(zz, 1, 0)
  }

  /** The table after readTable has zeroed its first 64 entries. */
  function Cleared(before: seq<int>): (t: seq<int>)
    requires |before| == 128
    ensures |t| == 128 && forall i :: 0 <= i < 64 ==> t[i] == 0
  {
    seq(64, i => 0) + before[64..]
  }

  /** The DC value announced by the first symbol, whose symbol is the size of the difference. */
  function DcOf(sym: Symbol, lastDc: int): int {
    lastDc + HuffExtend(sym.extra % Pow2(sym.comb), sym.comb)
  }

  /** readTable on the symbols that remain, into a table that held before. */
  function DecodeBlock(syms: seq<Symbol>, lastDc: int, before: seq<int>): Result
    requires |before| == 128
  {
    if syms == [] then Failed else DecodeAc(syms[1..], 0, Cleared(before)[0 := DcOf(syms[0], lastDc)])
  }

  /** readTable, in place; whatever the symbols, every write is inside the 128 entries. */
  method ReadTable(syms: seq<Symbol>, lastDc: int, table: array<int>)
      returns (ok: bool, newDc: int, rest: seq<Symbol>)
    requires table.Length == 128
    modifies table
    ensures newDc == if syms == [] then lastDc
                     else lastDc + HuffExtend(syms[0].extra % Pow2(syms[0].comb), syms[0].comb)
    ensures ok == DecodeBlock(syms, lastDc, old(table[..])).Decoded?
    ensures ok ==> DecodeBlock(syms, lastDc, old(table[..])) == Decoded(table[..], rest)
  {
    hide HuffExtend, Pow2;
    ghost var before := table[..];
    var j := 0;
    while j < 64
      invariant 0 <= j <= 64 && forall i :: 0 <= i < j ==> table[i] == 0
      invariant table[64..] == before[64..]
    {
      table[j] := 0;
      j := j + 1;
    }
    assert table[..] == Cleared(before);
    rest, newDc := syms, lastDc;
    if rest == [] { return false, newDc, rest; }
    newDc := lastDc + HuffExtend(rest[0].extra % Pow2(rest[0].comb), rest[0].comb);
    table[0] := newDc;
    rest := rest[1..];
    ghost var want := DecodeAc(rest, 0, table[..]);
    j := 0;
    var eob := false;
    while j < 63 && !eob
      invariant 0 <= j < 63 + 16
      invariant want == if eob then Decoded(table[..], rest) else DecodeAc(rest, j, table[..])
      invariant eob ==> j < 63
      decreases |rest|, !eob
    {
      if rest == [] { return false, newDc, rest; }
      var comb, extra := rest[0].comb, rest[0].extra;
      rest := rest[1..];
      var val, repeat := comb % 16, comb / 16;
      if val == 0 {
        if repeat == 15 {
          j := j + 16;
        } else {
          eob := true;
        }
      } else {
        j := j + repeat;
        table[j + 1] := HuffExtend(extra % Pow2(val), val);
        j := j + 1;
      }
    }
    ok := j <= 63;
  }

  // ----- What the decoder accepts -----

  /** The end of a block: no value, and not the run of 16 zeros. */
  ghost predicate IsEnd(sym: Symbol) {
    sym.comb % 16 == 0 && sym.comb != 0xF0
  }

  /** The coefficients announced by the first n symbols: each stands for a run of zeros and the one that
      comes after it. */
  ghost function Announced(acs: seq<Symbol>, n: nat): nat
    requires n <= |acs|
  {
    if n == 0 then 0 else Announced(acs, n - 1) + (acs[n - 1].comb / 16 + 1)
  }

  /** The coefficient that symbol i announces last. */
  ghost function PlaceOf(acs: seq<Symbol>, i: nat): nat
    requires i < |acs|
  {
    Announced(acs, i + 1)
  }

  /** The first n symbols are read, each with coefficients still to come, and none of them is an end. */
  ghost predicate Reads(acs: seq<Symbol>, n: nat) {
    n <= |acs| && forall i :: 0 <= i < n ==> !IsEnd(acs[i]) && Announced(acs, i) < 63
  }

  /** After n symbols the block ends by an end symbol. */
  ghost predicate EndsBlock(acs: seq<Symbol>, n: nat) {
    Reads(acs, n) && n < |acs| && IsEnd(acs[n]) && Announced(acs, n) < 63
  }

  /** The block is whole after n symbols: 63 coefficients, or fewer and an end symbol next. */
  ghost predicate Completes(acs: seq<Symbol>, n: nat) {
    Reads(acs, n) && (Announced(acs, n) == 63 || EndsBlock(acs, n))
  }

  /** After n symbols there are more than 63 coefficients, or fewer and no symbol left. */
  ghost predicate BreaksOff(acs: seq<Symbol>, n: nat) {
    Reads(acs, n) && (Announced(acs, n) > 63 || (Announced(acs, n) < 63 && n == |acs|))
  }

  ghost function ValueOf(sym: Symbol): int {
    HuffExtend(sym.extra % Pow2(sym.comb % 16), sym.comb % 16)
  }

  /** t is the table with the value of each of the first n symbols that has one at the coefficient this
      symbol announces last, and no other change. */
  ghost predicate Filled(t: seq<int>, table: seq<int>, acs: seq<Symbol>, n: nat)
    requires n <= |acs|
  {
    && |t| == |table| == 128 && Announced(acs, n) < 128
    && (forall i :: 0 <= i < n && acs[i].comb % 16 != 0 ==>
          PlaceOf(acs, i) < 128 && t[PlaceOf(acs, i)] == ValueOf(acs[i]))
    && (forall k :: 0 <= k < 128 && !Written(acs, n, k) ==> t[k] == table[k])
  }

  ghost predicate Written(acs: seq<Symbol>, n: nat, k: int)
    requires n <= |acs|
  {
    exists i :: 0 <= i < n && acs[i].comb % 16 != 0 && PlaceOf(acs, i) == k
  }

  lemma {:induction false} AnnouncedMono(acs: seq<Symbol>, i: nat, n: nat)
    requires i <= n <= |acs|
    ensures Announced(acs, i) + (n - i) <= Announced(acs, n)
    decreases n
  {
    if i < n { AnnouncedMono(acs, i, n - 1); }
  }

  /** One symbol more, which has no value. */
  lemma FilledRun(t: seq<int>, table: seq<int>, acs: seq<Symbol>, n: nat)
    requires n < |acs| && Filled(t, table, acs, n) && acs[n].comb % 16 == 0 && Announced(acs, n) < 63
    ensures Filled(t, table, acs, n + 1)
  {
    PlaceInTable(acs, n);
    hide Announced, PlaceOf, ValueOf;
  }

  /** One symbol more, which has a value. */
  lemma FilledValue(t: seq<int>, table: seq<int>, acs: seq<Symbol>, n: nat)
    requires n < |acs| && Filled(t, table, acs, n) && acs[n].comb % 16 != 0 && Announced(acs, n) < 63
    ensures PlaceOf(acs, n) < 128 && Filled(t[PlaceOf(acs, n) := ValueOf(acs[n])], table, acs, n + 1)
  {
    hide ValueOf, Announced, PlaceOf, Written;
    PlaceInTable(acs, n);
    var p := PlaceOf(acs, n);
    var u := t[p := ValueOf(acs[n])];
    forall i | 0 <= i < n + 1 && acs[i].comb % 16 != 0
      ensures PlaceOf(acs, i) < 128 && u[PlaceOf(acs, i)] == ValueOf(acs[i])
    {
      if i < n { PlacesGrow(acs, i, n); }
    }
    forall k | 0 <= k < 128 && !Written(acs, n + 1, k)
      ensures u[k] == table[k]
    {
      WrittenMore(acs, n, k);
    }
  }

  lemma WrittenMore(acs: seq<Symbol>, n: nat, k: int)
    requires n < |acs| && acs[n].comb % 16 != 0
    ensures Written(acs, n, k) || PlaceOf(acs, n) == k ==> Written(acs, n + 1, k)
  {
    hide PlaceOf;
  }

  lemma PlacesGrow(acs: seq<Symbol>, i: nat, n: nat)
    requires i < n < |acs|
    ensures PlaceOf(acs, i) < PlaceOf(acs, n)
  {
    AnnouncedMono(acs, i + 1, n + 1);
  }

  lemma PlaceInTable(acs: seq<Symbol>, n: nat)
    requires n < |acs| && Announced(acs, n) < 63
    ensures PlaceOf(acs, n) == Announced(acs, n + 1) < 128
  {
  }

  lemma NothingFilled(table: seq<int>, acs: seq<Symbol>)
    requires |table| == 128
    ensures Filled(table, table, acs, 0)
  {
  }

  lemma OneRead(acs: seq<Symbol>, n: nat, t: seq<int>)
    requires n < |acs| && |t| == 128 && Announced(acs, n) < 63 && !IsEnd(acs[n])
    ensures PlaceOf(acs, n) < 63 + 16
    ensures DecodeAc(acs[n..], Announced(acs, n), t)
            == DecodeAc(acs[n + 1..], PlaceOf(acs, n),
                        if acs[n].comb % 16 == 0 then t else t[PlaceOf(acs, n) := ValueOf(acs[n])])
  {
    var tail := acs[n..];
    assert tail[0] == acs[n] && tail[1..] == acs[n + 1..];
    hide HuffExtend, Pow2;
  }

  /** One iteration of the AC loop. */
  lemma AfterOneMore(acs: seq<Symbol>, n: nat, table: seq<int>, t: seq<int>) returns (u: seq<int>)
    requires n < |acs| && Announced(acs, n) < 63 && !IsEnd(acs[n]) && |t| == 128 && Filled(t, table, acs, n)
    ensures |u| == 128 && PlaceOf(acs, n) < 63 + 16 && Filled(u, table, acs, n + 1)
    ensures DecodeAc(acs[n..], Announced(acs, n), t) == DecodeAc(acs[n + 1..], PlaceOf(acs, n), u)
  {
    hide DecodeAc, Filled, ValueOf, PlaceOf, Announced, IsEnd;
    OneRead(acs, n, t);
    if acs[n].comb % 16 == 0 {
      u := t;
      FilledRun(t, table, acs, n);
    } else {
      u := t[PlaceOf(acs, n) := ValueOf(acs[n])];
      FilledValue(t, table, acs, n);
    }
  }

  /** The state of the AC loop after n symbols. */
  lemma {:induction false} AfterReading(acs: seq<Symbol>, n: nat, table: seq<int>) returns (t: seq<int>)
    requires |table| == 128 && Reads(acs, n)
    ensures |t| == 128 && Announced(acs, n) < 63 + 16 && Filled(t, table, acs, n)
    ensures DecodeAc(acs, 0, table) == DecodeAc(acs[n..], Announced(acs, n), t)
  {
    if n == 0 {
      t := table;
      assert acs[0..] == acs;
      NothingFilled(table, acs);
    } else {
      t := AfterReading(acs, n - 1, table);
      t := AfterOneMore(acs, n - 1, table, t);
    }
  }

  /** The loop comes to a stop. */
  lemma {:induction false} Stops(acs: seq<Symbol>, n: nat) returns (m: nat)
    requires Reads(acs, n)
    ensures Completes(acs, m) || BreaksOff(acs, m)
    decreases |acs| - n
  {
    if n < |acs| && Announced(acs, n) < 63 && !IsEnd(acs[n]) {
      m := Stops(acs, n + 1);
    } else {
      m := n;
    }
  }

  lemma WholeIsDecoded(acs: seq<Symbol>, n: nat, table: seq<int>) returns (t: seq<int>)
    requires |table| == 128 && Completes(acs, n)
    ensures DecodeAc(acs, 0, table) == Decoded(t, acs[if EndsBlock(acs, n) then n + 1 else n..])
    ensures Filled(t, table, acs, n)
  {
    t := AfterReading(acs, n, table);
    if EndsBlock(acs, n) { assert acs[n..][0] == acs[n] && acs[n..][1..] == acs[n + 1..]; }
  }

  lemma BrokenIsFailed(acs: seq<Symbol>, n: nat, table: seq<int>)
    requires |table| == 128 && BreaksOff(acs, n)
    ensures DecodeAc(acs, 0, table).Failed?
  {
    var t := AfterReading(acs, n, table);
  }

  /** A block is decoded if and only if there is a symbol for the DC value and those after it announce 63
      coefficients, or fewer before an end symbol; it fails if and only if there is none, or they announce
      more than 63, or fewer before the symbols run out. */
  lemma DecodedIff(syms: seq<Symbol>, lastDc: int, before: seq<int>)
    requires |before| == 128
    ensures DecodeBlock(syms, lastDc, before).Decoded? <==> syms != [] && exists n :: Completes(syms[1..], n)
    ensures DecodeBlock(syms, lastDc, before).Failed? <==> syms == [] || exists n :: BreaksOff(syms[1..], n)
  {
    hide DecodeAc, Completes, BreaksOff, Cleared, DcOf;
    if syms != [] {
      var acs, table := syms[1..], Cleared(before)[0 := DcOf(syms[0], lastDc)];
      forall n | Completes(acs, n)
        ensures DecodeAc(acs, 0, table).Decoded?
      {
        var t := WholeIsDecoded(acs, n, table);
      }
      forall n | BreaksOff(acs, n)
        ensures DecodeAc(acs, 0, table).Failed?
      {
        BrokenIsFailed(acs, n, table);
      }
      var m := Stops(acs, 0);
    }
  }

  lemma FilledInside(t: seq<int>, table: seq<int>, acs: seq<Symbol>, n: nat)
    requires Completes(acs, n) && Filled(t, table, acs, n)
    ensures forall i :: 0 <= i < n ==> 1 <= PlaceOf(acs, i) <= 63
    ensures t[0] == table[0] && t[64..] == table[64..]
  {
    forall i | 0 <= i < n
      ensures 1 <= PlaceOf(acs, i) <= 63
    {
      AnnouncedMono(acs, i + 1, n);
      AnnouncedMono(acs, 0, i + 1);
    }
    forall k | k == 0 || 64 <= k < 128
      ensures t[k] == table[k]
    {
    }
  }

  /** A block decoded: the DC value, the value of every symbol that has one at the coefficient the symbol
      announces last, zeros elsewhere, and the 64 entries beyond the block as they were. */
  lemma DecodedTable(syms: seq<Symbol>, lastDc: int, before: seq<int>, n: nat)
      returns (t: seq<int>, rest: seq<Symbol>)
    requires |before| == 128 && syms != [] && Completes(syms[1..], n)
    ensures DecodeBlock(syms, lastDc, before) == Decoded(t, rest)
    ensures rest == syms[1..][if EndsBlock(syms[1..], n) then n + 1 else n..]
    ensures |t| == 128 && t[64..] == before[64..]
    ensures t[0] == lastDc + HuffExtend(syms[0].extra % Pow2(syms[0].comb), syms[0].comb)
    ensures forall i :: 0 <= i < n ==> 1 <= PlaceOf(syms[1..], i) <= 63
    ensures forall i :: 0 <= i < n && syms[1..][i].comb % 16 != 0 ==>
              t[PlaceOf(syms[1..], i)] == ValueOf(syms[1..][i])
    ensures forall k :: 1 <= k < 64 && !Written(syms[1..], n, k) ==> t[k] == 0
  {
    hide DecodeAc, HuffExtend, Pow2, PlaceOf, Announced, ValueOf, Written;
    var acs, table := syms[1..], Cleared(before)[0 := DcOf(syms[0], lastDc)];
    t := WholeIsDecoded(acs, n, table);
    rest := DecodeAc(acs, 0, table).rest;
    FilledInside(t, table, acs, n);
  }

  // ----- Decoding undoes coding, block by block -----

  lemma DcInverts(zz: seq<int>, lastDc: int, rest: seq<Symbol>, before: seq<int>)
    requires IsBlock(zz) && Abs(zz[0] - lastDc) < 0x1_0000 && |before| == 128
    ensures DecodeBlock(EncodeBlock(zz, lastDc) + rest, lastDc, before)
            == DecodeAc(EncodeAc(zz, 1, 0) + rest, 0, Cleared(before)[0 := zz[0]])
  {
    hide DecodeAc, EncodeAc, Category, BitsOf, HuffExtend, Cleared, Pow2;
    var all := EncodeBlock(zz, lastDc) + rest;
    var d := zz[0] - lastDc;
    assert all[0].comb == Category(Abs(d)) && all[0].extra == BitsOf(d) && all[1..] == EncodeAc(zz, 1, 0) + rest;
    ExtendInverts(d);
    SmallMod(BitsOf(d), Pow2(Category(Abs(d))));
  }

  lemma SmallMod(a: int, m: int)
    requires 0 <= a < m
    ensures a % m == a
  {
  }

  /** Decoding a coded block gives back its 64 coefficients and leaves the rest of the stream. */
  lemma BlockInverts(zz: seq<int>, lastDc: int, rest: seq<Symbol>, before: seq<int>) returns (t: seq<int>)
    requires IsBlock(zz) && Abs(zz[0] - lastDc) < 0x1_0000 && |before| == 128
    ensures DecodeBlock(EncodeBlock(zz, lastDc) + rest, lastDc, before) == Decoded(t, rest)
    ensures |t| == 128 && t[..64] == zz && t[0] == zz[0]
  {
    hide DecodeAc, EncodeAc, EncodeBlock, DecodeBlock, Cleared;
    DcInverts(zz, lastDc, rest, before);
    t := AcInverts(zz, 1, 0, Cleared(before)[0 := zz[0]], rest);
  }

  /** A sequence of blocks of one component, each DC coded as the difference from the one before. */
  ghost predicate AreBlocks(bs: seq<seq<int>>, lastDc: int) {
    bs == [] || (IsBlock(bs[0]) && Abs(bs[0][0] - lastDc) < 0x1_0000 && AreBlocks(bs[1..], bs[0][0]))
  }

  ghost function EncodeBlocks(bs: seq<seq<int>>, lastDc: int): seq<Symbol>
    requires AreBlocks(bs, lastDc)
  {
    if bs == [] then [] else EncodeBlock(bs[0], lastDc) + EncodeBlocks(bs[1..], bs[0][0])
  }

  /** n calls of readTable, carrying the last DC value along; None if one of them fails. */
  function DecodeBlocks(syms: seq<Symbol>, n: nat, lastDc: int, before: seq<int>): Option<seq<seq<int>>>
    requires |before| == 128
    decreases n
  {
    if n == 0 then Some([])
    else
      var r := DecodeBlock(syms, lastDc, before);
      if r.Failed? then None
      else
        DecodedSize(syms, lastDc, before);
        match DecodeBlocks(r.rest, n - 1, r.table[0], r.table)
        case None => None
        case Some(bs) => Some([r.table[..64]] + bs)
  }

  lemma {:induction false} AcTableSize(syms: seq<Symbol>, j: nat, table: seq<int>)
    requires |table| == 128 && j < 63 + 16
    ensures DecodeAc(syms, j, table).Decoded? ==>
              |DecodeAc(syms, j, table).table| == 128 && DecodeAc(syms, j, table).table[0] == table[0]
    decreases |syms|
  {
    if j < 63 && syms != [] {
      var val, repeat := syms[0].comb % 16, syms[0].comb / 16;
      if val == 0 {
        if repeat == 15 { AcTableSize(syms[1..], j + 16, table); }
      } else {
        AcTableSize(syms[1..], j + repeat + 1, table[j + repeat + 1 := HuffExtend(syms[0].extra % Pow2(val), val)]);
      }
    }
  }

  lemma DecodedSize(syms: seq<Symbol>, lastDc: int, before: seq<int>)
    requires |before| == 128
    ensures var r := DecodeBlock(syms, lastDc, before); r.Decoded? ==> |r.table| == 128
  {
    if syms != [] {
      AcTableSize(syms[1..], 0, Cleared(before)[0 := DcOf(syms[0], lastDc)]);
    }
  }

  /** Call i starts where the one before stopped, with the DC value of the block before, and leaves block i
      in the table. */
  ghost predicate IsCall(syms: seq<seq<Symbol>>, tables: seq<seq<int>>, lastDc: int, bs: seq<seq<int>>, i: nat)
    requires |syms| == |tables| == |bs| + 1 && i < |bs|
  {
    && |tables[i]| == |tables[i + 1]| == 128 && (i > 0 ==> |bs[i - 1]| == 64)
    && DecodeBlock(syms[i], if i == 0 then lastDc else bs[i - 1][0], tables[i]) == Decoded(tables[i + 1], syms[i + 1])
    && bs[i] == tables[i + 1][..64]
  }

  /** The blocks are those of n calls, one after the other, each on what the one before left. */
  ghost predicate AreCalls(syms: seq<seq<Symbol>>, tables: seq<seq<int>>, lastDc: int, bs: seq<seq<int>>, n: nat) {
    |bs| == n && |syms| == |tables| == n + 1 && forall i :: 0 <= i < n ==> IsCall(syms, tables, lastDc, bs, i)
  }

  lemma CallBefore(syms: seq<seq<Symbol>>, tables: seq<seq<int>>, lastDc: int, bs: seq<seq<int>>, n: nat,
                   s: seq<Symbol>, t: seq<int>)
    requires syms != [] && tables != [] && |t| == |tables[0]| == 128
    requires AreCalls(syms, tables, tables[0][0], bs, n) && DecodeBlock(s, lastDc, t) == Decoded(tables[0], syms[0])
    ensures AreCalls([s] + syms, [t] + tables, lastDc, [tables[0][..64]] + bs, n + 1)
  {
    hide DecodeBlock;
    var allSyms, allTables, all := [s] + syms, [t] + tables, [tables[0][..64]] + bs;
    forall i | 0 <= i < n + 1
      ensures IsCall(allSyms, allTables, lastDc, all, i)
    {
      if i > 0 {
        assert IsCall(syms, tables, tables[0][0], bs, i - 1);
        if i > 1 { assert all[i - 1] == bs[i - 2]; }
      }
    }
  }

  /** The blocks of any symbols, if all n can be read, are those of n such calls. */
  lemma {:induction false} BlocksAreCalls(syms: seq<Symbol>, n: nat, lastDc: int, before: seq<int>)
      returns (stages: seq<seq<Symbol>>, tables: seq<seq<int>>)
    requires |before| == 128 && DecodeBlocks(syms, n, lastDc, before).Some?
    ensures stages != [] && stages[0] == syms && tables != [] && tables[0] == before
    ensures AreCalls(stages, tables, lastDc, DecodeBlocks(syms, n, lastDc, before).value, n)
    decreases n
  {
    stages, tables := [syms], [before];
    if n > 0 {
      hide DecodeBlock, AreCalls;
      var r := DecodeBlock(syms, lastDc, before);
      DecodedSize(syms, lastDc, before);
      var more, moreTables := BlocksAreCalls(r.rest, n - 1, r.table[0], r.table);
      CallBefore(more, moreTables, lastDc, DecodeBlocks(r.rest, n - 1, r.table[0], r.table).value, n - 1, syms, before);
      stages, tables := [syms] + more, [before] + moreTables;
    }
  }

  lemma DecodeOneMore(syms: seq<Symbol>, n: nat, lastDc: int, before: seq<int>, t: seq<int>, rest: seq<Symbol>,
                      bs: seq<seq<int>>)
    requires |before| == 128 && |t| == 128 && DecodeBlock(syms, lastDc, before) == Decoded(t, rest)
    requires DecodeBlocks(rest, n, t[0], t) == Some(bs)
    ensures DecodeBlocks(syms, n + 1, lastDc, before) == Some([t[..64]] + bs)
  {
  }

  /** Any sequence of blocks survives coding and decoding. */
  lemma {:induction false} BlocksInvert(bs: seq<seq<int>>, lastDc: int, rest: seq<Symbol>, before: seq<int>)
    requires AreBlocks(bs, lastDc) && |before| == 128
    ensures DecodeBlocks(EncodeBlocks(bs, lastDc) + rest, |bs|, lastDc, before) == Some(bs)
    decreases |bs|
  {
    hide DecodeBlock, EncodeBlock, IsBlock;
    if bs != [] {
      EncodeOneMore(bs, lastDc, rest);
      BlockSize(bs[0]);
      assert IsBlock(bs[0]) && |bs[0]| == 64 && AreBlocks(bs[1..], bs[0][0]);
      hide *;
      var first, tail := EncodeBlock(bs[0], lastDc), EncodeBlocks(bs[1..], bs[0][0]) + rest;
      var t := BlockInverts(bs[0], lastDc, tail, before);
      BlocksInvert(bs[1..], bs[0][0], rest, t);
      DecodeOneMore(first + tail, |bs| - 1, lastDc, before, t, tail, bs[1..]);
      assert bs == [bs[0]] + bs[1..];
    } else {
      assert EncodeBlocks(bs, lastDc) + rest == rest;
    }
  }

  lemma BlockSize(zz: seq<int>)
    requires IsBlock(zz)
    ensures |zz| == 64
  {
  }

  lemma EncodeOneMore(bs: seq<seq<int>>, lastDc: int, rest: seq<Symbol>)
    requires AreBlocks(bs, lastDc) && bs != []
    ensures EncodeBlocks(bs, lastDc) + rest == EncodeBlock(bs[0], lastDc) + (EncodeBlocks(bs[1..], bs[0][0]) + rest)
  {
  }
}
