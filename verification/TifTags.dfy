/** The TIFF tags in the JPEG header of a video frame: overwrite_tif_tags, which writes them, and
    parse_tif_tags, which reads them (TIFF 6.0, section 2). Gains are 32-bit float words, and the
    conversion of coordinates from the camera image to the video is a parameter. */
module TifTags {
  import opened Options
  import opened Words

  datatype Tags = Tags(exposure: u32, gain0: u32, gain1: u32, gain2: u32, gain3: u32,
                       y: byte, u: byte, v: byte, flags: byte)

  const TIFF_TAGS_OFFSET := 12
  const GAIN_OFFSET := 62
  const BBOX_OFFSET := 78

  // ----- Big-endian numbers -----

  function Be16(v: u16): (s: seq<byte>)
    ensures |s| == 2
  {
    [v / 0x100, v % 0x100]
  }

  function Be32(v: u32): (s: seq<byte>)
    ensures |s| == 4
  {
    [v / 0x100_0000, v / 0x1_0000 % 0x100, v / 0x100 % 0x100, v % 0x100]
  }

  function Num16(s: seq<byte>): u16
    requires |s| == 2
  {
    0x100 * (s[0] as int) + s[1]
  }

  function Num32(s: seq<byte>): u32
    requires |s| == 4
  {
    0x100_0000 * (s[0] as int) + 0x1_0000 * (s[1] as int) + 0x100 * (s[2] as int) + s[3]
  }

  lemma Numbers16(v: u16)
    ensures Num16(Be16(v)) == v
  {
  }

  lemma Numbers32(v: u32)
    ensures Num32(Be32(v)) == v
  {
    assert v == 0x100 * (v / 0x100) + v % 0x100;
    assert v / 0x100 == 0x100 * (v / 0x1_0000) + v / 0x100 % 0x100;
    assert v / 0x1_0000 == 0x100 * (v / 0x100_0000) + v / 0x1_0000 % 0x100;
  }

  /** The number that bytes stand for, the most significant first. */
  ghost function BigEndian(s: seq<byte>): nat {
    if s == [] then 0 else 0x100 * BigEndian(s[..|s| - 1]) + s[|s| - 1]
  }

  /** Two bytes, and four, are read as the number they stand for. */
  lemma NumbersAreBigEndian(s: seq<byte>)
    ensures |s| == 2 ==> Num16(s) == BigEndian(s)
    ensures |s| == 4 ==> Num32(s) == BigEndian(s)
  {
    if |s| == 2 { BigEndianTwo(s); }
    if |s| == 4 {
      BigEndianTwo(s[..2]);
      assert s[..3][..2] == s[..2];
      assert BigEndian(s[..3]) == 0x100 * BigEndian(s[..2]) + s[2];
    }
  }

  lemma BigEndianTwo(s: seq<byte>)
    requires |s| == 2
    ensures BigEndian(s) == 0x100 * (s[0] as int) + s[1]
  {
    assert s[..1][..0] == [];
    assert BigEndian(s[..1]) == s[0];
  }

  /** Lexicographic order. */
  ghost predicate Before(s: seq<byte>, t: seq<byte>)
    requires |s| == |t|
  {
    s != [] && (s[0] < t[0] || (s[0] == t[0] && Before(s[1..], t[1..])))
  }

  lemma BeforeTwo(s: seq<byte>, t: seq<byte>)
    requires |s| == |t| == 2
    ensures Before(s, t) <==> s[0] < t[0] || (s[0] == t[0] && s[1] < t[1])
  {
    var a, b := s[1..], t[1..];
    assert Before(a, b) <==> s[1] < t[1] by { assert a[1..] == []; }
  }

  lemma BeforeFour(s: seq<byte>, t: seq<byte>)
    requires |s| == |t| == 4
    ensures Before(s, t) <==> Before(s[..2], t[..2]) || (s[..2] == t[..2] && Before(s[2..], t[2..]))
  {
    var a, b := s[1..], t[1..];
    assert a[1..] == s[2..] && b[1..] == t[2..];
    BeforeTwo(s[..2], t[..2]);
    assert s[..2] == t[..2] <==> s[0] == t[0] && s[1] == t[1];
  }

  /** Of two numbers the smaller has the bytes that come first in lexicographic order. */
  lemma NumbersInOrder(v: u32, w: u32)
    ensures v < w <==> Before(Be32(v), Be32(w))
  {
    var s, t := Be32(v), Be32(w);
    Numbers32(v);
    Numbers32(w);
    BeforeFour(s, t);
    BeforeTwo(s[..2], t[..2]);
    BeforeTwo(s[2..], t[2..]);
    assert s[..2] == t[..2] <==> s[0] == t[0] && s[1] == t[1];
    hide Before, Be32;
  }

  lemma ShortsInOrder(v: u16, w: u16)
    ensures v < w <==> Before(Be16(v), Be16(w))
  {
    BeforeTwo(Be16(v), Be16(w));
  }

  function CoordBytes(cs: seq<u16>): (s: seq<byte>)
    ensures |s| == 2 * |cs|
  {
    if cs == [] then [] else CoordBytes(cs[..|cs| - 1]) + Be16(cs[|cs| - 1])
  }

  /** A directory entry: tag, type, count and four bytes of value or offset. */
  function Ifd(tag: u16, kind: u16, count: u32, value: seq<byte>): (s: seq<byte>)
    requires |value| == 4
    ensures |s| == 12
  {
    Be16(tag) + Be16(kind) + Be32(count) + value
  }

  // ----- The layout -----

  /** The first ten bytes: byte order, version 42, directory at 8, four entries. */
  const MAGIC: seq<byte> := [0x4d, 0x4d, 0x00, 0x2a, 0x00, 0x00, 0x00, 0x08, 0x00, 0x04]

  ghost predicate At(buf: seq<byte>, offset: nat, piece: seq<byte>) {
    TIFF_TAGS_OFFSET + offset + |piece| <= |buf| &&
    buf[TIFF_TAGS_OFFSET + offset..TIFF_TAGS_OFFSET + offset + |piece|] == piece
  }

  function Gains(t: Tags): (s: seq<byte>)
    ensures |s| == 16
  {
    Be32(t.gain0) + Be32(t.gain1) + Be32(t.gain2) + Be32(t.gain3)
  }

  /** The header and directory: exposure, YUV and flags, gains, bounding boxes, end marker. */
  function Directory(t: Tags, n: u16): (s: seq<byte>)
    ensures |s| == GAIN_OFFSET
  {
    MAGIC + Ifd(0x9697, 4, 1, Be32(t.exposure)) + Ifd(0x9699, 1, 4, [t.y, t.u, t.v, t.flags]) +
    Ifd(0x9698, 11, 4, Be32(GAIN_OFFSET)) + Ifd(0x9696, 3, n, Be32(BBOX_OFFSET)) + Be32(0)
  }

  /** The tags, the coordinates, and zeros up to the end of an area of byteCount bytes. */
  ghost predicate Written(buf: seq<byte>, t: Tags, coords: seq<u16>, byteCount: nat) {
    && |coords| < 0x1_0000 && BBOX_OFFSET + 2 * |coords| <= byteCount
    && At(buf, 0, Directory(t, |coords|)) && At(buf, GAIN_OFFSET, Gains(t)) && At(buf, BBOX_OFFSET, CoordBytes(coords))
    && TIFF_TAGS_OFFSET + byteCount <= |buf|
    && forall k :: TIFF_TAGS_OFFSET + BBOX_OFFSET + 2 * |coords| <= k < TIFF_TAGS_OFFSET + byteCount ==> buf[k] == 0
  }

  lemma Piece(buf: seq<byte>, offset: nat, piece: seq<byte>, lo: nat, hi: nat)
    requires At(buf, offset, piece) && lo <= hi <= |piece|
    ensures offset + hi <= |buf| - 12 && buf[12..][offset + lo..offset + hi] == piece[lo..hi]
  {
    assert forall i :: lo <= i < hi ==> buf[12..][offset + i] == piece[i];
  }

  lemma BigEndian32(v: u32)
    ensures BigEndian(Be32(v)) == v
  {
    Numbers32(v);
    NumbersAreBigEndian(Be32(v));
  }

  lemma BigEndian16(v: u16)
    ensures BigEndian(Be16(v)) == v
  {
    NumbersAreBigEndian(Be16(v));
  }

  lemma FirstEntryBytes(t: Tags, n: u16)
    ensures var d := Directory(t, n);
            && d[0..10] == [0x4d, 0x4d, 0x00, 0x2a, 0x00, 0x00, 0x00, 0x08, 0x00, 0x04]
            && d[10..18] == [0x96, 0x97, 0x00, 0x04, 0x00, 0x00, 0x00, 0x01] && d[18..22] == Be32(t.exposure)
            && d[22..34] == [0x96, 0x99, 0x00, 0x01, 0x00, 0x00, 0x00, 0x04, t.y, t.u, t.v, t.flags]
  {
  }

  lemma LastEntryBytes(t: Tags, n: u16)
    ensures var d := Directory(t, n);
            && d[34..46] == [0x96, 0x98, 0x00, 0x0b, 0x00, 0x00, 0x00, 0x04, 0x00, 0x00, 0x00, 62]
            && d[46..52] == [0x96, 0x96, 0x00, 0x03, 0x00, 0x00] && d[52..54] == Be16(n)
            && d[54..62] == [0x00, 0x00, 0x00, 78, 0x00, 0x00, 0x00, 0x00]
  {
  }

  /** Where everything is, counted from the start of the TIFF area: the directory with the exposure, the
      YUV bytes and the flags, the gains in order, and the coordinates. */
  lemma WrittenBytes(buf: seq<byte>, t: Tags, coords: seq<u16>, byteCount: nat) returns (tif: seq<byte>)
    requires Written(buf, t, coords, byteCount)
    ensures |buf| >= 12 && tif == buf[12..] && |tif| >= byteCount >= 78 + 2 * |coords|
    ensures tif[0..10] == [0x4d, 0x4d, 0x00, 0x2a, 0x00, 0x00, 0x00, 0x08, 0x00, 0x04]
    ensures tif[10..18] == [0x96, 0x97, 0x00, 0x04, 0x00, 0x00, 0x00, 0x01] && BigEndian(tif[18..22]) == t.exposure
    ensures tif[22..34] == [0x96, 0x99, 0x00, 0x01, 0x00, 0x00, 0x00, 0x04, t.y, t.u, t.v, t.flags]
    ensures tif[34..46] == [0x96, 0x98, 0x00, 0x0b, 0x00, 0x00, 0x00, 0x04, 0x00, 0x00, 0x00, 62]
    ensures tif[46..52] == [0x96, 0x96, 0x00, 0x03, 0x00, 0x00] && BigEndian(tif[52..54]) == |coords|
    ensures tif[54..62] == [0x00, 0x00, 0x00, 78, 0x00, 0x00, 0x00, 0x00]
    ensures BigEndian(tif[62..66]) == t.gain0 && BigEndian(tif[66..70]) == t.gain1
    ensures BigEndian(tif[70..74]) == t.gain2 && BigEndian(tif[74..78]) == t.gain3
    ensures forall k :: 0 <= k < |coords| ==> BigEndian(tif[78 + 2 * k..80 + 2 * k]) == coords[k]
    ensures forall k :: 78 + 2 * |coords| <= k < byteCount ==> tif[k] == 0
  {
    hide At, Directory, Be32, Be16, BigEndian, CoordBytes;
    tif := buf[12..];
    DirectoryWritten(buf, t, |coords|);
    GainsWritten(buf, t);
    forall k | 0 <= k < |coords|
      ensures BigEndian(tif[78 + 2 * k..80 + 2 * k]) == coords[k]
    {
      CoordAt(coords, k);
      Piece(buf, BBOX_OFFSET, CoordBytes(coords), 2 * k, 2 * k + 2);
      BigEndian16(coords[k]);
    }
    AtIs(buf, BBOX_OFFSET, CoordBytes(coords));
  }

  lemma DirectoryWritten(buf: seq<byte>, t: Tags, n: u16)
    requires At(buf, 0, Directory(t, n))
    ensures |buf| >= 74
    ensures var tif := buf[12..];
            && tif[0..10] == [0x4d, 0x4d, 0x00, 0x2a, 0x00, 0x00, 0x00, 0x08, 0x00, 0x04]
            && tif[10..18] == [0x96, 0x97, 0x00, 0x04, 0x00, 0x00, 0x00, 0x01]
            && BigEndian(tif[18..22]) == t.exposure
            && tif[22..34] == [0x96, 0x99, 0x00, 0x01, 0x00, 0x00, 0x00, 0x04, t.y, t.u, t.v, t.flags]
            && tif[34..46] == [0x96, 0x98, 0x00, 0x0b, 0x00, 0x00, 0x00, 0x04, 0x00, 0x00, 0x00, 62]
            && tif[46..52] == [0x96, 0x96, 0x00, 0x03, 0x00, 0x00] && BigEndian(tif[52..54]) == n
            && tif[54..62] == [0x00, 0x00, 0x00, 78, 0x00, 0x00, 0x00, 0x00]
  {
    hide At, Directory, Be32, Be16, BigEndian;
    var d := Directory(t, n);
    FirstEntryBytes(t, n);
    LastEntryBytes(t, n);
    Piece(buf, 0, d, 0, 10);
    Piece(buf, 0, d, 10, 18);
    Piece(buf, 0, d, 18, 22);
    Piece(buf, 0, d, 22, 34);
    Piece(buf, 0, d, 34, 46);
    Piece(buf, 0, d, 46, 52);
    Piece(buf, 0, d, 52, 54);
    Piece(buf, 0, d, 54, 62);
    BigEndian32(t.exposure);
    BigEndian16(n);
  }

  lemma GainsWritten(buf: seq<byte>, t: Tags)
    requires At(buf, GAIN_OFFSET, Gains(t))
    ensures |buf| >= 90
    ensures var tif := buf[12..];
            && BigEndian(tif[62..66]) == t.gain0 && BigEndian(tif[66..70]) == t.gain1
            && BigEndian(tif[70..74]) == t.gain2 && BigEndian(tif[74..78]) == t.gain3
  {
    var g := Gains(t);
    assert g[0..4] == Be32(t.gain0) && g[4..8] == Be32(t.gain1);
    assert g[8..12] == Be32(t.gain2) && g[12..16] == Be32(t.gain3);
    hide At, Gains, Be32, BigEndian;
    Piece(buf, GAIN_OFFSET, g, 0, 4);
    Piece(buf, GAIN_OFFSET, g, 4, 8);
    Piece(buf, GAIN_OFFSET, g, 8, 12);
    Piece(buf, GAIN_OFFSET, g, 12, 16);
    BigEndian32(t.gain0);
    BigEndian32(t.gain1);
    BigEndian32(t.gain2);
    BigEndian32(t.gain3);
  }

  // ----- The writer -----

  /** after is before with the piece written at the offset. */
  ghost predicate Patch(after: seq<byte>, before: seq<byte>, offset: nat, piece: seq<byte>) {
    |after| == |before| && At(after, offset, piece) && SameOutside(after, before, offset, offset + |piece|)
  }

  ghost predicate SameOutside(after: seq<byte>, before: seq<byte>, from: nat, to: nat)
    requires |after| == |before|
  {
    forall k :: 0 <= k < |before| ==> TIFF_TAGS_OFFSET + from <= k < TIFF_TAGS_OFFSET + to || after[k] == before[k]
  }

  lemma AtPart(buf: seq<byte>, offset: nat, a: seq<byte>, b: seq<byte>, c: seq<byte>)
    requires At(buf, offset, a + b + c)
    ensures At(buf, offset + |a|, b)
  {
    var base, all := TIFF_TAGS_OFFSET + offset, a + b + c;
    SliceOfSlice(buf, base, base + |all|, |a|, |a| + |b|);
    assert all[|a|..|a| + |b|] == b;
  }

  /** The bytes of a piece stored one by one from the offset on. */
  method Store(buf: array<byte>, offset: nat, piece: seq<byte>)
    requires TIFF_TAGS_OFFSET + offset + |piece| <= buf.Length
    modifies buf
    ensures Patch(buf[..], old(buf[..]), offset, piece)
  {
    var k := 0;
    var base := TIFF_TAGS_OFFSET + offset;
    while k < |piece|
      invariant 0 <= k <= |piece|
      invariant forall i :: 0 <= i < k ==> buf[base + i] == piece[i]
      invariant forall i :: 0 <= i < buf.Length ==> base <= i < base + k || buf[i] == old(buf[i])
    {
      buf[base + k] := piece[k];
      k := k + 1;
    }
  }

  /** The JPEG start and APP1 markers. */
  predicate IsHeader(buf: seq<byte>)
    requires |buf| >= 4
  {
    buf[0] == 0xff && buf[1] == 0xd8 && buf[2] == 0xff && buf[3] == 0xe1
  }

  /** byte_count: the header's length field plus 4, less 12, as an unsigned short. */
  function AreaOf(high: byte, low: byte): u16 {
    (0x100 * (high as int) + low + 4 - TIFF_TAGS_OFFSET) % 0x1_0000
  }

  /** The area ends where the header's length field says if and only if the field is at least 8; a
      smaller one wraps the count around to almost 2^16. */
  lemma AreaEndsWithHeader(high: byte, low: byte)
    ensures var length := BigEndian([high, low]);
            AreaOf(high, low) == if length >= 8 then length - 8 else length + 0xFFF8
    ensures TIFF_TAGS_OFFSET + AreaOf(high, low) == 0x100 * (high as int) + low + 4 <==>
            0x100 * (high as int) + low >= 8
  {
    var n := 0x100 * (high as int) + low + 4 - TIFF_TAGS_OFFSET;
    BigEndianTwo([high, low]);
    if n >= 0 {
      DivModUnique(n, 0x1_0000, 0, n);
    } else {
      DivModUnique(n, 0x1_0000, -1, n + 0x1_0000);
    }
  }

  function AreaBytes(buf: seq<byte>): u16
    requires |buf| >= 6
  {
    AreaOf(buf[4], buf[5])
  }

  /** n is the most coordinates, in whole boxes, that are given and fit. */
  ghost predicate LongestFit(n: int, given: int, byteCount: int) {
    n % 4 == 0 && 0 <= n <= given && BBOX_OFFSET + 2 * n <= byteCount &&
    (n + 4 > given || BBOX_OFFSET + 2 * (n + 4) > byteCount)
  }

  lemma CoordsMore(cs: seq<u16>, i: nat)
    requires i + 2 <= |cs|
    ensures CoordBytes(cs[..i + 2]) == CoordBytes(cs[..i]) + (Be16(cs[i]) + Be16(cs[i + 1]))
  {
    assert cs[..i + 2][..i + 1] == cs[..i + 1] && cs[..i + 1][..i] == cs[..i];
    assert CoordBytes(cs[..i]) + Be16(cs[i]) + Be16(cs[i + 1]) == CoordBytes(cs[..i]) + (Be16(cs[i]) + Be16(cs[i + 1]));
  }

  /** A piece stored right after what is already there. */
  lemma PairStored(after: seq<byte>, before: seq<byte>, original: seq<byte>, p: nat, done: seq<byte>, piece: seq<byte>)
    requires |before| == |original| && p == BBOX_OFFSET + |done|
    requires At(before, BBOX_OFFSET, done) && SameOutside(before, original, BBOX_OFFSET, p)
    requires Patch(after, before, p, piece)
    ensures At(after, BBOX_OFFSET, done + piece) && |after| == |original|
    ensures SameOutside(after, original, BBOX_OFFSET, p + |piece|)
  {
  }

  /** The conversion of an image coordinate to a video coordinate, across and down. */
  datatype Scale = Scale(across: u16 -> u16, down: u16 -> u16)

  function ScaledCoord(c: u16, i: nat, scale: Scale): u16 {
    if i % 2 == 0 then scale.across(c) else scale.down(c)
  }

  /** The coordinates in the video: x and y take turns. */
  function Scaled(cs: seq<u16>, scale: Scale): (r: seq<u16>)
    ensures |r| == |cs|
  {
    seq(|cs|, i requires 0 <= i < |cs| => ScaledCoord(cs[i], i, scale))
  }

  lemma ScaledPair(cs: seq<u16>, scale: Scale, i: nat)
    requires 2 * i + 1 < |cs|
    ensures Scaled(cs, scale)[2 * i] == scale.across(cs[2 * i])
    ensures Scaled(cs, scale)[2 * i + 1] == scale.down(cs[2 * i + 1])
  {
  }

  /** c * to / from, rounded to the nearest, as an unsigned short. */
  function VideoCoord(c: u16, from: nat, to: nat): u16
    requires from > 0
  {
    (2 * c * to + from) / (2 * from) % 0x1_0000
  }

  /** v is c * to / from rounded to the nearest number, halves up, and cut to 16 bits; r before the cut. */
  ghost predicate Rounds(v: u16, c: u16, from: nat, to: nat, r: nat) {
    v == r % 0x1_0000 && 2 * from * r - from <= 2 * c * to < 2 * from * r + from
  }

  function ToVideo(width: nat, height: nat, vwidth: nat, vheight: nat): Scale
    requires width > 0 && height > 0
  {
    Scale(c => VideoCoord(c, width, vwidth), c => VideoCoord(c, height, vheight))
  }

  lemma VideoCoordRounds(c: u16, from: nat, to: nat) returns (r: nat)
    requires from > 0
    ensures Rounds(VideoCoord(c, from, to), c, from, to, r)
    ensures to <= from ==> VideoCoord(c, from, to) == r <= c
  {
    NotNegative(c, to);
    var a, b := 2 * c * to + from, 2 * from;
    r := a / b;
    DivModBound(a, b);
    if to <= from { NoLarger(c, from, to, r); }
  }

  lemma NotNegative(a: nat, b: nat)
    ensures 2 * a * b >= 0
  {
    assert a * b >= 0;
  }

  lemma DivModBound(a: nat, b: nat)
    requires b > 0
    ensures 0 <= a - b * (a / b) < b
  {
  }

  lemma NoLarger(c: nat, from: nat, to: nat, r: nat)
    requires from > 0 && to <= from && 2 * from * r <= 2 * c * to + from
    ensures r <= c
  {
    TimesMono(c, to, from);
    var p, q, u := from * r, c * from, c * to;
    assert 2 * from * r == 2 * p && 2 * c * to == 2 * u by { Twice(from, r); Twice(c, to); }
    assert from * (c + 1) == q + from;
    if r > c { TimesMono(from, c + 1, r); }
  }

  lemma Twice(a: int, b: int)
    ensures 2 * a * b == 2 * (a * b)
  {
  }

  lemma TimesMono(a: nat, b: nat, c: nat)
    requires b <= c
    ensures a * b <= a * c
  {
    assert a * (c - b) >= 0;
    assert a * (c - b) == a * c - a * b;
  }

  /** Each coordinate is scaled by its own pair of sizes and rounded to the nearest; a video no larger than
      the camera's image keeps it inside 16 bits and no larger than it was. */
  lemma ScaledIsNearest(cs: seq<u16>, width: nat, height: nat, vwidth: nat, vheight: nat, i: nat)
      returns (r: nat)
    requires width > 0 && height > 0 && i < |cs|
    ensures var from, to := if i % 2 == 0 then width else height, if i % 2 == 0 then vwidth else vheight;
            var v := Scaled(cs, ToVideo(width, height, vwidth, vheight))[i];
            Rounds(v, cs[i], from, to, r) && (to <= from ==> v == r <= cs[i])
  {
    hide VideoCoord, Rounds;
    if i % 2 == 0 {
      r := VideoCoordRounds(cs[i], width, vwidth);
    } else {
      r := VideoCoordRounds(cs[i], height, vheight);
    }
  }

  lemma SameSizeKeeps(c: u16, size: nat)
    requires size > 0
    ensures VideoCoord(c, size, size) == c
  {
    DivModUnique(2 * c * size + size, 2 * size, c, size);
  }

  /** Equal sizes leave the coordinates as they are. */
  lemma SameSizesScaleNothing(cs: seq<u16>, width: nat, height: nat)
    requires width > 0 && height > 0
    ensures Scaled(cs, ToVideo(width, height, width, height)) == cs
  {
    hide VideoCoord;
    forall i | 0 <= i < |cs|
      ensures VideoCoord(cs[i], width, width) == VideoCoord(cs[i], height, height) == cs[i]
    {
      SameSizeKeeps(cs[i], width);
      SameSizeKeeps(cs[i], height);
    }
  }

  /** The coordinates, two at a time. */
  method StoreCoords(buf: array<byte>, coords: seq<u16>, scale: Scale, n: nat, byteCount: nat)
    requires n % 2 == 0 && n <= |coords|
    requires BBOX_OFFSET + 2 * n <= byteCount && TIFF_TAGS_OFFSET + byteCount <= buf.Length
    modifies buf
    ensures At(buf[..], BBOX_OFFSET, CoordBytes(Scaled(coords, scale)[..n]))
    ensures SameOutside(buf[..], old(buf[..]), BBOX_OFFSET, BBOX_OFFSET + 2 * n)
  {
    ghost var out := Scaled(coords, scale);
    var ii := 0;
    var p := BBOX_OFFSET;
    assert buf[TIFF_TAGS_OFFSET + BBOX_OFFSET..TIFF_TAGS_OFFSET + BBOX_OFFSET] == [];
    while ii < n / 2
      invariant ii <= n / 2 && p == BBOX_OFFSET + 4 * ii
      invariant At(buf[..], BBOX_OFFSET, CoordBytes(out[..2 * ii]))
      invariant SameOutside(buf[..], old(buf[..]), BBOX_OFFSET, p)
    {
      hide CoordBytes, Be16, At, SameOutside, Patch, Scaled;
      ghost var before := buf[..];
      var x, y := scale.across(coords[2 * ii]), scale.down(coords[2 * ii + 1]);
      ScaledPair(coords, scale, ii);
      var pair := Be16(x) + Be16(y);
      Store(buf, p, pair);
      CoordsMore(out, 2 * ii);
      PairStored(buf[..], before, old(buf[..]), p, CoordBytes(out[..2 * ii]), pair);
      p := p + 4;
      ii := ii + 1;
    }
  }

  /** The unused bytes at the end. */
  method ClearTail(buf: array<byte>, from: nat, byteCount: nat)
    requires from <= byteCount && TIFF_TAGS_OFFSET + byteCount <= buf.Length
    modifies buf
    ensures forall k :: TIFF_TAGS_OFFSET + from <= k < TIFF_TAGS_OFFSET + byteCount ==> buf[k] == 0
    ensures SameOutside(buf[..], old(buf[..]), from, byteCount)
  {
    var p := from;
    while p < byteCount
      invariant from <= p <= byteCount
      invariant forall k :: TIFF_TAGS_OFFSET + from <= k < TIFF_TAGS_OFFSET + p ==> buf[k] == 0
      invariant SameOutside(buf[..], old(buf[..]), from, p)
    {
      buf[TIFF_TAGS_OFFSET + p] := 0;
      p := p + 1;
    }
  }

  lemma OutsideKeeps(after: seq<byte>, before: seq<byte>, from: nat, to: nat, other: nat, kept: seq<byte>)
    requires |after| == |before| && SameOutside(after, before, from, to) && At(before, other, kept)
    requires other + |kept| <= from || to <= other
    ensures At(after, other, kept)
  {
  }

  /** The number of coordinates the code keeps. */
  function Kept(given: u16, byteCount: u16): (n: nat)
    requires byteCount >= BBOX_OFFSET
  {
    var maxCoords := (byteCount - BBOX_OFFSET) / 2;
    var m: int := if given > maxCoords then maxCoords else given;
    m - m % 4
  }

  lemma DownToFours(m: nat)
    ensures (m - m % 4) % 4 == 0 && (m - m % 4) % 2 == 0 && m - 4 < m - m % 4 <= m
  {
    var q, n := m / 4, m - m % 4;
    assert n == q * 4 + 0;
    DivModUnique(n, 4, q, 0);
    DivModUnique(n, 2, 2 * q, 0);
  }

  lemma KeptIsLongest(given: u16, byteCount: u16)
    requires byteCount >= BBOX_OFFSET
    ensures LongestFit(Kept(given, byteCount), given, byteCount)
    ensures Kept(given, byteCount) % 2 == 0
  {
    var maxCoords := (byteCount - BBOX_OFFSET) / 2;
    assert 2 * maxCoords <= byteCount - BBOX_OFFSET < 2 * maxCoords + 2;
    DownToFours(if given > maxCoords then maxCoords else given);
  }

  lemma FitIsInside(n: int, given: int, byteCount: int)
    requires LongestFit(n, given, byteCount)
    ensures n % 4 == 0 && 0 <= n <= given && BBOX_OFFSET + 2 * n <= byteCount
  {
  }

  lemma PatchIsOutside(after: seq<byte>, before: seq<byte>, offset: nat, piece: seq<byte>)
    requires Patch(after, before, offset, piece)
    ensures |after| == |before| && At(after, offset, piece) && SameOutside(after, before, offset, offset + |piece|)
  {
  }

  /** The tags, the coordinates and the zeros of a successful call. */
  method StoreAll(buf: array<byte>, t: Tags, coords: seq<u16>, scale: Scale, n: nat, byteCount: nat)
    requires n % 2 == 0 && n <= |coords| && n < 0x1_0000
    requires BBOX_OFFSET + 2 * n <= byteCount && TIFF_TAGS_OFFSET + byteCount <= buf.Length
    modifies buf
    ensures Written(buf[..], t, Scaled(coords, scale)[..n], byteCount)
    ensures SameOutside(buf[..], old(buf[..]), 0, byteCount)
  {
    hide CoordBytes, Scaled, Directory, Gains, At, SameOutside, Patch;
    var d, g := Directory(t, n), Gains(t);
    ghost var b0 := buf[..];
    Store(buf, 0, d);
    ghost var b1 := buf[..];
    PatchIsOutside(b1, b0, 0, d);
    Store(buf, GAIN_OFFSET, g);
    ghost var b2 := buf[..];
    PatchIsOutside(b2, b1, GAIN_OFFSET, g);
    OutsideKeeps(b2, b1, GAIN_OFFSET, BBOX_OFFSET, 0, d);
    ghost var out := Scaled(coords, scale)[..n];
    StoreCoords(buf, coords, scale, n, byteCount);
    ghost var b3 := buf[..];
    OutsideKeeps(b3, b2, BBOX_OFFSET, BBOX_OFFSET + 2 * n, 0, d);
    OutsideKeeps(b3, b2, BBOX_OFFSET, BBOX_OFFSET + 2 * n, GAIN_OFFSET, g);
    ClearTail(buf, BBOX_OFFSET + 2 * n, byteCount);
    ghost var b4 := buf[..];
    OutsideKeeps(b4, b3, BBOX_OFFSET + 2 * n, byteCount, 0, d);
    OutsideKeeps(b4, b3, BBOX_OFFSET + 2 * n, byteCount, GAIN_OFFSET, g);
    OutsideKeeps(b4, b3, BBOX_OFFSET + 2 * n, byteCount, BBOX_OFFSET, CoordBytes(out));
    OutsideChain(b0, b1, b2, b3, b4, 2 * n, byteCount);
  }

  /** overwrite_tif_tags: on success the TIFF area holds the tags, the longest prefix of whole boxes
      that fits, converted to the video, and zeros; bytes outside it never change, and on failure no byte
      does. */
  method OverwriteTifTags(bboxCoordCount: u16, bboxCoord: seq<u16>, scale: Scale, t: Tags, buf: array<byte>)
      returns (written: int)
    requires bboxCoordCount <= |bboxCoord| && buf.Length >= 6
    requires IsHeader(buf[..]) ==> TIFF_TAGS_OFFSET + AreaBytes(buf[..]) <= buf.Length
    modifies buf
    ensures written == -1 <==>
              || old(buf[0]) != 0xff || old(buf[1]) != 0xd8 || old(buf[2]) != 0xff || old(buf[3]) != 0xe1
              || AreaOf(old(buf[4]), old(buf[5])) < 78
    ensures written == -1 ==> buf[..] == old(buf[..])
    ensures written != -1 ==>
              && LongestFit(written, bboxCoordCount, AreaBytes(old(buf[..])))
              && Written(buf[..], t, Scaled(bboxCoord, scale)[..written], AreaBytes(old(buf[..])))
              && SameOutside(buf[..], old(buf[..]), 0, AreaBytes(old(buf[..])))
    ensures written != -1 ==>
              && written % 4 == 0 && 0 <= written <= bboxCoordCount
              && Parse(buf[..]) == Parsed(t, Boxes(Scaled(bboxCoord, scale)[..written]))
  {
    hide Written, SameOutside, Scaled, Kept, LongestFit, AreaOf, Parse, Boxes;
    if buf[0] != 0xff || buf[1] != 0xd8 || buf[2] != 0xff || buf[3] != 0xe1 { return -1; }
    ghost var original := buf[..];
    assert IsHeader(original);
    hide IsHeader;
    var byteCount := AreaOf(buf[4], buf[5]);
    assert byteCount == AreaBytes(original);
    hide AreaBytes;
    if byteCount < BBOX_OFFSET { return -1; }
    var n := Kept(bboxCoordCount, byteCount);
    KeptIsLongest(bboxCoordCount, byteCount);
    FitIsInside(n, bboxCoordCount, byteCount);
    StoreAll(buf, t, bboxCoord, scale, n, byteCount);
    ParseInvertsWrite(buf[..], t, Scaled(bboxCoord, scale)[..n], byteCount);
    written := n;
  }

  lemma OutsideChain(b0: seq<byte>, b1: seq<byte>, b2: seq<byte>, b3: seq<byte>, b4: seq<byte>, m: nat, byteCount: nat)
    requires |b0| == |b1| == |b2| == |b3| == |b4| && BBOX_OFFSET + m <= byteCount
    requires SameOutside(b1, b0, 0, GAIN_OFFSET) && SameOutside(b2, b1, GAIN_OFFSET, BBOX_OFFSET)
    requires SameOutside(b3, b2, BBOX_OFFSET, BBOX_OFFSET + m) && SameOutside(b4, b3, BBOX_OFFSET + m, byteCount)
    ensures SameOutside(b4, b0, 0, byteCount)
  {
  }

  // ----- The reader -----

  datatype Rect = Rect(x0: u16, y0: u16, x1: u16, y1: u16)

  /** What parse_tif_tags returns, or the error struct.unpack raises on a slice that is too short. */
  datatype Parsed = Parsed(tags: Tags, rects: seq<Rect>) | StructError

  /** The locals of parse_tif_tags. */
  datatype Fields = Fields(tags: Tags, gainOffset: nat, gainCount: nat, bboxOffset: nat, bboxCount: nat)

  const NO_TAGS := Tags(0, 0, 0, 0, 0, 0, 0, 0, 0)

  const NO_FIELDS := Fields(NO_TAGS, 0, 0, 0, 0)

  /** The effect of one directory entry. */
  function ApplyEntry(f: Fields, e: seq<byte>): Fields
    requires |e| == 12
  {
    var tag, count, num := Num16(e[..2]), Num32(e[4..8]), Num32(e[8..12]);
    if tag == 0x9697 then f.(tags := f.tags.(exposure := num))
    else if tag == 0x9698 then f.(gainCount := count, gainOffset := num)
    else if tag == 0x9699 then f.(tags := f.tags.(y := e[8], u := e[9], v := e[10], flags := e[11]))
    else if tag == 0x9696 then f.(bboxCount := count, bboxOffset := num)
    else f
  }

  /** Entries ii to count of the directory at base, applied in order; None if one is cut off. */
  function ReadEntries(jpg: seq<byte>, base: nat, ii: nat, count: nat, f: Fields): Option<Fields>
    requires ii <= count
    decreases count - ii
  {
    if ii == count then Some(f)
    else
      var start := base + 12 * ii;
      if start + 12 > |jpg| then None
      else ReadEntries(jpg, base, ii + 1, count, ApplyEntry(f, jpg[start..start + 12]))
  }

  function Word(jpg: seq<byte>, start: nat): u16
    requires start + 2 <= |jpg|
  {
    Num16(jpg[start..start + 2])
  }

  function RectAt(jpg: seq<byte>, start: nat): Rect
    requires start + 8 <= |jpg|
  {
    Rect(Word(jpg, start), Word(jpg, start + 2), Word(jpg, start + 4), Word(jpg, start + 6))
  }

  /** The first n boxes from base on; None if one is cut off. */
  function ReadRects(jpg: seq<byte>, base: nat, n: nat): Option<seq<Rect>> {
    if n == 0 then Some([])
    else match ReadRects(jpg, base, n - 1)
      case None => None
      case Some(rs) => if base + 8 * n > |jpg| then None else Some(rs + [RectAt(jpg, base + 8 * (n - 1))])
  }

  function ReadGains(jpg: seq<byte>, f: Fields): Option<Tags> {
    if f.gainOffset > 0 && f.gainCount == 4 then
      var off := TIFF_TAGS_OFFSET + f.gainOffset;
      if off + 16 > |jpg| then None
      else Some(f.tags.(gain0 := Num32(jpg[off..off + 4]), gain1 := Num32(jpg[off + 4..off + 8]),
                        gain2 := Num32(jpg[off + 8..off + 12]), gain3 := Num32(jpg[off + 12..off + 16])))
    else Some(f.tags)
  }

  function Finish(jpg: seq<byte>, f: Fields): Parsed {
    match ReadGains(jpg, f)
    case None => StructError
    case Some(t) =>
      if f.bboxOffset > 0 then
        match ReadRects(jpg, TIFF_TAGS_OFFSET + f.bboxOffset, f.bboxCount / 4)
        case None => StructError
        case Some(rs) => Parsed(t, rs)
      else Parsed(t, [])
  }

  function Parse(jpg: seq<byte>): Parsed {
    if |jpg| < TIFF_TAGS_OFFSET + 10 then StructError
    else
      var ifdOffset, ifdCount := Num32(jpg[16..20]), Num16(jpg[20..22]);
      match ReadEntries(jpg, TIFF_TAGS_OFFSET + ifdOffset + 2, 0, ifdCount, NO_FIELDS)
      case None => StructError
      case Some(f) => Finish(jpg, f)
  }

  lemma {:induction false} ReadRectsFails(jpg: seq<byte>, base: nat, k: nat, n: nat)
    requires k <= n && ReadRects(jpg, base, k).None?
    ensures ReadRects(jpg, base, n).None?
    decreases n
  {
    if k < n { ReadRectsFails(jpg, base, k, n - 1); }
  }

  /** parse_tif_tags, with its two loops. */
  method ParseTifTags(jpg: seq<byte>) returns (r: Parsed)
    ensures r == Parse(jpg)
  {
    hide RectAt, ApplyEntry, ReadGains, Num16, Num32;
    if |jpg| < TIFF_TAGS_OFFSET + 10 { return StructError; }
    var ifdOffset, ifdCount := Num32(jpg[16..20]), Num16(jpg[20..22]);
    var base := TIFF_TAGS_OFFSET + ifdOffset + 2;
    var f := NO_FIELDS;
    ghost var all := ReadEntries(jpg, base, 0, ifdCount, f);
    var ii := 0;
    while ii < ifdCount
      invariant ii <= ifdCount && all == ReadEntries(jpg, base, ii, ifdCount, f)
    {
      var startOff := base + ii * 12;
      if startOff + 12 > |jpg| { return StructError; }
      f := ApplyEntry(f, jpg[startOff..startOff + 12]);
      ii := ii + 1;
    }
    var t := ReadGains(jpg, f);
    if t.None? { return StructError; }
    var rectList := [];
    if f.bboxOffset > 0 {
      var start := TIFF_TAGS_OFFSET + f.bboxOffset;
      ii := 0;
      while ii < f.bboxCount / 4
        invariant ii <= f.bboxCount / 4 && ReadRects(jpg, start, ii) == Some(rectList)
      {
        if start + 8 * (ii + 1) > |jpg| {
          ReadRectsFails(jpg, start, ii + 1, f.bboxCount / 4);
          return StructError;
        }
        rectList := rectList + [RectAt(jpg, start + 8 * ii)];
        ii := ii + 1;
      }
    }
    r := Parsed(t.value, rectList);
  }

  // ----- What the reader finds -----

  ghost function NumberAt(jpg: seq<byte>, start: nat, size: nat): nat
    requires start + size <= |jpg|
  {
    BigEndian(jpg[start..start + size])
  }

  /** The last of the first n entries at base that carries the tag. */
  ghost function LastWith(jpg: seq<byte>, base: nat, n: nat, tag: u16): (r: Option<nat>)
    requires n > 0 ==> base + 12 * n <= |jpg|
    ensures r.Some? ==> r.value < n && NumberAt(jpg, base + 12 * r.value, 2) == tag
    ensures forall i :: (if r.Some? then r.value + 1 else 0) <= i < n ==> NumberAt(jpg, base + 12 * i, 2) != tag
  {
    if n == 0 then None
    else if NumberAt(jpg, base + 12 * (n - 1), 2) == tag then Some(n - 1)
    else LastWith(jpg, base, n - 1, tag)
  }

  /** The number in bytes 4 to 7 or 8 to 11 of an entry, or 0 without one. */
  ghost function EntryNumber(jpg: seq<byte>, base: nat, n: nat, entry: Option<nat>, from: nat): nat
    requires n > 0 ==> base + 12 * n <= |jpg|
    requires from <= 8 && (entry.Some? ==> entry.value < n)
  {
    if entry.Some? then NumberAt(jpg, base + 12 * entry.value + from, 4) else 0
  }

  ghost function EntryByte(jpg: seq<byte>, base: nat, n: nat, entry: Option<nat>, at: nat): byte
    requires n > 0 ==> base + 12 * n <= |jpg|
    requires at < 12 && (entry.Some? ==> entry.value < n)
  {
    if entry.Some? then jpg[base + 12 * entry.value + at] else 0
  }

  /** For each tag the last entry counts. */
  ghost predicate Found(f: Fields, jpg: seq<byte>, base: nat, n: nat)
    requires n > 0 ==> base + 12 * n <= |jpg|
  {
    var exposure, gains := LastWith(jpg, base, n, 0x9697), LastWith(jpg, base, n, 0x9698);
    var colour, boxes := LastWith(jpg, base, n, 0x9699), LastWith(jpg, base, n, 0x9696);
    && f.tags.exposure == EntryNumber(jpg, base, n, exposure, 8)
    && f.gainCount == EntryNumber(jpg, base, n, gains, 4) && f.gainOffset == EntryNumber(jpg, base, n, gains, 8)
    && f.bboxCount == EntryNumber(jpg, base, n, boxes, 4) && f.bboxOffset == EntryNumber(jpg, base, n, boxes, 8)
    && f.tags.y == EntryByte(jpg, base, n, colour, 8) && f.tags.u == EntryByte(jpg, base, n, colour, 9)
    && f.tags.v == EntryByte(jpg, base, n, colour, 10) && f.tags.flags == EntryByte(jpg, base, n, colour, 11)
    && f.tags.gain0 == f.tags.gain1 == f.tags.gain2 == f.tags.gain3 == 0
  }

  lemma EntryNumbers(jpg: seq<byte>, start: nat)
    requires start + 12 <= |jpg|
    ensures var e := jpg[start..start + 12];
            && Num16(e[..2]) == NumberAt(jpg, start, 2) && Num32(e[4..8]) == NumberAt(jpg, start + 4, 4)
            && Num32(e[8..12]) == NumberAt(jpg, start + 8, 4)
            && e[8] == jpg[start + 8] && e[9] == jpg[start + 9] && e[10] == jpg[start + 10] && e[11] == jpg[start + 11]
  {
    var e := jpg[start..start + 12];
    SliceOfSlice(jpg, start, start + 12, 0, 2);
    SliceOfSlice(jpg, start, start + 12, 4, 8);
    SliceOfSlice(jpg, start, start + 12, 8, 12);
    NumbersAreBigEndian(e[..2]);
    NumbersAreBigEndian(e[4..8]);
    NumbersAreBigEndian(e[8..12]);
  }

  lemma FoundMore(f: Fields, jpg: seq<byte>, base: nat, n: nat)
    requires base + 12 * (n + 1) <= |jpg| && Found(f, jpg, base, n)
    ensures Found(ApplyEntry(f, jpg[base + 12 * n..base + 12 * n + 12]), jpg, base, n + 1)
  {
    EntryNumbers(jpg, base + 12 * n);
    NumberMore(jpg, base, n, 0x9697, 8);
    NumberMore(jpg, base, n, 0x9698, 4);
    NumberMore(jpg, base, n, 0x9698, 8);
    NumberMore(jpg, base, n, 0x9696, 4);
    NumberMore(jpg, base, n, 0x9696, 8);
    ByteMore(jpg, base, n, 0x9699, 8);
    ByteMore(jpg, base, n, 0x9699, 9);
    ByteMore(jpg, base, n, 0x9699, 10);
    ByteMore(jpg, base, n, 0x9699, 11);
    hide Num16, Num32, NumberAt, LastWith, EntryNumber, EntryByte;
  }

  lemma NumberMore(jpg: seq<byte>, base: nat, n: nat, tag: u16, from: nat)
    requires base + 12 * (n + 1) <= |jpg| && from <= 8
    ensures EntryNumber(jpg, base, n + 1, LastWith(jpg, base, n + 1, tag), from)
            == if NumberAt(jpg, base + 12 * n, 2) == tag then NumberAt(jpg, base + 12 * n + from, 4)
               else EntryNumber(jpg, base, n, LastWith(jpg, base, n, tag), from)
  {
    hide NumberAt;
  }

  lemma ByteMore(jpg: seq<byte>, base: nat, n: nat, tag: u16, at: nat)
    requires base + 12 * (n + 1) <= |jpg| && at < 12
    ensures EntryByte(jpg, base, n + 1, LastWith(jpg, base, n + 1, tag), at)
            == if NumberAt(jpg, base + 12 * n, 2) == tag then jpg[base + 12 * n + at]
               else EntryByte(jpg, base, n, LastWith(jpg, base, n, tag), at)
  {
    hide NumberAt;
  }

  /** The entries read from ii on, the ones before having given f. */
  lemma {:induction false} EntriesFound(jpg: seq<byte>, base: nat, ii: nat, n: nat, f: Fields)
    requires ii <= n && (ii > 0 ==> base + 12 * ii <= |jpg|) && Found(f, jpg, base, ii)
    ensures var r := ReadEntries(jpg, base, ii, n, f);
            (r.None? <==> ii < n && base + 12 * n > |jpg|) && (r.Some? ==> Found(r.value, jpg, base, n))
    decreases n - ii
  {
    hide Found, ApplyEntry;
    if ii < n && base + 12 * ii + 12 <= |jpg| {
      FoundMore(f, jpg, base, ii);
      EntriesFound(jpg, base, ii + 1, n, ApplyEntry(f, jpg[base + 12 * ii..base + 12 * ii + 12]));
    }
  }

  lemma NothingFound(jpg: seq<byte>, base: nat)
    ensures Found(NO_FIELDS, jpg, base, 0)
  {
  }

  /** Box k of a list at base. */
  ghost predicate IsRectAt(r: Rect, jpg: seq<byte>, start: nat)
    requires start + 8 <= |jpg|
  {
    r.x0 == NumberAt(jpg, start, 2) && r.y0 == NumberAt(jpg, start + 2, 2) &&
    r.x1 == NumberAt(jpg, start + 4, 2) && r.y1 == NumberAt(jpg, start + 6, 2)
  }

  lemma RectIs(jpg: seq<byte>, start: nat)
    requires start + 8 <= |jpg|
    ensures IsRectAt(RectAt(jpg, start), jpg, start)
  {
    NumbersAreBigEndian(jpg[start..start + 2]);
    NumbersAreBigEndian(jpg[start + 2..start + 4]);
    NumbersAreBigEndian(jpg[start + 4..start + 6]);
    NumbersAreBigEndian(jpg[start + 6..start + 8]);
    hide Num16, BigEndian;
  }

  /** The list of boxes is cut off, or holds all of them in order. */
  lemma {:induction false} RectsFound(jpg: seq<byte>, base: nat, n: nat)
    ensures var r := ReadRects(jpg, base, n);
            && (r.None? <==> n > 0 && base + 8 * n > |jpg|)
            && (r.Some? ==> |r.value| == n && forall k :: 0 <= k < n ==> IsRectAt(r.value[k], jpg, base + 8 * k))
  {
    hide IsRectAt, RectAt;
    if n > 0 {
      RectsFound(jpg, base, n - 1);
      if base + 8 * n <= |jpg| { RectIs(jpg, base + 8 * (n - 1)); }
    }
  }

  /** The gains when there are four of them at an offset; without them, as they were. */
  lemma GainsFound(jpg: seq<byte>, f: Fields)
    ensures var r, off := ReadGains(jpg, f), 12 + f.gainOffset;
            && (r.None? <==> f.gainOffset > 0 && f.gainCount == 4 && off + 16 > |jpg|)
            && (r.Some? && !(f.gainOffset > 0 && f.gainCount == 4) ==> r.value == f.tags)
            && (r.Some? && f.gainOffset > 0 && f.gainCount == 4 ==>
                  && r.value == f.tags.(gain0 := r.value.gain0, gain1 := r.value.gain1,
                                        gain2 := r.value.gain2, gain3 := r.value.gain3)
                  && r.value.gain0 == NumberAt(jpg, off, 4) && r.value.gain1 == NumberAt(jpg, off + 4, 4)
                  && r.value.gain2 == NumberAt(jpg, off + 8, 4) && r.value.gain3 == NumberAt(jpg, off + 12, 4))
  {
    var off := 12 + f.gainOffset;
    if off + 16 <= |jpg| {
      NumbersAreBigEndian(jpg[off..off + 4]);
      NumbersAreBigEndian(jpg[off + 4..off + 8]);
      NumbersAreBigEndian(jpg[off + 8..off + 12]);
      NumbersAreBigEndian(jpg[off + 12..off + 16]);
      hide Num32, BigEndian;
    }
  }

  /** The directory named by the header is cut off. */
  ghost predicate DirectoryCut(jpg: seq<byte>, base: nat, n: nat) {
    n > 0 && base + 12 * n > |jpg|
  }

  /** Four gains or some boxes are announced that the data does not hold. */
  ghost predicate DataCut(jpg: seq<byte>, f: Fields) {
    || (f.gainOffset > 0 && f.gainCount == 4 && 12 + f.gainOffset + 16 > |jpg|)
    || (f.bboxOffset > 0 && f.bboxCount >= 4 && 12 + f.bboxOffset + 8 * (f.bboxCount / 4) > |jpg|)
  }

  /** The tags of the entries, with the gains read when there are four. */
  ghost predicate TagsAre(t: Tags, jpg: seq<byte>, f: Fields)
    requires !DataCut(jpg, f)
  {
    && t == f.tags.(gain0 := t.gain0, gain1 := t.gain1, gain2 := t.gain2, gain3 := t.gain3)
    && if f.gainOffset > 0 && f.gainCount == 4 then
         var off := 12 + f.gainOffset;
         && t.gain0 == NumberAt(jpg, off, 4) && t.gain1 == NumberAt(jpg, off + 4, 4)
         && t.gain2 == NumberAt(jpg, off + 8, 4) && t.gain3 == NumberAt(jpg, off + 12, 4)
       else t == f.tags
  }

  ghost predicate BoxesAre(rects: seq<Rect>, jpg: seq<byte>, f: Fields)
    requires !DataCut(jpg, f)
  {
    |rects| == (if f.bboxOffset > 0 then f.bboxCount / 4 else 0) &&
    forall k :: 0 <= k < |rects| ==> IsRectAt(rects[k], jpg, 12 + f.bboxOffset + 8 * k)
  }

  lemma HeaderNumbers(jpg: seq<byte>)
    requires |jpg| >= 22
    ensures Num32(jpg[16..20]) == NumberAt(jpg, 16, 4) && Num16(jpg[20..22]) == NumberAt(jpg, 20, 2)
  {
    NumbersAreBigEndian(jpg[16..20]);
    NumbersAreBigEndian(jpg[20..22]);
  }

  lemma FinishFinds(jpg: seq<byte>, f: Fields)
    ensures Finish(jpg, f).StructError? <==> DataCut(jpg, f)
    ensures Finish(jpg, f).Parsed? ==> TagsAre(Finish(jpg, f).tags, jpg, f) && BoxesAre(Finish(jpg, f).rects, jpg, f)
  {
    GainsFound(jpg, f);
    RectsFound(jpg, 12 + f.bboxOffset, f.bboxCount / 4);
    hide ReadGains, ReadRects, IsRectAt, NumberAt;
  }

  /** What parse_tif_tags makes of any bytes: it fails exactly when the header, the directory, the gains or
      the boxes are cut off; else the tags and offsets are those of the last entry of each kind, the gains
      are read if there are four, and the boxes are all there, in order. */
  lemma ParseFinds(jpg: seq<byte>) returns (f: Fields)
    ensures |jpg| < 22 ==> Parse(jpg).StructError?
    ensures |jpg| >= 22 ==>
              var base, n := 14 + NumberAt(jpg, 16, 4), NumberAt(jpg, 20, 2);
              if DirectoryCut(jpg, base, n) then Parse(jpg).StructError?
              else
                && Found(f, jpg, base, n) && (Parse(jpg).StructError? <==> DataCut(jpg, f))
                && (Parse(jpg).Parsed? ==> TagsAre(Parse(jpg).tags, jpg, f) && BoxesAre(Parse(jpg).rects, jpg, f))
  {
    hide *;
    f := NO_FIELDS;
    ParseStarts(jpg);
    if |jpg| >= 22 {
      var base, n := 14 + NumberAt(jpg, 16, 4), NumberAt(jpg, 20, 2);
      DirectoryFound(jpg, base, n);
      if !DirectoryCut(jpg, base, n) {
        f := ReadEntries(jpg, base, 0, n, NO_FIELDS).value;
        FinishFinds(jpg, f);
      }
    }
  }

  lemma ParseStarts(jpg: seq<byte>)
    ensures |jpg| < 22 ==> Parse(jpg).StructError?
    ensures |jpg| >= 22 ==>
              var r := ReadEntries(jpg, 14 + NumberAt(jpg, 16, 4), 0, NumberAt(jpg, 20, 2), NO_FIELDS);
              Parse(jpg) == if r.None? then StructError else Finish(jpg, r.value)
  {
    hide ReadEntries, Finish, NumberAt, Num16, Num32;
    if |jpg| >= 22 { HeaderNumbers(jpg); }
  }

  lemma DirectoryFound(jpg: seq<byte>, base: nat, n: nat)
    ensures var r := ReadEntries(jpg, base, 0, n, NO_FIELDS);
            (r.None? <==> DirectoryCut(jpg, base, n)) &&
            (!DirectoryCut(jpg, base, n) ==> (n > 0 ==> base + 12 * n <= |jpg|) && Found(r.value, jpg, base, n))
  {
    hide ReadEntries, Found;
    NothingFound(jpg, base);
    EntriesFound(jpg, base, 0, n, NO_FIELDS);
  }

  // ----- Reading back what was written -----

  lemma {:induction false} CoordAt(cs: seq<u16>, k: nat)
    requires k < |cs|
    ensures CoordBytes(cs)[2 * k..2 * k + 2] == Be16(cs[k])
    decreases |cs|
  {
    var front := cs[..|cs| - 1];
    if k < |front| {
      CoordAt(front, k);
      assert CoordBytes(cs)[2 * k..2 * k + 2] == CoordBytes(front)[2 * k..2 * k + 2];
    }
  }

  /** The boxes a list of coordinates stands for. */
  function Boxes(cs: seq<u16>): (rs: seq<Rect>)
    requires |cs| % 4 == 0
  {
    if cs == [] then []
    else
      var k := |cs| - 4;
      Boxes(cs[..k]) + [Rect(cs[k], cs[k + 1], cs[k + 2], cs[k + 3])]
  }

  /** Four coordinates to a box: left, top, right, bottom. */
  lemma {:induction false} BoxesAt(cs: seq<u16>, k: nat)
    requires |cs| % 4 == 0 && 4 * k + 4 <= |cs|
    ensures |Boxes(cs)| == |cs| / 4
    ensures Boxes(cs)[k] == Rect(cs[4 * k], cs[4 * k + 1], cs[4 * k + 2], cs[4 * k + 3])
    decreases |cs|
  {
    var front := cs[..|cs| - 4];
    if front != [] { BoxesAt(front, if 4 * k < |front| then k else 0); }
  }

  lemma SliceOfSlice(s: seq<byte>, a: nat, b: nat, c: nat, d: nat)
    requires a <= b <= |s| && c <= d <= b - a
    ensures s[a..b][c..d] == s[a + c..a + d]
  {
    var x, y := s[a..b][c..d], s[a + c..a + d];
    assert forall i :: 0 <= i < d - c ==> x[i] == s[a + c + i] && y[i] == s[a + c + i];
  }

  lemma CoordSlice(buf: seq<byte>, c: seq<byte>, lo: nat, start: nat)
    requires At(buf, BBOX_OFFSET, c) && lo + 2 <= |c| && start == TIFF_TAGS_OFFSET + BBOX_OFFSET + lo
    ensures start + 2 <= |buf| && buf[start..start + 2] == c[lo..lo + 2]
  {
  }

  lemma CoordRead(buf: seq<byte>, cs: seq<u16>, k: nat, start: nat)
    requires At(buf, BBOX_OFFSET, CoordBytes(cs)) && k < |cs| && start == TIFF_TAGS_OFFSET + BBOX_OFFSET + 2 * k
    ensures start + 2 <= |buf| && Word(buf, start) == cs[k]
  {
    hide CoordBytes, Be16, Num16, At;
    var lo := 2 * k;
    CoordSlice(buf, CoordBytes(cs), lo, start);
    CoordAt(cs, k);
    Numbers16(cs[k]);
  }

  lemma {:induction false} RectsRead(buf: seq<byte>, cs: seq<u16>, m: nat)
    requires At(buf, BBOX_OFFSET, CoordBytes(cs)) && 4 * m <= |cs|
    ensures ReadRects(buf, TIFF_TAGS_OFFSET + BBOX_OFFSET, m) == Some(Boxes(cs[..4 * m]))
  {
    if m > 0 {
      var k := 4 * (m - 1);
      RectsRead(buf, cs, m - 1);
      RectRead(buf, cs, k);
      BoxesMore(cs, k);
      hide *;
      RectsReadMore(buf, TIFF_TAGS_OFFSET + BBOX_OFFSET, m, Boxes(cs[..k]),
                    Rect(cs[k], cs[k + 1], cs[k + 2], cs[k + 3]));
    }
  }

  lemma RectRead(buf: seq<byte>, cs: seq<u16>, k: nat)
    requires At(buf, BBOX_OFFSET, CoordBytes(cs)) && k + 4 <= |cs|
    ensures TIFF_TAGS_OFFSET + BBOX_OFFSET + 2 * k + 8 <= |buf|
    ensures RectAt(buf, TIFF_TAGS_OFFSET + BBOX_OFFSET + 2 * k) == Rect(cs[k], cs[k + 1], cs[k + 2], cs[k + 3])
  {
    hide CoordBytes, At, Word;
    var start := TIFF_TAGS_OFFSET + BBOX_OFFSET + 2 * k;
    CoordRead(buf, cs, k, start);
    CoordRead(buf, cs, k + 1, start + 2);
    CoordRead(buf, cs, k + 2, start + 4);
    CoordRead(buf, cs, k + 3, start + 6);
  }

  lemma BoxesMore(cs: seq<u16>, k: nat)
    requires k % 4 == 0 && k + 4 <= |cs|
    ensures Boxes(cs[..k + 4]) == Boxes(cs[..k]) + [Rect(cs[k], cs[k + 1], cs[k + 2], cs[k + 3])]
  {
    assert cs[..k + 4][..k] == cs[..k];
  }

  lemma RectsReadMore(buf: seq<byte>, base: nat, m: nat, rs: seq<Rect>, r: Rect)
    requires m > 0 && ReadRects(buf, base, m - 1) == Some(rs) && base + 8 * m <= |buf|
    requires RectAt(buf, base + 8 * (m - 1)) == r
    ensures ReadRects(buf, base, m) == Some(rs + [r])
  {
  }

  lemma EntryParts(tag: u16, kind: u16, count: u32, value: seq<byte>)
    requires |value| == 4
    ensures var e := Ifd(tag, kind, count, value);
            Num16(e[..2]) == tag && Num32(e[4..8]) == count && e[8..12] == value
  {
    var e := Ifd(tag, kind, count, value);
    assert e[..2] == Be16(tag) && e[4..8] == Be32(count) && e[8..12] == value;
    Numbers16(tag);
    Numbers32(count);
  }

  lemma AtIs(buf: seq<byte>, offset: nat, piece: seq<byte>)
    requires At(buf, offset, piece)
    ensures TIFF_TAGS_OFFSET + offset + |piece| <= |buf|
    ensures buf[TIFF_TAGS_OFFSET + offset..TIFF_TAGS_OFFSET + offset + |piece|] == piece
  {
  }

  /** The offset of the directory and the number of its entries. */
  lemma MagicRead(buf: seq<byte>)
    requires At(buf, 0, MAGIC)
    ensures |buf| >= 22 && Num32(buf[16..20]) == 8 && Num16(buf[20..22]) == 4
  {
    AtIs(buf, 0, MAGIC);
    assert buf[12..22] == MAGIC;
    assert forall k :: 12 <= k < 22 ==> buf[k] == buf[12..22][k - 12];
    var offset, count := buf[16..20], buf[20..22];
    assert offset[0] == MAGIC[4] && offset[1] == MAGIC[5] && offset[2] == MAGIC[6] && offset[3] == MAGIC[7];
    assert count[0] == MAGIC[8] && count[1] == MAGIC[9];
  }

  /** The four entries of the directory, and where the fixed part says they are. */
  lemma DirectoryRead(buf: seq<byte>, t: Tags, n: u16)
    requires At(buf, 0, Directory(t, n))
    ensures |buf| >= 70 && Num32(buf[16..20]) == 8 && Num16(buf[20..22]) == 4
    ensures buf[22..34] == Ifd(0x9697, 4, 1, Be32(t.exposure))
    ensures buf[34..46] == Ifd(0x9699, 1, 4, [t.y, t.u, t.v, t.flags])
    ensures buf[46..58] == Ifd(0x9698, 11, 4, Be32(GAIN_OFFSET))
    ensures buf[58..70] == Ifd(0x9696, 3, n, Be32(BBOX_OFFSET))
  {
    hide Ifd, Be32, Be16, At, Num32, Num16;
    var e1, e2 := Ifd(0x9697, 4, 1, Be32(t.exposure)), Ifd(0x9699, 1, 4, [t.y, t.u, t.v, t.flags]);
    var e3, e4 := Ifd(0x9698, 11, 4, Be32(GAIN_OFFSET)), Ifd(0x9696, 3, n, Be32(BBOX_OFFSET));
    var d := Directory(t, n);
    assert d == [] + MAGIC + (e1 + e2 + e3 + e4 + Be32(0));
    assert d == MAGIC + e1 + (e2 + e3 + e4 + Be32(0));
    assert d == (MAGIC + e1) + e2 + (e3 + e4 + Be32(0));
    assert d == (MAGIC + e1 + e2) + e3 + (e4 + Be32(0));
    assert d == (MAGIC + e1 + e2 + e3) + e4 + Be32(0);
    AtPart(buf, 0, [], MAGIC, e1 + e2 + e3 + e4 + Be32(0));
    AtPart(buf, 0, MAGIC, e1, e2 + e3 + e4 + Be32(0));
    AtPart(buf, 0, MAGIC + e1, e2, e3 + e4 + Be32(0));
    AtPart(buf, 0, MAGIC + e1 + e2, e3, e4 + Be32(0));
    AtPart(buf, 0, MAGIC + e1 + e2 + e3, e4, Be32(0));
    MagicRead(buf);
    AtIs(buf, 10, e1);
    AtIs(buf, 22, e2);
    AtIs(buf, 34, e3);
    AtIs(buf, 46, e4);
  }

  /** The fields after the four entries. */
  function Collected(t: Tags, n: u16): Fields {
    Fields(NO_TAGS.(exposure := t.exposure, y := t.y, u := t.u, v := t.v, flags := t.flags),
           GAIN_OFFSET, 4, BBOX_OFFSET, n)
  }

  lemma EntriesCollected(t: Tags, n: u16)
    ensures var f0 := NO_FIELDS;
            var f1 := ApplyEntry(f0, Ifd(0x9697, 4, 1, Be32(t.exposure)));
            var f2 := ApplyEntry(f1, Ifd(0x9699, 1, 4, [t.y, t.u, t.v, t.flags]));
            var f3 := ApplyEntry(f2, Ifd(0x9698, 11, 4, Be32(GAIN_OFFSET)));
            ApplyEntry(f3, Ifd(0x9696, 3, n, Be32(BBOX_OFFSET))) == Collected(t, n)
  {
    hide Ifd, Be32, Num16, Num32;
    EntryParts(0x9697, 4, 1, Be32(t.exposure));
    EntryParts(0x9699, 1, 4, [t.y, t.u, t.v, t.flags]);
    EntryParts(0x9698, 11, 4, Be32(GAIN_OFFSET));
    EntryParts(0x9696, 3, n, Be32(BBOX_OFFSET));
    Numbers32(t.exposure);
    Numbers32(GAIN_OFFSET);
    Numbers32(BBOX_OFFSET);
    var e := Ifd(0x9699, 1, 4, [t.y, t.u, t.v, t.flags]);
    assert e[8] == e[8..12][0] && e[9] == e[8..12][1] && e[10] == e[8..12][2] && e[11] == e[8..12][3];
  }

  lemma GainsRead(buf: seq<byte>, t: Tags, n: u16)
    requires At(buf, GAIN_OFFSET, Gains(t))
    ensures ReadGains(buf, Collected(t, n)) == Some(t)
  {
    var base := TIFF_TAGS_OFFSET + GAIN_OFFSET;
    var g := Gains(t);
    assert g[0..4] == Be32(t.gain0) && g[4..8] == Be32(t.gain1);
    assert g[8..12] == Be32(t.gain2) && g[12..16] == Be32(t.gain3);
    SliceOfSlice(buf, base, base + 16, 0, 4);
    SliceOfSlice(buf, base, base + 16, 4, 8);
    SliceOfSlice(buf, base, base + 16, 8, 12);
    SliceOfSlice(buf, base, base + 16, 12, 16);
    hide Be32, Num32;
    Numbers32(t.gain0);
    Numbers32(t.gain1);
    Numbers32(t.gain2);
    Numbers32(t.gain3);
  }

  lemma EntriesRead(buf: seq<byte>, t: Tags, n: u16)
    requires At(buf, 0, Directory(t, n))
    ensures |buf| >= 22 && ReadEntries(buf, 22, 0, 4, NO_FIELDS) == Some(Collected(t, n))
  {
    hide Ifd, Be32, Num16, Num32, ApplyEntry, At, Directory;
    DirectoryRead(buf, t, n);
    EntriesCollected(t, n);
    var f0 := NO_FIELDS;
    var f1 := ApplyEntry(f0, buf[22..34]);
    var f2 := ApplyEntry(f1, buf[34..46]);
    var f3 := ApplyEntry(f2, buf[46..58]);
    var f4 := ApplyEntry(f3, buf[58..70]);
    assert ReadEntries(buf, 22, 4, 4, f4) == Some(f4);
    assert ReadEntries(buf, 22, 3, 4, f3) == Some(f4);
    assert ReadEntries(buf, 22, 2, 4, f2) == Some(f4);
    assert ReadEntries(buf, 22, 1, 4, f1) == Some(f4);
  }

  lemma WrittenParts(buf: seq<byte>, t: Tags, coords: seq<u16>, byteCount: nat)
    requires Written(buf, t, coords, byteCount)
    ensures |coords| < 0x1_0000
    ensures At(buf, 0, Directory(t, |coords|)) && At(buf, GAIN_OFFSET, Gains(t))
    ensures At(buf, BBOX_OFFSET, CoordBytes(coords))
  {
  }

  /** parse_tif_tags reads back what overwrite_tif_tags wrote: the same exposure, gain words, YUV and
      flags, and the boxes that were kept. */
  lemma ParseInvertsWrite(buf: seq<byte>, t: Tags, coords: seq<u16>, byteCount: nat)
    requires Written(buf, t, coords, byteCount) && |coords| % 4 == 0
    ensures Parse(buf) == Parsed(t, Boxes(coords))
  {
    hide Written, At, Directory, Gains, CoordBytes, Boxes, ReadEntries, ReadRects, ReadGains, Num16, Num32, ApplyEntry;
    WrittenParts(buf, t, coords, byteCount);
    var n, m := |coords|, |coords| / 4;
    DirectoryRead(buf, t, n);
    EntriesRead(buf, t, n);
    GainsRead(buf, t, n);
    assert coords[..4 * m] == coords;
    RectsRead(buf, coords, m);
  }
}
