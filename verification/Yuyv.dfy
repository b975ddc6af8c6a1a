/** yuyv422ToYuv420: packed YUYV to NV12, four pixels of two rows per step. */
module Yuyv {
  import opened Products

  // ---------------------------------------------------------------------
  // 32-bit words and their bytes, as bit vectors

  function Word(b0: bv8, b1: bv8, b2: bv8, b3: bv8): bv32 {
    (b0 as bv32) | ((b1 as bv32) << 8) | ((b2 as bv32) << 16) | ((b3 as bv32) << 24)
  }

  /** Byte i of a word. */
  function Lane(w: bv32, i: nat): bv8
    requires i < 4
  {
    if i == 0 then (w & 0xFF) as bv8
    else if i == 1 then ((w >> 8) & 0xFF) as bv8
    else if i == 2 then ((w >> 16) & 0xFF) as bv8
    else ((w >> 24) & 0xFF) as bv8
  }

  lemma LaneOfWord(b0: bv8, b1: bv8, b2: bv8, b3: bv8)
    ensures var w := Word(b0, b1, b2, b3);
            Lane(w, 0) == b0 && Lane(w, 1) == b1 && Lane(w, 2) == b2 && Lane(w, 3) == b3
  {
  }

  /** The word of luma stored for two source words. */
  function PackLuma(data: bv32, data1: bv32): bv32 {
    (data & 0xFF) + ((data & 0xFF0000) >> 8) + ((data1 & 0xFF) << 16) + ((data1 & 0xFF0000) << 8)
  }

  /** The chroma bytes of two source words. */
  function PackChroma(data: bv32, data1: bv32): bv32 {
    ((data & 0xFF00) >> 8) + ((data & 0xFF00_0000) >> 16) + ((data1 & 0xFF00) << 8) + (data1 & 0xFF00_0000)
  }

  /** Masking, shifting and adding picks the even bytes of two words, and the odd ones. */
  lemma PackPicks(a0: bv8, a1: bv8, a2: bv8, a3: bv8, b0: bv8, b1: bv8, b2: bv8, b3: bv8)
    ensures PackLuma(Word(a0, a1, a2, a3), Word(b0, b1, b2, b3)) == Word(a0, a2, b0, b2)
    ensures PackChroma(Word(a0, a1, a2, a3), Word(b0, b1, b2, b3)) == Word(a1, a3, b1, b3)
  {
  }

  /** The sum of two bytes, which takes nine bits, without its lowest bit. */
  function Average(a: bv8, b: bv8): bv8 {
    ((a as bv9 + b as bv9) >> 1) as bv8
  }

  /** That is half the sum, rounded down. */
  lemma AverageIsFloor(a: bv8, b: bv8)
    ensures var sum, twice := a as bv9 + b as bv9, 2 * (Average(a, b) as bv9);
            sum >= a as bv9 && (sum == twice || sum == twice + 1)
  {
  }

  /** UHADD8: the unsigned halving add of each byte lane. */
  function Uhadd8(a: bv32, b: bv32): bv32 {
    Word(Average(Lane(a, 0), Lane(b, 0)), Average(Lane(a, 1), Lane(b, 1)),
         Average(Lane(a, 2), Lane(b, 2)), Average(Lane(a, 3), Lane(b, 3)))
  }

  // ---------------------------------------------------------------------
  // The image

  /** NV12 in terms of the packed source: luma is every even byte; the chroma byte at
      column c of chroma row r is the floor average of odd byte c of source rows 2r, 2r + 1. */
  function Nv12(src: seq<bv8>, w: nat, h: nat): (dst: seq<bv8>)
    requires w > 0 && h % 2 == 0 && |src| >= 2 * (w * h)
    ensures |dst| == w * h + w * (h / 2)
    ensures forall k | 0 <= k < w * h :: dst[k] == src[2 * k]
  {
    seq(w * h, k requires 0 <= k < w * h => src[2 * k])
    + seq(w * (h / 2), k requires 0 <= k < w * (h / 2) => Chroma(src, w, h, k))
  }

  function Chroma(src: seq<bv8>, w: nat, h: nat, k: nat): bv8
    requires w > 0 && h % 2 == 0 && |src| >= 2 * (w * h) && k < w * (h / 2)
  {
    ChromaInside(w, h, k);
    var top := 4 * (w * (k / w)) + 2 * (k % w) + 1;
    Average(src[top], src[top + 2 * w])
  }

  lemma ChromaInside(w: nat, h: nat, k: nat)
    requires w > 0 && h % 2 == 0 && k < w * (h / 2)
    ensures 0 <= k / w < h / 2 && 0 <= k % w < w
    ensures 4 * (w * (k / w)) + 2 * (k % w) + 1 + 2 * w < 2 * (w * h)
    ensures k / w >= 0 && w * (k / w) >= 0
  {
    DivBelow(w, h / 2, k);
    MulMonotone(w, k / w + 1, h / 2);
    assert w * (k / w + 1) == w * (k / w) + w;
    assert w * h == 2 * (w * (h / 2));
  }

  // ---------------------------------------------------------------------
  // The loop

  function Load(a: array<bv8>, p: nat): bv32
    requires p + 4 <= a.Length
    reads a
  {
    Word(a[p], a[p + 1], a[p + 2], a[p + 3])
  }

  method Store(a: array<bv8>, p: nat, w: bv32)
    requires p + 4 <= a.Length
    modifies a
    ensures forall k | p <= k < p + 4 :: a[k] == Lane(w, k - p)
    ensures forall k | 0 <= k < a.Length && !(p <= k < p + 4) :: a[k] == old(a[k])
  {
    a[p], a[p + 1], a[p + 2], a[p + 3] := Lane(w, 0), Lane(w, 1), Lane(w, 2), Lane(w, 3);
  }

  lemma LanesOfRow(a: array<bv8>, p: nat)
    requires p + 8 <= a.Length
    ensures forall i | 0 <= i < 4 ::
              && Lane(PackLuma(Load(a, p), Load(a, p + 4)), i) == a[p + 2 * i]
              && Lane(PackChroma(Load(a, p), Load(a, p + 4)), i) == a[p + 2 * i + 1]
  {
    hide Word, Lane, PackLuma, PackChroma;
    PackPicks(a[p], a[p + 1], a[p + 2], a[p + 3], a[p + 4], a[p + 5], a[p + 6], a[p + 7]);
    LaneOfWord(a[p], a[p + 2], a[p + 4], a[p + 6]);
    LaneOfWord(a[p + 1], a[p + 3], a[p + 5], a[p + 7]);
    forall i | 0 <= i < 4
      ensures Lane(PackLuma(Load(a, p), Load(a, p + 4)), i) == a[p + 2 * i]
      ensures Lane(PackChroma(Load(a, p), Load(a, p + 4)), i) == a[p + 2 * i + 1]
    {
      assert i == 0 || i == 1 || i == 2 || i == 3;
    }
  }

  lemma LanesOfAverage(a: bv32, b: bv32)
    ensures forall i | 0 <= i < 4 :: Lane(Uhadd8(a, b), i) == Average(Lane(a, i), Lane(b, i))
  {
    hide Word, Lane, Average;
    LaneOfWord(Average(Lane(a, 0), Lane(b, 0)), Average(Lane(a, 1), Lane(b, 1)),
               Average(Lane(a, 2), Lane(b, 2)), Average(Lane(a, 3), Lane(b, 3)));
  }

  /** The body of the inner loop: four pixels of two rows. */
  method ConvertBlock(src: array<bv8>, dst: array<bv8>, sp: nat, sp2: nat, yp: nat, y2p: nat, uvp: nat)
    requires src != dst
    requires sp + 8 <= src.Length && sp2 + 8 <= src.Length
    requires yp + 4 <= y2p && y2p + 4 <= uvp && uvp + 4 <= dst.Length
    modifies dst
    ensures forall k | yp <= k < yp + 4 :: dst[k] == src[sp + 2 * (k - yp)]
    ensures forall k | y2p <= k < y2p + 4 :: dst[k] == src[sp2 + 2 * (k - y2p)]
    ensures forall k | uvp <= k < uvp + 4 ::
              dst[k] == Average(src[sp + 2 * (k - uvp) + 1], src[sp2 + 2 * (k - uvp) + 1])
    ensures forall k | 0 <= k < dst.Length
              && !(yp <= k < yp + 4) && !(y2p <= k < y2p + 4) && !(uvp <= k < uvp + 4) ::
              dst[k] == old(dst[k])
  {
    hide Word, Lane, PackLuma, PackChroma, Uhadd8, Average;
    var data, data1 := Load(src, sp), Load(src, sp + 4);
    var data2, data3 := Load(src, sp2), Load(src, sp2 + 4);
    LanesOfRow(src, sp);
    LanesOfRow(src, sp2);
    Store(dst, yp, PackLuma(data, data1));
    Store(dst, y2p, PackLuma(data2, data3));
    var tmpUv, tmpUv2 := PackChroma(data, data1), PackChroma(data2, data3);
    LanesOfAverage(tmpUv, tmpUv2);
    Store(dst, uvp, Uhadd8(tmpUv, tmpUv2));
  }

  lemma CursorRoom(w: nat, h: nat, y: nat)
    requires y % 2 == 0 && h % 2 == 0 && y < h
    ensures w * y + 2 * w <= w * h
    ensures w * (y + 2) == w * y + 2 * w
    ensures w * ((y + 2) / 2) == w * (y / 2) + w
    ensures w * (y / 2) + w <= w * (h / 2)
    ensures w * y == 2 * (w * (y / 2)) && w * h == 2 * (w * (h / 2))
  {
    MulMonotone(w, y + 2, h);
    MulMonotone(w, y / 2 + 1, h / 2);
    assert w * (y / 2 + 1) == w * (y / 2) + w;
  }

  /** A chroma byte of the current row pair, from the cursors' positions. */
  lemma ChromaAt(src: seq<bv8>, w: nat, h: nat, y: nat, c: nat)
    requires w > 0 && h % 2 == 0 && |src| >= 2 * (w * h)
    requires y % 2 == 0 && y < h && c < w
    ensures w * (y / 2) + c < w * (h / 2)
    ensures 2 * (w * y + c) + 1 + 2 * w < |src|
    ensures Chroma(src, w, h, w * (y / 2) + c)
         == Average(src[2 * (w * y + c) + 1], src[2 * (w * y + c) + 1 + 2 * w])
  {
    CursorRoom(w, h, y);
    DivModOf(w, y / 2, c);
  }

  /** The twelve bytes of the image that one block has to produce. */
  lemma BlockOfImage(src: seq<bv8>, w: nat, h: nat, y: nat, x: nat)
    requires w > 0 && h % 2 == 0 && |src| >= 2 * (w * h)
    requires y % 2 == 0 && y < h && x + 4 <= w
    ensures w * y + 2 * w <= w * h && w * (y / 2) + w <= w * (h / 2)
    ensures w * y + x + 4 + w <= w * h
    ensures var t, p := Nv12(src, w, h), w * y + x;
            && (forall k | p <= k < p + 4 :: t[k] == src[2 * p + 2 * (k - p)])
            && (forall k | p + w <= k < p + w + 4 :: t[k] == src[2 * p + 2 * w + 2 * (k - p - w)])
    ensures ChromaBlock(src, Nv12(src, w, h), w * y + x, w, w * h + w * (y / 2) + x)
  {
    hide Chroma, Average;
    CursorRoom(w, h, y);
    var t, uv := Nv12(src, w, h), w * h + w * (y / 2) + x;
    forall k | uv <= k < uv + 4
      ensures t[k] == Average(src[2 * (w * y + x) + 2 * (k - uv) + 1],
                              src[2 * (w * y + x) + 2 * w + 2 * (k - uv) + 1])
    {
      ChromaAt(src, w, h, y, x + k - uv);
    }
  }

  ghost predicate ChromaBlock(src: seq<bv8>, t: seq<bv8>, p: nat, w: nat, uv: nat) {
    && uv + 4 <= |t| && 2 * p + 2 * w + 8 <= |src|
    && forall k | uv <= k < uv + 4 ::
         t[k] == Average(src[2 * p + 2 * (k - uv) + 1], src[2 * p + 2 * w + 2 * (k - uv) + 1])
  }

  /** Luma up to p and chroma up to q are done, and x columns of the next two rows. */
  ghost predicate Converted(t: seq<bv8>, dst: seq<bv8>, n: nat, p: nat, q: nat, w: nat, x: nat) {
    && p + w + x <= n && n + q + x <= |t| <= |dst|
    && (forall k | 0 <= k < p + x :: dst[k] == t[k])
    && (forall k | p + w <= k < p + w + x :: dst[k] == t[k])
    && forall k | n <= k < n + q + x :: dst[k] == t[k]
  }

  lemma ConvertStep(t: seq<bv8>, before: seq<bv8>, dst: seq<bv8>, n: nat, p: nat, q: nat, w: nat, x: nat)
    requires Converted(t, before, n, p, q, w, x)
    requires x + 4 <= w && p + 2 * w <= n && n + q + w <= |t| <= |dst| == |before|
    requires forall k | p + x <= k < p + x + 4 :: dst[k] == t[k]
    requires forall k | p + x + w <= k < p + x + w + 4 :: dst[k] == t[k]
    requires forall k | n + q + x <= k < n + q + x + 4 :: dst[k] == t[k]
    requires forall k | 0 <= k < |dst| && !(p + x <= k < p + x + 4)
               && !(p + x + w <= k < p + x + w + 4) && !(n + q + x <= k < n + q + x + 4) ::
               dst[k] == before[k]
    ensures Converted(t, dst, n, p, q, w, x + 4)
  {
  }

  /** One block of the inner loop, at column x of the row pair whose luma starts at p and
      whose chroma starts at q of its plane. */
  method ConvertAt(src: array<bv8>, dst: array<bv8>, ghost w: nat, ghost h: nat, ghost y: nat, ghost x: nat,
                   sp: nat, sp2: nat, yp: nat, y2p: nat, uvp: nat)
    requires src != dst
    requires w > 0 && h % 2 == 0 && src.Length >= 2 * (w * h)
    requires y % 2 == 0 && y < h && x + 4 <= w
    requires yp == w * y + x && y2p == yp + w && uvp == w * h + w * (y / 2) + x
    requires sp == 2 * yp && sp2 == sp + 2 * w
    requires Converted(Nv12(src[..], w, h), dst[..], w * h, w * y, w * (y / 2), w, x)
    modifies dst
    ensures Converted(Nv12(src[..], w, h), dst[..], w * h, w * y, w * (y / 2), w, x + 4)
    ensures forall k | w * h + w * (h / 2) <= k < dst.Length :: dst[k] == old(dst[k])
  {
    hide Nv12, Average, Converted;
    ghost var t, before := Nv12(src[..], w, h), dst[..];
    BlockOfImage(src[..], w, h, y, x);
    ConvertedRoom(t, dst[..], w * h, w * y, w * (y / 2), w, x);
    ConvertBlock(src, dst, sp, sp2, yp, y2p, uvp);
    ConvertStep(t, before, dst[..], w * h, w * y, w * (y / 2), w, x);
  }

  lemma ConvertedRoom(t: seq<bv8>, dst: seq<bv8>, n: nat, p: nat, q: nat, w: nat, x: nat)
    requires Converted(t, dst, n, p, q, w, x)
    ensures |t| <= |dst|
  {
  }

  /** The inner loop: two rows of luma and one of chroma. */
  method ConvertRowPair(src: array<bv8>, dst: array<bv8>, width: nat, ghost height: nat, ghost y: nat,
                        sp: nat, sp2: nat, yp: nat, y2p: nat, uvp: nat)
    returns (spEnd: nat, ypEnd: nat, uvpEnd: nat)
    requires src != dst
    requires width > 0 && width % 4 == 0 && height % 2 == 0 && src.Length >= 2 * (width * height)
    requires y % 2 == 0 && y < height
    requires yp == width * y && y2p == yp + width && uvp == width * height + width * (y / 2)
    requires sp == 2 * yp && sp2 == sp + 2 * width
    requires Converted(Nv12(src[..], width, height), dst[..], width * height, width * y, width * (y / 2), width, 0)
    modifies dst
    ensures Converted(Nv12(src[..], width, height), dst[..], width * height, width * y, width * (y / 2), width, width)
    ensures forall k | width * height + width * (height / 2) <= k < dst.Length :: dst[k] == old(dst[k])
    ensures ypEnd == width * y + 2 * width && spEnd == 2 * ypEnd
    ensures uvpEnd == width * height + width * (y / 2) + width
  {
    hide Nv12, Converted;
    var sp, sp2, yp, y2p, uvp := sp, sp2, yp, y2p, uvp;
    ghost var t, n, p, q := Nv12(src[..], width, height), width * height, width * y, width * (y / 2);
    var x := 0;
    while x < width
      invariant x <= width && x % 4 == 0
      invariant yp == p + x && y2p == p + width + x && uvp == n + q + x
      invariant sp == 2 * (p + x) && sp2 == sp + 2 * width
      invariant Converted(t, dst[..], n, p, q, width, x)
      invariant forall k | |t| <= k < dst.Length :: dst[k] == old(dst[k])
    {
      ConvertAt(src, dst, width, height, y, x, sp, sp2, yp, y2p, uvp);
      sp, sp2 := sp + 8, sp2 + 8;
      yp, y2p, uvp := yp + 4, y2p + 4, uvp + 4;
      x := x + 4;
    }
    return sp2, y2p, uvp;
  }

  /** Luma up to p and chroma up to q are done. */
  ghost predicate Done(t: seq<bv8>, dst: seq<bv8>, n: nat, p: nat, q: nat) {
    && p <= n && n + q <= |t| <= |dst|
    && (forall k | 0 <= k < p :: dst[k] == t[k])
    && forall k | n <= k < n + q :: dst[k] == t[k]
  }

  lemma PairStarts(t: seq<bv8>, dst: seq<bv8>, n: nat, p: nat, q: nat, w: nat)
    requires Done(t, dst, n, p, q) && p + w <= n
    ensures Converted(t, dst, n, p, q, w, 0)
  {
  }

  lemma PairEnds(t: seq<bv8>, dst: seq<bv8>, n: nat, p: nat, q: nat, w: nat)
    requires Converted(t, dst, n, p, q, w, w)
    ensures Done(t, dst, n, p + 2 * w, q + w)
  {
  }

  lemma AllDone(t: seq<bv8>, dst: seq<bv8>, n: nat, q: nat)
    requires Done(t, dst, n, n, q) && |t| == n + q
    ensures dst[..|t|] == t
  {
  }

  method Yuyv422ToYuv420(src: array<bv8>, dst: array<bv8>, width: nat, height: nat)
    requires src != dst
    requires width % 4 == 0 && height % 2 == 0
    requires src.Length >= 2 * (width * height)
    requires dst.Length >= width * height + width * (height / 2)
    modifies dst
    ensures width > 0 ==>
              dst[..width * height + width * (height / 2)] == Nv12(src[..], width, height)
    ensures forall k | width * height + width * (height / 2) <= k < dst.Length :: dst[k] == old(dst[k])
  {
    hide Nv12, Converted, Done, Average, Chroma;
    var yp: nat, uvp: nat, sp: nat := 0, width * height, 0;
    if width == 0 {
      return;
    }
    ghost var n, t := width * height, Nv12(src[..], width, height);
    ghost var p: nat, q: nat := 0, 0;
    NothingDone(t, dst[..], n);
    var y := 0;
    while y < height
      invariant y <= height && y % 2 == 0
      invariant p == width * y && q == width * (y / 2)
      invariant yp == p && sp == 2 * p && uvp == n + q
      invariant Done(t, dst[..], n, p, q)
      invariant forall k | |t| <= k < dst.Length :: dst[k] == old(dst[k])
    {
      var y2p: nat, sp2: nat := yp + width, sp + width * 2;
      CursorRoom(width, height, y);
      PairStarts(t, dst[..], n, p, q, width);
      sp, yp, uvp := ConvertRowPair(src, dst, width, height, y, sp, sp2, yp, y2p, uvp);
      PairEnds(t, dst[..], n, p, q, width);
      p, q, y := p + 2 * width, q + width, y + 2;
    }
    AllDone(t, dst[..], n, q);
  }

  lemma NothingDone(t: seq<bv8>, dst: seq<bv8>, n: nat)
    requires n <= |t| <= |dst|
    ensures Done(t, dst, n, 0, 0)
  {
  }
}
