/** nusmart_scalingDown420SP: subsampling a semi-planar 4:2:0 frame, normally onto itself. */
module ScaleDown {
  import opened Basics
  import opened Products

  /** A frame size and the smaller one it is sampled down to. */
  datatype Scale = Scale(sw: nat, sh: nat, dw: nat, dh: nat) {
    predicate Valid() {
      && 0 < dw <= sw && 0 < dh <= sh
      && sw % 2 == 0 && sh % 2 == 0 && dw % 2 == 0 && dh % 2 == 0
    }

    function StepX(): nat
      requires Valid()
    {
      sw / dw
    }

    function StepY(): nat
      requires Valid()
    {
      sh / dh
    }

    /** The crop offsets that centre what the steps cover. */
    function OffX(): nat
      requires Valid()
    {
      sw % dw / 2
    }

    function OffY(): nat
      requires Valid()
    {
      sh % dh / 2
    }

    function SourceSize(): nat {
      sw * sh + sw * (sh / 2)
    }

    function ResultSize(): nat {
      dw * dh + dw * (dh / 2)
    }

    /** Where the luma of row y, column x comes from. */
    function LumaFrom(y: nat, x: nat): int
      requires Valid()
    {
      OffX() + sw * (OffY() + StepY() * y) + StepX() * x
    }

    /** Where byte c of chroma row r comes from: U and V of a pair stay together. */
    function ChromaFrom(r: nat, c: nat): int
      requires Valid()
    {
      sw * sh + OffX() + sw * (OffY() / 2 + StepY() * r) + StepX() * (c - c % 2) + c % 2
    }
  }

  // ---------------------------------------------------------------------
  // Reads stay inside the frame, and never fall behind the writes

  /** Sample k of d, taken from n positions at the widest step that fits, with the rest
      split evenly before and behind. */
  lemma SampleFits(n: nat, d: nat, k: nat)
    requires 0 < d <= n && k < d
    ensures n / d >= 1
    ensures n % d / 2 + n / d * k + n / d <= n
    ensures k <= n / d * k
  {
    var step := n / d;
    assert n == d * step + n % d;
    MulMonotone(step, k + 1, d);
    assert step * (k + 1) == step * k + step;
    MulMonotone(k, 1, step);
  }

  lemma ChromaRowFits(n: nat, d: nat, r: nat)
    requires 0 < d <= n && n % 2 == 0 && d % 2 == 0 && r < d / 2
    ensures n % d / 2 / 2 + n / d * r + n / d <= n / 2
    ensures r <= n / d * r
  {
    var step := n / d;
    assert n == d * step + n % d;
    MulMonotone(step, r + 1, d / 2);
    assert step * (r + 1) == step * r + step;
    assert d * step == 2 * (step * (d / 2));
    SampleFits(n, d, r);
  }

  /** The step is the widest with which d samples fit, and what they leave over, an even number,
      is split evenly: as much is cropped before them as behind them. */
  lemma WidestCentred(n: nat, d: nat, t: nat)
    requires 0 < d <= n && n % 2 == 0 && d % 2 == 0
    ensures t * d <= n <==> t <= n / d
    ensures n % d / 2 + n / d * d + n % d / 2 == n
  {
    QuotientAtLeastIff(n, d, t);
    var step := n / d;
    assert n == d * step + n % d;
    EvenTimes(d, step);
    Halves(n, d * step, n % d);
  }

  lemma Halves(n: nat, part: nat, rest: nat)
    requires n == part + rest && n % 2 == part % 2 == 0
    ensures rest / 2 + part + rest / 2 == n
  {
  }

  lemma StepsAndCrops(s: Scale, t: nat)
    requires s.Valid()
    ensures t * s.dw <= s.sw <==> t <= s.StepX()
    ensures t * s.dh <= s.sh <==> t <= s.StepY()
    ensures s.OffX() + s.StepX() * s.dw + s.OffX() == s.sw
    ensures s.OffY() + s.StepY() * s.dh + s.OffY() == s.sh
  {
    WidestCentred(s.sw, s.dw, t);
    WidestCentred(s.sh, s.dh, t);
  }

  /** Row a, column c of a plane sw wide, against row r, column c' <= c of one dw wide. */
  lemma InPlane(sw: nat, dw: nat, rows: nat, a: nat, c: nat, r: nat, c': nat)
    requires dw <= sw && a < rows && c < sw && r <= a && c' <= c
    ensures dw * r + c' <= sw * a + c < sw * rows
  {
    MulMonotone(sw, a + 1, rows);
    assert sw * (a + 1) == sw * a + sw;
    MulMonotone(r, dw, sw);
    MulMonotone(sw, r, a);
  }

  lemma LumaBounds(s: Scale, y: nat, x: nat)
    requires s.Valid() && y < s.dh && x < s.dw
    ensures s.dw * y + x <= s.LumaFrom(y, x) < s.sw * s.sh
  {
    SampleFits(s.sw, s.dw, x);
    SampleFits(s.sh, s.dh, y);
    InPlane(s.sw, s.dw, s.sh, s.OffY() + s.StepY() * y, s.OffX() + s.StepX() * x, y, x);
  }

  lemma ChromaColumn(s: Scale, c: nat)
    requires s.Valid() && c < s.dw
    ensures c <= s.OffX() + s.StepX() * (c - c % 2) + c % 2 < s.sw
  {
    var even := c - c % 2;
    SampleFits(s.sw, s.dw, even);
    if c % 2 == 1 {
      SampleFits(s.sw, s.dw, c);
      assert s.StepX() * c == s.StepX() * even + s.StepX();
    }
  }

  lemma ChromaRow(s: Scale, r: nat)
    requires s.Valid() && r < s.dh / 2
    ensures r <= s.OffY() / 2 + s.StepY() * r < s.sh / 2
  {
    ChromaRowFits(s.sh, s.dh, r);
  }

  lemma ChromaBounds(s: Scale, r: nat, c: nat)
    requires s.Valid() && r < s.dh / 2 && c < s.dw
    ensures s.dw * s.dh + s.dw * r + c <= s.ChromaFrom(r, c) < s.SourceSize()
    ensures 0 <= s.ChromaFrom(r, c)
  {
    hide Scale.StepX, Scale.StepY, Scale.OffX, Scale.OffY;
    ChromaColumn(s, c);
    ChromaRow(s, r);
    InPlane(s.sw, s.dw, s.sh / 2, s.OffY() / 2 + s.StepY() * r, s.OffX() + s.StepX() * (c - c % 2) + c % 2, r, c);
    MulMonotone(s.dw, s.dh, s.sh);
    MulMonotone(s.sh, s.dw, s.sw);
    MulMonotone(s.dw, 0, s.dh);
    MulMonotone(s.dw, 0, r);
  }

  lemma ChromaInFrame(s: Scale, r: nat, c: nat)
    requires s.Valid() && r < s.dh / 2 && c < s.dw
    ensures 0 <= s.ChromaFrom(r, c) < s.SourceSize()
  {
    hide Scale.ChromaFrom, Scale.SourceSize;
    ChromaBounds(s, r, c);
  }

  // ---------------------------------------------------------------------
  // The result as a function of the source frame

  function LumaPixel(src: seq<byte>, s: Scale, y: nat, x: nat): byte
    requires s.Valid() && |src| >= s.SourceSize() && y < s.dh && x < s.dw
  {
    hide Scale.LumaFrom;
    LumaBounds(s, y, x);
    src[s.LumaFrom(y, x)]
  }

  function ChromaPixel(src: seq<byte>, s: Scale, r: nat, c: nat): byte
    requires s.Valid() && |src| >= s.SourceSize() && r < s.dh / 2 && c < s.dw
  {
    hide Scale.ChromaFrom;
    ChromaInFrame(s, r, c);
    src[s.ChromaFrom(r, c)]
  }

  function Luma(src: seq<byte>, s: Scale, k: nat): byte
    requires s.Valid() && |src| >= s.SourceSize() && k < s.dw * s.dh
  {
    DivBelow(s.dw, s.dh, k);
    LumaPixel(src, s, k / s.dw, k % s.dw)
  }

  function Chroma(src: seq<byte>, s: Scale, k: nat): byte
    requires s.Valid() && |src| >= s.SourceSize() && k < s.dw * (s.dh / 2)
  {
    hide Scale.SourceSize;
    DivBelow(s.dw, s.dh / 2, k);
    ChromaPixel(src, s, k / s.dw, k % s.dw)
  }

  function Down(src: seq<byte>, s: Scale): (dst: seq<byte>)
    requires s.Valid() && |src| >= s.SourceSize()
    ensures |dst| == s.ResultSize()
  {
    seq(s.dw * s.dh, k requires 0 <= k < s.dw * s.dh => Luma(src, s, k))
    + seq(s.dw * (s.dh / 2), k requires 0 <= k < s.dw * (s.dh / 2) => Chroma(src, s, k))
  }

  lemma RowInside(w: nat, n: nat, r: nat, c: nat)
    requires r < n && c < w
    ensures w * r + c < w * n
    ensures w * (r + 1) == w * r + w <= w * n
  {
    MulMonotone(w, r + 1, n);
    assert w * (r + 1) == w * r + w;
  }

  lemma DownLuma(src: seq<byte>, s: Scale, y: nat, x: nat, k: nat)
    requires s.Valid() && |src| >= s.SourceSize() && y < s.dh && x < s.dw
    requires k == s.dw * y + x
    ensures k < s.dw * s.dh <= |Down(src, s)|
    ensures k <= s.LumaFrom(y, x) < s.SourceSize()
    ensures Down(src, s)[k] == src[s.LumaFrom(y, x)]
  {
    hide Scale.LumaFrom;
    RowInside(s.dw, s.dh, y, x);
    DivModOf(s.dw, y, x);
    LumaBounds(s, y, x);
    assert Down(src, s)[k] == Luma(src, s, k);
  }

  lemma DownChroma(src: seq<byte>, s: Scale, r: nat, c: nat, k: nat)
    requires s.Valid() && |src| >= s.SourceSize() && r < s.dh / 2 && c < s.dw
    requires k == s.dw * s.dh + s.dw * r + c
    ensures k < s.ResultSize()
    ensures k <= s.ChromaFrom(r, c) < s.SourceSize()
    ensures Down(src, s)[k] == src[s.ChromaFrom(r, c)]
  {
    hide Scale.ChromaFrom;
    RowInside(s.dw, s.dh / 2, r, c);
    DivModOf(s.dw, r, c);
    ChromaBounds(s, r, c);
    assert Down(src, s)[k] == Chroma(src, s, s.dw * r + c);
  }

  /** U and V keep their places exactly when the horizontal crop offset is even; otherwise
      every chroma byte comes from a byte of the other kind. */
  lemma ChromaKeptIff(s: Scale, r: nat, c: nat)
    requires s.Valid() && r < s.dh / 2 && c < s.dw
    ensures (s.ChromaFrom(r, c) - s.sw * s.sh) % 2 == (s.dw * r + c) % 2 <==> s.OffX() % 2 == 0
  {
    hide Scale.StepX, Scale.StepY, Scale.OffX, Scale.OffY;
    var even := c - c % 2;
    EvenTimes(s.sw, s.OffY() / 2 + s.StepY() * r);
    EvenTimes(even, s.StepX());
    EvenTimes(s.dw, r);
    ParityOf(s.OffX(), s.sw * (s.OffY() / 2 + s.StepY() * r), s.StepX() * even, s.dw * r, c);
  }

  lemma ParityOf(off: nat, row: int, column: int, result: int, c: nat)
    requires row % 2 == column % 2 == result % 2 == 0
    ensures (off + row + column + c % 2) % 2 == (result + c) % 2 <==> off % 2 == 0
  {
  }

  lemma EvenTimes(a: nat, b: int)
    requires a % 2 == 0
    ensures a * b % 2 == 0 && b * a % 2 == 0
  {
    assert a * b == 2 * (a / 2 * b);
  }

  /** Six columns onto four: the remainder of two gives an offset of one. */
  lemma ChromaSwapped()
    ensures var s := Scale(6, 4, 4, 4); s.Valid() && s.OffX() == 1 && s.ChromaFrom(0, 0) == 24 + 1
  {
  }

  // ---------------------------------------------------------------------
  // The loops

  /** Everything before `pos` is final, everything from `pos` on is still the source. */
  ghost predicate Progress(t: seq<byte>, source: seq<byte>, before: seq<byte>,
                           src: seq<byte>, dst: seq<byte>, pos: nat)
  {
    && pos <= |t| <= |dst| == |before|
    && |src| == |source|
    && (forall k | 0 <= k < pos :: dst[k] == t[k])
    && (forall k | pos <= k < |dst| :: dst[k] == before[k])
    && forall j | pos <= j < |src| :: src[j] == source[j]
  }

  /** The same code serves a separate destination and, as it is called, the frame itself:
      in both cases the result is a function of the frame on entry. */
  method ScalingDown420SP(src: array<byte>, sw: nat, sh: nat, dst: array<byte>, dw: nat, dh: nat)
    requires Scale(sw, sh, dw, dh).Valid()
    requires src.Length >= Scale(sw, sh, dw, dh).SourceSize()
    requires dst.Length >= Scale(sw, sh, dw, dh).ResultSize()
    modifies dst
    ensures var s := Scale(sw, sh, dw, dh);
            && dst[..s.ResultSize()] == Down(old(src[..]), s)
            && forall k | s.ResultSize() <= k < dst.Length :: dst[k] == old(dst[k])
  {
    hide Down;
    ghost var s := Scale(sw, sh, dw, dh);
    ghost var source, before := src[..], dst[..];
    ghost var t := Down(source, s);
    var stepX, stepY := sw / dw, sh / dh;
    var xOff, yOff := sw % dw / 2, sh % dh / 2;
    var pos := ScaleLuma(src, sw, dst, dw, dh, stepX, stepY, xOff, yOff, s, t, source, before);
    ScaleChroma(src, sw, sh, dst, dw, dh, stepX, stepY, xOff, yOff, pos, s, t, source, before);
  }

  method ScaleLuma(src: array<byte>, sw: nat, dst: array<byte>, dw: nat, dh: nat,
                   stepX: nat, stepY: nat, xOff: nat, yOff: nat,
                   ghost s: Scale, ghost t: seq<byte>, ghost source: seq<byte>, ghost before: seq<byte>)
    returns (pos: nat)
    requires s.Valid() && s.sw == sw && s.dw == dw && s.dh == dh
    requires stepX == s.StepX() && stepY == s.StepY() && xOff == s.OffX() && yOff == s.OffY()
    requires src[..] == source && dst[..] == before && |source| >= s.SourceSize()
    requires t == Down(source, s) && |t| <= |before|
    modifies dst
    ensures pos == dw * dh
    ensures Progress(t, source, before, src[..], dst[..], pos)
  {
    hide Down, Scale.StepX, Scale.StepY, Scale.OffX, Scale.OffY, Scale.LumaFrom, Scale.ChromaFrom,
      Scale.SourceSize, Scale.ResultSize;
    pos := 0;
    var from: int := xOff + yOff * sw;
    var y := 0;
    while y < dh
      invariant y <= dh && pos == dw * y <= dw * dh
      invariant from == xOff + sw * (yOff + stepY * y)
      invariant Progress(t, source, before, src[..], dst[..], pos)
    {
      var x := 0;
      while x < dw
        invariant x <= dw && pos == dw * y + x
        invariant Progress(t, source, before, src[..], dst[..], pos)
      {
        DownLuma(source, s, y, x, pos);
        LumaFromIs(s, y, x, from);
        dst[pos] := src[from + x * stepX];
        pos := pos + 1;
        x := x + 1;
      }
      RowInside(dw, dh, y, 0);
      NextRow(sw, yOff, stepY, y);
      from := from + stepY * sw;
      y := y + 1;
    }
  }

  /** The two stores of a chroma pair; the second read comes after the first store. */
  method CopyPair(src: array<byte>, p: int, dst: array<byte>, pos: nat, ghost r: nat, ghost x: nat, ghost from: int,
                  ghost s: Scale, ghost t: seq<byte>, ghost source: seq<byte>, ghost before: seq<byte>)
    requires s.Valid() && |source| >= s.SourceSize() && t == Down(source, s)
    requires r < s.dh / 2 && x < s.dw && x % 2 == 0
    requires pos == s.dw * s.dh + s.dw * r + x
    requires from == s.sw * s.sh + s.OffX() + s.sw * (s.OffY() / 2 + s.StepY() * r)
    requires p == from + x * s.StepX()
    requires Progress(t, source, before, src[..], dst[..], pos)
    modifies dst
    ensures Progress(t, source, before, src[..], dst[..], pos + 2)
  {
    hide Down, Scale.StepX, Scale.StepY, Scale.OffX, Scale.OffY, Scale.LumaFrom, Scale.ChromaFrom;
    DownChroma(source, s, r, x, pos);
    DownChroma(source, s, r, x + 1, pos + 1);
    ChromaFromIs(s, r, x, from);
    dst[pos] := src[p];
    dst[pos + 1] := src[p + 1];
  }

  lemma LumaFromIs(s: Scale, y: nat, x: nat, from: int)
    requires s.Valid()
    requires from == s.OffX() + s.sw * (s.OffY() + s.StepY() * y)
    ensures s.LumaFrom(y, x) == from + x * s.StepX()
  {
  }

  lemma ChromaFromIs(s: Scale, r: nat, x: nat, from: int)
    requires s.Valid() && x % 2 == 0
    requires from == s.sw * s.sh + s.OffX() + s.sw * (s.OffY() / 2 + s.StepY() * r)
    ensures s.ChromaFrom(r, x) == from + x * s.StepX()
    ensures s.ChromaFrom(r, x + 1) == from + x * s.StepX() + 1
  {
    hide Scale.StepX, Scale.StepY, Scale.OffX, Scale.OffY;
  }

  lemma NextRow(sw: nat, off: nat, step: nat, r: nat)
    ensures sw * (off + step * (r + 1)) == sw * (off + step * r) + step * sw
  {
    assert step * (r + 1) == step * r + step;
  }

  method ScaleChroma(src: array<byte>, sw: nat, sh: nat, dst: array<byte>, dw: nat, dh: nat,
                     stepX: nat, stepY: nat, xOff: nat, yOff: nat, start: nat,
                     ghost s: Scale, ghost t: seq<byte>, ghost source: seq<byte>, ghost before: seq<byte>)
    requires s.Valid() && s.sw == sw && s.sh == sh && s.dw == dw && s.dh == dh
    requires stepX == s.StepX() && stepY == s.StepY() && xOff == s.OffX() && yOff == s.OffY()
    requires |source| >= s.SourceSize() && t == Down(source, s) && start == dw * dh
    requires |t| == start + dw * (dh / 2)
    requires Progress(t, source, before, src[..], dst[..], start)
    modifies dst
    ensures Progress(t, source, before, src[..], dst[..], |t|)
  {
    hide Down, Scale.StepX, Scale.StepY, Scale.OffX, Scale.OffY, Scale.LumaFrom, Scale.ChromaFrom,
      Scale.SourceSize, Scale.ResultSize;
    var pos := start;
    var from: int := sw * sh + xOff + yOff / 2 * sw;
    var y := 0;
    while y < dh
      invariant y <= dh && y % 2 == 0 && pos == start + dw * (y / 2)
      invariant from == sw * sh + xOff + sw * (yOff / 2 + stepY * (y / 2))
      invariant Progress(t, source, before, src[..], dst[..], pos)
    {
      var x := 0;
      while x < dw
        invariant x <= dw && x % 2 == 0 && pos == start + dw * (y / 2) + x
        invariant Progress(t, source, before, src[..], dst[..], pos)
      {
        CopyPair(src, from + x * stepX, dst, pos, y / 2, x, from, s, t, source, before);
        pos := pos + 2;
        x := x + 2;
      }
      RowInside(dw, dh / 2, y / 2, 0);
      NextRow(sw, yOff / 2, stepY, y / 2);
      from := from + stepY * sw;
      y := y + 2;
    }
  }
}
