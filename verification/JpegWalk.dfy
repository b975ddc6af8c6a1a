/** JpegCompressor::compressRawImage: the walk of three pointers over a raw frame that
    feeds RGB scanlines to the JPEG library. */
module JpegWalk {
  import opened Basics
  import opened Products

  /** The input formats of the two compressors: semi-planar 4:2:0, and packed 4:2:2. */
  datatype Format = NV12 | NV21 | YUYV | YVYU {
    predicate Is420() {
      NV12? || NV21?
    }

    function YStride(): nat {
      if Is420() then 1 else 2
    }

    function ChromaStride(): nat {
      if Is420() then 2 else 4
    }

    /** getYuvOffsets: where U and V start. */
    function UStart(w: nat, h: nat): nat {
      match this
      case NV12 => w * h
      case NV21 => w * h + 1
      case YUYV => 1
      case YVYU => 3
    }

    function VStart(w: nat, h: nat): nat {
      match this
      case NV12 => w * h + 1
      case NV21 => w * h
      case YUYV => 3
      case YVYU => 1
    }

    // The closed index formulas.

    function YAt(w: nat, r: nat, x: nat): nat {
      YStride() * (w * r + x)
    }

    function ChromaRow(r: nat): nat {
      if Is420() then r / 2 else 2 * r
    }

    function UAt(w: nat, h: nat, r: nat, x: nat): nat {
      UStart(w, h) + w * ChromaRow(r) + ChromaStride() * (x / 2)
    }

    function VAt(w: nat, h: nat, r: nat, x: nat): nat {
      VStart(w, h) + w * ChromaRow(r) + ChromaStride() * (x / 2)
    }

    /** What the walk reads of a frame; with 4:2:0 every pair of rows, and a last single
        one, has a whole chroma row. */
    function FrameSize(w: nat, h: nat): nat {
      if Is420() then w * h + w * ((h + 1) / 2) else 2 * (w * h)
    }
  }

  /** The colour conversion with its effect, as the red, green and blue of a pixel. */
  type Conversion = (byte, byte, byte) -> (byte, byte, byte)

  lemma RowFits(w: nat, r: nat, n: nat)
    requires r < n
    ensures w * r + w <= w * n
  {
    MulMonotone(w, r + 1, n);
    assert w * (r + 1) == w * r + w;
  }

  lemma PlanarInside(w: nat, h: nat, r: nat, x: nat)
    requires w % 2 == 0 && r < h && x < w
    ensures w * r + x < w * h
    ensures w * (r / 2) + 2 * (x / 2) + 1 < w * ((h + 1) / 2)
  {
    RowFits(w, r, h);
    RowFits(w, r / 2, (h + 1) / 2);
  }

  lemma PackedInside(w: nat, h: nat, r: nat, x: nat)
    requires w % 2 == 0 && r < h && x < w
    ensures w * r + x < w * h
    ensures w * (2 * r) + 4 * (x / 2) + 3 < 2 * (w * h)
  {
    RowFits(w, r, h);
    assert w * (2 * r) == 2 * (w * r);
  }

  /** Where the formats keep a pixel's samples. With 4:2:0 a plane of luma is followed by rows of
      chroma pairs, one pair for two by two pixels, U first in NV12 and V first in NV21; with
      4:2:2 four bytes hold two pixels, as Y U Y V or as Y V Y U. */
  lemma SamplesOf(f: Format, w: nat, h: nat, r: nat, x: nat)
    requires w % 2 == 0 && r < h && x < w
    ensures var y, u, v := f.YAt(w, r, x), f.UAt(w, h, r, x), f.VAt(w, h, r, x);
            match f
            case NV12 => y == w * r + x && u == w * h + w * (r / 2) + 2 * (x / 2) && v == u + 1
            case NV21 => y == w * r + x && v == w * h + w * (r / 2) + 2 * (x / 2) && u == v + 1
            case YUYV => y == 2 * (w * r + x) && u == 4 * ((w * r + x) / 2) + 1 && v == u + 2
            case YVYU => y == 2 * (w * r + x) && v == 4 * ((w * r + x) / 2) + 1 && u == v + 2
  {
    if !f.Is420() {
      assert w * r == 2 * (w / 2 * r);
      assert w * (2 * r) == 2 * (w * r);
      HalfOf(w * r, w / 2 * r, x);
    }
  }

  lemma HalfOf(a: nat, k: nat, x: nat)
    requires a == 2 * k
    ensures 4 * ((a + x) / 2) == 2 * a + 4 * (x / 2)
  {
  }

  /** Every pixel's three samples lie inside the frame. */
  lemma ReadsInside(f: Format, w: nat, h: nat, r: nat, x: nat)
    requires w % 2 == 0 && r < h && x < w
    ensures f.YAt(w, r, x) < f.FrameSize(w, h)
    ensures f.UAt(w, h, r, x) < f.FrameSize(w, h)
    ensures f.VAt(w, h, r, x) < f.FrameSize(w, h)
  {
    if f.Is420() {
      PlanarInside(w, h, r, x);
    } else {
      PackedInside(w, h, r, x);
    }
  }

  /** A frame of the nominal size of 4:2:0, one and a half bytes a pixel, is enough exactly
      for an even height: with an odd one the last row's chroma lies behind it. */
  lemma NominalSizeIff(f: Format, w: nat, h: nat)
    requires f.Is420() && w % 2 == 0 && w > 0 && h > 0
    ensures (forall r, x | 0 <= r < h && 0 <= x < w ::
               f.UAt(w, h, r, x) < w * h + w * h / 2 && f.VAt(w, h, r, x) < w * h + w * h / 2)
            <==> h % 2 == 0
  {
    if h % 2 == 0 {
      assert f.FrameSize(w, h) == w * h + w * h / 2 by {
        assert w * h == 2 * (w * (h / 2));
      }
      forall r, x | 0 <= r < h && 0 <= x < w
        ensures f.UAt(w, h, r, x) < w * h + w * h / 2 && f.VAt(w, h, r, x) < w * h + w * h / 2
      {
        hide Format.UAt, Format.VAt, Format.FrameSize;
        ReadsInside(f, w, h, r, x);
      }
    } else {
      LastChromaOutside(f, w, h);
    }
  }

  lemma LastChromaOutside(f: Format, w: nat, h: nat)
    requires f.Is420() && w % 2 == 0 && w > 0 && h % 2 == 1
    ensures f.UAt(w, h, h - 1, w - 1) >= w * h + w * h / 2 || f.VAt(w, h, h - 1, w - 1) >= w * h + w * h / 2
  {
    var k, half := h / 2, w / 2;
    assert w * h == w * (2 * k + 1) == 2 * (w * k) + w;
    assert w * h / 2 == w * k + half;
    assert (h - 1) / 2 == k && (w - 1) / 2 == half - 1;
  }

  // ---------------------------------------------------------------------
  // The scanlines

  function PixelOf(image: seq<byte>, f: Format, w: nat, h: nat, convert: Conversion, r: nat, x: nat): (pixel: seq<byte>)
    requires w % 2 == 0 && r < h && x < w && |image| >= f.FrameSize(w, h)
    ensures |pixel| == 3
  {
    hide Format.YAt, Format.UAt, Format.VAt, Format.FrameSize;
    ReadsInside(f, w, h, r, x);
    var rgb := convert(image[f.YAt(w, r, x)], image[f.UAt(w, h, r, x)], image[f.VAt(w, h, r, x)]);
    [rgb.0, rgb.1, rgb.2]
  }

  /** The first n pixels of scanline r. */
  function Scanline(image: seq<byte>, f: Format, w: nat, h: nat, convert: Conversion, r: nat, n: nat): (s: seq<byte>)
    requires w % 2 == 0 && r < h && n <= w && |image| >= f.FrameSize(w, h)
    ensures |s| == 3 * n
  {
    if n == 0 then []
    else Scanline(image, f, w, h, convert, r, n - 1) + PixelOf(image, f, w, h, convert, r, n - 1)
  }

  /** Pixel x of a scanline is at its own place, converted from its own three samples. */
  lemma {:induction false} ScanlineAt(image: seq<byte>, f: Format, w: nat, h: nat, convert: Conversion,
                                      r: nat, n: nat, x: nat)
    requires w % 2 == 0 && r < h && x < n <= w && |image| >= f.FrameSize(w, h)
    ensures Scanline(image, f, w, h, convert, r, n)[3 * x..3 * x + 3] == PixelOf(image, f, w, h, convert, r, x)
  {
    hide Format.FrameSize, PixelOf;
    var before := Scanline(image, f, w, h, convert, r, n - 1);
    if x < n - 1 {
      ScanlineAt(image, f, w, h, convert, r, n - 1, x);
      assert Scanline(image, f, w, h, convert, r, n)[3 * x..3 * x + 3] == before[3 * x..3 * x + 3];
    }
  }

  method PutPixel(line: array<byte>, ptr: nat, rgb: (byte, byte, byte)) returns (next: nat)
    requires ptr + 3 <= line.Length
    modifies line
    ensures next == ptr + 3
    ensures line[..next] == old(line[..ptr]) + [rgb.0, rgb.1, rgb.2]
  {
    line[ptr] := rgb.0;
    line[ptr + 1] := rgb.1;
    line[ptr + 2] := rgb.2;
    next := ptr + 3;
  }

  /** The pointers' positions at an even column x of row r. */
  ghost predicate AtColumn(f: Format, w: nat, h: nat, r: nat, x: nat, yp: int, up: int, vp: int) {
    yp == f.YAt(w, r, x) && up == f.UAt(w, h, r, x) && vp == f.VAt(w, h, r, x)
  }

  lemma ColumnStep(f: Format, w: nat, h: nat, r: nat, x: nat)
    requires x % 2 == 0
    ensures f.YAt(w, r, x + 1) == f.YAt(w, r, x) + f.YStride()
    ensures f.YAt(w, r, x + 2) == f.YAt(w, r, x) + 2 * f.YStride()
    ensures f.UAt(w, h, r, x + 1) == f.UAt(w, h, r, x)
    ensures f.VAt(w, h, r, x + 1) == f.VAt(w, h, r, x)
    ensures f.UAt(w, h, r, x + 2) == f.UAt(w, h, r, x) + f.ChromaStride()
    ensures f.VAt(w, h, r, x + 2) == f.VAt(w, h, r, x) + f.ChromaStride()
  {
  }

  /** The end of a row is the start of the next one for luma, and for chroma too unless the
      format is 4:2:0 and the row even; then the next row starts where this one did. */
  lemma RowStep(f: Format, w: nat, h: nat, r: nat)
    requires w % 2 == 0
    ensures f.YAt(w, r, w) == f.YAt(w, r + 1, 0)
    ensures f.Is420() && r % 2 == 0 ==>
              f.UAt(w, h, r + 1, 0) == f.UAt(w, h, r, 0) && f.VAt(w, h, r + 1, 0) == f.VAt(w, h, r, 0)
    ensures !(f.Is420() && r % 2 == 0) ==>
              f.UAt(w, h, r + 1, 0) == f.UAt(w, h, r, w) && f.VAt(w, h, r + 1, 0) == f.VAt(w, h, r, w)
  {
    assert w * (r + 1) == w * r + w;
    if f.Is420() {
      if r % 2 == 1 {
        assert (r + 1) / 2 == r / 2 + 1;
        assert w * (r / 2 + 1) == w * (r / 2) + w;
      }
    } else {
      assert w * (2 * (r + 1)) == w * (2 * r) + 2 * w;
    }
  }

  /** One scanline into the line buffer, moving the pointers to the end of the row. */
  method WalkRow(image: array<byte>, f: Format, w: nat, ghost h: nat, convert: Conversion, ghost r: nat,
                 line: array<byte>, yp: int, up: int, vp: int)
    returns (yp': int, up': int, vp': int)
    requires image != line && w % 2 == 0 && r < h
    requires image.Length >= f.FrameSize(w, h) && line.Length == 3 * w
    requires AtColumn(f, w, h, r, 0, yp, up, vp)
    modifies line
    ensures AtColumn(f, w, h, r, w, yp', up', vp')
    ensures line[..] == Scanline(image[..], f, w, h, convert, r, w)
  {
    hide Format.YAt, Format.UAt, Format.VAt, Format.FrameSize, Format.YStride, Format.ChromaStride;
    yp', up', vp' := yp, up, vp;
    var ptr, x := 0, 0;
    while x < w
      invariant x <= w && x % 2 == 0 && ptr == 3 * x
      invariant AtColumn(f, w, h, r, x, yp', up', vp')
      invariant line[..ptr] == Scanline(image[..], f, w, h, convert, r, x)
    {
      ColumnStep(f, w, h, r, x);
      ReadsInside(f, w, h, r, x);
      ReadsInside(f, w, h, r, x + 1);
      ptr := PutPixel(line, ptr, convert(image[yp'], image[up'], image[vp']));
      yp' := yp' + f.YStride();
      ptr := PutPixel(line, ptr, convert(image[yp'], image[up'], image[vp']));
      yp' := yp' + f.YStride();
      up' := up' + f.ChromaStride();
      vp' := vp' + f.ChromaStride();
      x := x + 2;
    }
    assert line[..ptr] == line[..];
  }

  lemma FirstRow(f: Format, w: nat, h: nat)
    ensures AtColumn(f, w, h, 0, 0, 0, f.UStart(w, h), f.VStart(w, h))
  {
    assert w * 0 == 0;
  }

  /** The rows handed to jpeg_write_scanlines are the closed-form scanlines. */
  method CompressRawImage(image: array<byte>, f: Format, width: nat, height: nat, convert: Conversion)
    returns (rows: seq<seq<byte>>)
    requires width % 2 == 0
    requires image.Length >= f.FrameSize(width, height)
    ensures |rows| == height
    ensures forall r | 0 <= r < height :: rows[r] == Scanline(image[..], f, width, height, convert, r, width)
  {
    hide Format.FrameSize, Scanline, Format.YAt, Format.UAt, Format.VAt, Format.UStart, Format.VStart;
    FirstRow(f, width, height);
    var line := new byte[width * 3](_ => 0);
    var yp: int := 0;
    var up: int, vp: int := f.UStart(width, height), f.VStart(width, height);
    var upos, vpos := up, vp;
    var z := 0;
    rows := [];
    var scanline := 0;
    while scanline < height
      invariant scanline == |rows| <= height
      invariant AtColumn(f, width, height, scanline, 0, yp, up, vp)
      invariant f.Is420() ==> z == scanline % 2 && upos == up && vpos == vp
      invariant forall r | 0 <= r < |rows| ::
                  rows[r] == Scanline(image[..], f, width, height, convert, r, width)
    {
      RowStep(f, width, height, scanline);
      yp, up, vp := WalkRow(image, f, width, height, convert, scanline, line, yp, up, vp);
      if f.Is420() {
        if z == 0 {
          vp := vpos;
          up := upos;
          z := z + 1;
        } else {
          vpos := vp;
          upos := up;
          z := z - 1;
        }
      }
      rows := rows + [line[..]];
      scanline := scanline + 1;
    }
  }
}
