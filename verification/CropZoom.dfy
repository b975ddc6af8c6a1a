/** Crop rectangles: matching the aspect ratio of a size the sensor does not support, and
    digital zoom. Ratios are hundredths, by integer division. */
module CropZoom {
  import opened Products

  datatype Rect = Rect(left: nat, top: nat, width: nat, height: nat) {
    predicate Inside(r: Rect) {
      && r.left <= left && left + width <= r.left + r.width
      && r.top <= top && top + height <= r.top + r.height
    }
  }

  function Frame(w: nat, h: nat): Rect {
    Rect(0, 0, w, h)
  }

  const PRECISION := 100
  const ZOOM_DENOMINATOR := 10
  const ZOOM_LEVEL_MAX := 11

  function Ratio(w: nat, h: nat): nat
    requires h > 0
  {
    w * PRECISION / h
  }

  /** The crop of a base frame to the ratio of a target size, before alignment. */
  function AspectCrop(bw: nat, bh: nat, w: nat, h: nat): Rect
    requires bh > 0 && h > 0
  {
    var base, target := Ratio(bw, bh), Ratio(w, h);
    if base == target then Frame(bw, bh)
    else if base > target then
      var cw := bh * target / PRECISION;
      Rect(if cw <= bw then (bw - cw) / 2 else 0, 0, cw, bh)
    else
      var ch := bw / target * PRECISION;
      Rect(0, if ch <= bh then (bh - ch) / 2 else 0, bw, ch)
  }

  /** The driver takes sizes that are multiples of 8. */
  function Align8(n: nat): nat {
    n - n % 8
  }

  function Aligned(r: Rect): Rect {
    Rect(r.left, r.top, Align8(r.width), Align8(r.height))
  }

  function ZoomSize(n: nat, level: nat): nat {
    n * PRECISION / (PRECISION + level * PRECISION / ZOOM_DENOMINATOR)
  }

  function ZoomOffset(n: nat, level: nat): nat {
    ZoomShrinks(n, level);
    (n - ZoomSize(n, level)) / 2
  }

  function ZoomRect(w: nat, h: nat, level: nat): Rect {
    Rect(ZoomOffset(w, level), ZoomOffset(h, level), ZoomSize(w, level), ZoomSize(h, level))
  }

  /** The size s_fmt records for setZoom: the target when the ratios are equal, and the crop
      before alignment otherwise. */
  function Recorded(bw: nat, bh: nat, w: nat, h: nat): (nat, nat)
    requires bh > 0 && h > 0
  {
    if Ratio(bw, bh) == Ratio(w, h) then (w, h)
    else (AspectCrop(bw, bh, w, h).width, AspectCrop(bw, bh, w, h).height)
  }

  /** What the driver is told last for a snapshot at a level above 0 and of a size that the
      sensor does not support; a recorded size with an empty side is not used. */
  function SnapshotCrop(bw: nat, bh: nat, w: nat, h: nat, level: nat): Rect
    requires bh > 0 && h > 0
  {
    var r := Recorded(bw, bh, w, h);
    Aligned(if r.0 != 0 && r.1 != 0 then ZoomRect(r.0, r.1, level) else ZoomRect(w, h, level))
  }

  class Cropper {
    var supported: bool       // m_sensor_support_resolution
    var closelyWidth: nat
    var closelyHeight: nat
    var zoomLevel: nat
    var crop: Rect            // what the driver was last told

    constructor ()
      ensures supported && closelyWidth == closelyHeight == zoomLevel == 0
    {
      supported, closelyWidth, closelyHeight, zoomLevel := true, 0, 0, 0;
      crop := Rect(0, 0, 0, 0);
    }

    /** nusmart_v4l2_set_crop. */
    method SetCrop(left: nat, top: nat, width: nat, height: nat)
      modifies this`crop
      ensures crop == Aligned(Rect(left, top, width, height))
    {
      var remainderW, remainderH := width % 8, height % 8;
      var targetW := if remainderW != 0 then width - remainderW else width;
      var targetH := if remainderH != 0 then height - remainderH else height;
      crop := Rect(left, top, targetW, targetH);
    }

    /** The crop part of nusmart_v4l2_s_fmt, once the driver has named the closest size. */
    method SetFormat(baseW: nat, baseH: nat, width: nat, height: nat, isUsb: bool)
      requires baseH > 0 && height > 0
      modifies this`supported, this`closelyWidth, this`closelyHeight, this`crop
      ensures supported == !(baseW != width || (baseH != height && !isUsb))
      ensures supported ==> crop == old(crop)
      ensures supported ==> closelyWidth == old(closelyWidth) && closelyHeight == old(closelyHeight)
      ensures !supported ==> crop == Aligned(AspectCrop(baseW, baseH, width, height))
      ensures !supported ==> (closelyWidth, closelyHeight) == Recorded(baseW, baseH, width, height)
    {
      hide Ratio, Align8;
      var baseRatio := Ratio(baseW, baseH);
      if baseW != width || (baseH != height && !isUsb) {
        var targetRatio := Ratio(width, height);
        TargetPositive(baseW, baseH, width, height);
        var cropW, cropH;
        if baseRatio == targetRatio {
          cropW, cropH := width, height;
          SetCrop(0, 0, baseW, baseH);
        } else if baseRatio > targetRatio {
          CropFits(baseW, baseH, width, height);
          cropW := baseH * targetRatio / PRECISION;
          cropH := baseH;
          SetCrop((baseW - cropW) / 2, 0, cropW, cropH);
        } else {
          CropFits(baseW, baseH, width, height);
          cropW := baseW;
          cropH := baseW / targetRatio * PRECISION;
          SetCrop(0, (baseH - cropH) / 2, cropW, cropH);
        }
        supported := false;
        closelyWidth, closelyHeight := cropW, cropH;
      } else {
        supported := true;
      }
    }

    /** setZoom. */
    method SetZoom(baseW: nat, baseH: nat, level: int) returns (ret: int)
      modifies this`zoomLevel, this`crop
      ensures ret == if 0 <= level <= 10 then 0 else -1
      ensures ret < 0 ==> zoomLevel == old(zoomLevel) && crop == old(crop)
      ensures level == 0 ==> zoomLevel == 0 && crop == old(crop)
      ensures 0 < level <= 10 ==>
                && zoomLevel == level
                && crop == if !supported && closelyWidth != 0 && closelyHeight != 0
                           then Aligned(ZoomRect(closelyWidth, closelyHeight, level))
                           else Aligned(ZoomRect(baseW, baseH, level))
    {
      if level == 0 {
        zoomLevel := 0;
        return 0;
      }
      if level < 0 || ZOOM_LEVEL_MAX <= level {
        return -1;
      }
      var w, h := baseW, baseH;
      if !supported && closelyWidth != 0 && closelyHeight != 0 {
        w, h := closelyWidth, closelyHeight;
      }
      zoomLevel := level;
      var times := PRECISION + level * PRECISION / ZOOM_DENOMINATOR;
      var cropW, cropH := w * PRECISION / times, h * PRECISION / times;
      assert cropW == ZoomSize(w, level) && cropH == ZoomSize(h, level);
      hide ZoomSize, Align8;
      ZoomShrinks(w, level);
      ZoomShrinks(h, level);
      SetCrop((w - cropW) / 2, (h - cropH) / 2, cropW, cropH);
      return 0;
    }

    /** setSnapshotCmd, with the ISP camera: the format, and then the zoom level in force. */
    method SnapshotFormat(baseW: nat, baseH: nat, width: nat, height: nat)
      requires baseH > 0 && height > 0 && zoomLevel < ZOOM_LEVEL_MAX
      modifies this`supported, this`closelyWidth, this`closelyHeight, this`crop, this`zoomLevel
      ensures zoomLevel == old(zoomLevel)
      ensures supported == (baseW == width && baseH == height)
      ensures supported ==> crop == if zoomLevel == 0 then old(crop) else Aligned(ZoomRect(width, height, zoomLevel))
      ensures !supported ==>
                crop == if zoomLevel == 0 then Aligned(AspectCrop(baseW, baseH, width, height))
                        else SnapshotCrop(baseW, baseH, width, height, zoomLevel)
    {
      hide AspectCrop, ZoomRect, Recorded;
      SetFormat(baseW, baseH, width, height, false);
      var _ := SetZoom(width, height, zoomLevel);
    }

    /** startPreview does it the other way round: for a size the sensor does not support, the
        format undoes the zoom, whose level stays recorded. */
    method PreviewFormat(baseW: nat, baseH: nat, width: nat, height: nat)
      requires baseH > 0 && height > 0 && zoomLevel < ZOOM_LEVEL_MAX
      modifies this`supported, this`closelyWidth, this`closelyHeight, this`crop, this`zoomLevel
      ensures zoomLevel == old(zoomLevel)
      ensures supported == (baseW == width && baseH == height)
      ensures !supported ==> crop == Aligned(AspectCrop(baseW, baseH, width, height))
      ensures supported && zoomLevel > 0 && old(supported) ==> crop == Aligned(ZoomRect(width, height, zoomLevel))
    {
      hide AspectCrop, ZoomRect, Recorded;
      var _ := SetZoom(width, height, zoomLevel);
      SetFormat(baseW, baseH, width, height, false);
    }
  }

  // ---------------------------------------------------------------------
  // Aspect crop

  lemma TargetPositive(bw: nat, bh: nat, w: nat, h: nat)
    requires bh > 0 && h > 0
    ensures Ratio(bw, bh) < Ratio(w, h) ==> Ratio(w, h) > 0
  {
  }

  lemma RatioBounds(w: nat, h: nat)
    requires h > 0
    ensures h * Ratio(w, h) <= w * 100 < h * Ratio(w, h) + h
  {
    QuotientBounds(w * PRECISION, h);
  }

  lemma WidthFits(bw: nat, bh: nat, base: nat, target: nat)
    requires bh * base <= bw * PRECISION && target < base
    ensures bh * target / PRECISION <= bw
  {
    MulMonotone(bh, target, base);
  }

  lemma HeightFits(bw: nat, bh: nat, base: nat, target: nat)
    requires bw * PRECISION < bh * base + bh && base < target
    ensures bw / target * PRECISION <= bh
  {
    MulMonotone(bh, base + 1, target);
    assert bh * (base + 1) == bh * base + bh;
    QuotientBounds(bw, target);
    var height := bw / target * PRECISION;
    assert target * height == target * (bw / target) * PRECISION;
    assert bh * target == target * bh;
    MulCancel(target, height, bh);
  }

  /** The crop of either branch fits the base frame, so the code's subtractions of the crop
      from it are never negative. */
  lemma CropFits(bw: nat, bh: nat, w: nat, h: nat)
    requires bh > 0 && h > 0
    ensures Ratio(bw, bh) > Ratio(w, h) ==> bh * Ratio(w, h) / PRECISION <= bw
    ensures Ratio(bw, bh) < Ratio(w, h) ==> bw / Ratio(w, h) * PRECISION <= bh
  {
    hide Ratio;
    var base, target := Ratio(bw, bh), Ratio(w, h);
    RatioBounds(bw, bh);
    if base > target {
      WidthFits(bw, bh, base, target);
    } else if base < target {
      HeightFits(bw, bh, base, target);
    }
  }

  /** The crop lies in the base frame, keeps one of its sides, and is centred along the other
      to within a pixel. */
  lemma AspectCropInside(bw: nat, bh: nat, w: nat, h: nat)
    requires bh > 0 && h > 0
    ensures var r := AspectCrop(bw, bh, w, h);
            && r.Inside(Frame(bw, bh))
            && (r.width == bw || r.height == bh)
            && 0 <= bw - r.width - 2 * r.left <= 1
            && 0 <= bh - r.height - 2 * r.top <= 1
  {
    CropFits(bw, bh, w, h);
  }

  /** Cropping the width gives the largest one whose ratio is at most the target's. */
  lemma WidthCropIsLargest(bw: nat, bh: nat, w: nat, h: nat, x: nat)
    requires bh > 0 && h > 0 && Ratio(bw, bh) > Ratio(w, h)
    ensures x <= AspectCrop(bw, bh, w, h).width <==> 100 * x <= bh * Ratio(w, h)
  {
    QuotientBounds(bh * Ratio(w, h), PRECISION);
  }

  /** Cropping the height divides first: the result is a multiple of 100, less than 100 below
      the height with the target's ratio, and nothing is left of the frame exactly when its
      width is below the target ratio in hundredths. */
  lemma HeightCropExactly(bw: nat, bh: nat, w: nat, h: nat)
    requires bh > 0 && h > 0 && Ratio(bw, bh) < Ratio(w, h)
    ensures var target, ch := Ratio(w, h), AspectCrop(bw, bh, w, h).height;
            && ch % 100 == 0
            && target * ch <= bw * 100 < target * ch + target * 100
            && (ch == 0 <==> bw < target)
  {
    var target := Ratio(w, h);
    var q := bw / target;
    QuotientBounds(bw, target);
    assert target * (q * PRECISION) == target * q * PRECISION;
    QuotientZeroIff(bw, target);
  }

  /** Alignment gives the largest multiples of 8 that fit, and stays inside. */
  lemma AlignedIsLargest(r: Rect, x: nat)
    requires x % 8 == 0
    ensures Aligned(r).Inside(r)
    ensures Aligned(r).width % 8 == 0 && Aligned(r).height % 8 == 0
    ensures x <= r.width <==> x <= Aligned(r).width
    ensures x <= r.height <==> x <= Aligned(r).height
  {
  }

  /** Whatever is asked for, the driver is told a rectangle inside the sensor's frame. */
  lemma FormatCropInside(bw: nat, bh: nat, w: nat, h: nat)
    requires bh > 0 && h > 0
    ensures Aligned(AspectCrop(bw, bh, w, h)).Inside(Frame(bw, bh))
  {
    AspectCropInside(bw, bh, w, h);
    AlignedIsLargest(AspectCrop(bw, bh, w, h), 0);
  }

  // ---------------------------------------------------------------------
  // Zoom

  lemma ZoomShrinks(n: nat, level: nat)
    ensures ZoomSize(n, level) <= n
  {
    var times := PRECISION + level * PRECISION / ZOOM_DENOMINATOR;
    QuotientBounds(n * PRECISION, times);
    if ZoomSize(n, level) > n {
      MulMonotone(times, n + 1, ZoomSize(n, level));
      MulMonotone(n + 1, PRECISION, times);
    }
  }

  lemma ZoomAntitone(n: nat, k: nat, l: nat)
    requires k <= l
    ensures ZoomSize(n, l) <= ZoomSize(n, k)
  {
    var tk, tl := PRECISION + k * PRECISION / ZOOM_DENOMINATOR, PRECISION + l * PRECISION / ZOOM_DENOMINATOR;
    var a, b := ZoomSize(n, l), ZoomSize(n, k);
    QuotientBounds(n * PRECISION, tk);
    QuotientBounds(n * PRECISION, tl);
    MulMonotone(a, tk, tl);
    assert tk * (b + 1) == tk * b + tk;
    MulCancel(tk, a, b + 1);
  }

  lemma ZoomEnds(n: nat)
    ensures ZoomSize(n, 0) == n && ZoomSize(n, 10) == n / 2
  {
    assert 0 * PRECISION / ZOOM_DENOMINATOR == 0 && 10 * PRECISION / ZOOM_DENOMINATOR == 100;
  }

  lemma CentredNested(n: nat, a: nat, b: nat)
    requires b <= a <= n
    ensures (n - a) / 2 <= (n - b) / 2 && (n - b) / 2 + b <= (n - a) / 2 + a
    ensures 0 <= n - b - 2 * ((n - b) / 2) <= 1
  {
  }

  /** Zoom rectangles before alignment: nested by level, centred to within a pixel, the whole
      frame at level 0 and exactly half of each side, rounded down, at level 10. */
  lemma ZoomNested(w: nat, h: nat, k: nat, l: nat)
    requires k <= l
    ensures ZoomRect(w, h, l).Inside(ZoomRect(w, h, k))
    ensures ZoomRect(w, h, 0) == Frame(w, h)
    ensures ZoomRect(w, h, 10).width == w / 2 && ZoomRect(w, h, 10).height == h / 2
    ensures var r := ZoomRect(w, h, l);
            && 0 <= w - r.width - 2 * r.left <= 1
            && 0 <= h - r.height - 2 * r.top <= 1
  {
    hide ZoomSize;
    ZoomEnds(w);
    ZoomEnds(h);
    ZoomAntitone(w, k, l);
    ZoomAntitone(h, k, l);
    ZoomShrinks(w, k);
    ZoomShrinks(h, k);
    CentredNested(w, ZoomSize(w, k), ZoomSize(w, l));
    CentredNested(h, ZoomSize(h, k), ZoomSize(h, l));
  }

  // ---------------------------------------------------------------------
  // Alignment moves only the right and bottom edges, which can undo the nesting

  predicate Step(n: nat, k: nat, l: nat, m: nat) {
    8 * m * (10 + l) <= 10 * n < 8 * (m + 1) * (10 + k)
  }

  /** The sides that levels k and l take to the same multiple of 8: one interval of sides for
      each multiple, and no more intervals once m * (l - k) reaches 10 + k. */
  ghost predicate SameStep(n: nat, k: nat, l: nat) {
    exists m: nat :: Step(n, k, l, m)
  }

  lemma ZoomSizeAtLeastIff(n: nat, level: nat, q: nat)
    ensures q <= ZoomSize(n, level) <==> q * (10 + level) <= 10 * n
  {
    var times := PRECISION + level * PRECISION / ZOOM_DENOMINATOR;
    assert times == 10 * (10 + level);
    QuotientAtLeastIff(n * PRECISION, times, q);
    assert q * times == 10 * (q * (10 + level));
  }

  lemma StepIff(n: nat, k: nat, l: nat, m: nat)
    ensures Step(n, k, l, m) <==> 8 * m <= ZoomSize(n, l) && ZoomSize(n, k) < 8 * (m + 1)
  {
    hide ZoomSize;
    ZoomSizeAtLeastIff(n, l, 8 * m);
    ZoomSizeAtLeastIff(n, k, 8 * (m + 1));
  }

  lemma SameStepIff(n: nat, k: nat, l: nat)
    requires k <= l
    ensures SameStep(n, k, l) <==> Align8(ZoomSize(n, k)) == Align8(ZoomSize(n, l))
  {
    hide ZoomSize, Step;
    ZoomAntitone(n, k, l);
    if SameStep(n, k, l) {
      var m :| Step(n, k, l, m);
      StepIff(n, k, l, m);
    } else {
      StepIff(n, k, l, ZoomSize(n, l) / 8);
    }
  }

  /** Sizes a and b <= a, centred in n, against an offset of the larger one. */
  lemma AlignedEdgesIff(n: nat, o: nat, a: nat, b: nat)
    requires b <= a <= n && o <= (n - b) / 2
    requires n - a <= 2 * o + 1
    ensures (n - b) / 2 + Align8(b) <= o + Align8(a) <==> o == (n - b) / 2 || Align8(a) != Align8(b)
  {
  }

  /** The sides for which a level's offset is o. */
  predicate OffsetIs(n: nat, level: nat, o: nat) {
    (n - 2 * o - 1) * (10 + level) <= 10 * n < (n - 2 * o + 1) * (10 + level)
  }

  /** A bound on the zoomed size, of either sign. */
  lemma ZoomSizeBoundIff(n: nat, level: nat, q: int)
    ensures q <= ZoomSize(n, level) <==> q * (10 + level) <= 10 * n
  {
    if q >= 0 {
      ZoomSizeAtLeastIff(n, level, q);
    } else {
      assert q * (10 + level) < 0;
    }
  }

  lemma OffsetAtLeastIff(n: nat, level: nat, o: nat)
    ensures o <= ZoomOffset(n, level) <==> 10 * n < (n - 2 * o + 1) * (10 + level)
  {
    hide ZoomSize;
    ZoomShrinks(n, level);
    ZoomSizeBoundIff(n, level, n - 2 * o + 1);
  }

  lemma OffsetIsIff(n: nat, level: nat, o: nat)
    ensures OffsetIs(n, level, o) <==> ZoomOffset(n, level) == o
  {
    hide ZoomOffset;
    OffsetAtLeastIff(n, level, o);
    OffsetAtLeastIff(n, level, o + 1);
  }

  /** Along one axis, aligned levels k and l are nested unless they take the side to the same
      multiple of 8 at different offsets. */
  ghost predicate AxisNests(n: nat, k: nat, l: nat) {
    (exists o: nat :: OffsetIs(n, k, o) && OffsetIs(n, l, o)) || !SameStep(n, k, l)
  }

  lemma SameOffsetIff(n: nat, k: nat, l: nat)
    ensures (exists o: nat :: OffsetIs(n, k, o) && OffsetIs(n, l, o)) <==> ZoomOffset(n, k) == ZoomOffset(n, l)
  {
    hide ZoomOffset, OffsetIs;
    forall o: nat
      ensures OffsetIs(n, k, o) <==> ZoomOffset(n, k) == o
      ensures OffsetIs(n, l, o) <==> ZoomOffset(n, l) == o
    {
      OffsetIsIff(n, k, o);
      OffsetIsIff(n, l, o);
    }
    assert OffsetIs(n, k, ZoomOffset(n, k));
  }

  lemma AxisNestsIff(n: nat, k: nat, l: nat)
    requires k <= l
    ensures ZoomOffset(n, k) <= ZoomOffset(n, l)
    ensures ZoomOffset(n, l) + Align8(ZoomSize(n, l)) <= ZoomOffset(n, k) + Align8(ZoomSize(n, k))
            <==> AxisNests(n, k, l)
  {
    hide ZoomSize, SameStep, OffsetIs;
    ZoomAntitone(n, k, l);
    ZoomShrinks(n, k);
    SameStepIff(n, k, l);
    SameOffsetIff(n, k, l);
    AlignedEdgesIff(n, ZoomOffset(n, k), ZoomSize(n, k), ZoomSize(n, l));
  }

  lemma AlignedZoomNestedIff(w: nat, h: nat, k: nat, l: nat)
    requires k <= l
    ensures Aligned(ZoomRect(w, h, l)).Inside(Aligned(ZoomRect(w, h, k))) <==> AxisNests(w, k, l) && AxisNests(h, k, l)
  {
    hide ZoomOffset, ZoomSize, AxisNests;
    AxisNestsIff(w, k, l);
    AxisNestsIff(h, k, l);
  }

  /** Where the intervals end. */
  lemma StepBound(n: nat, k: nat, l: nat, m: nat)
    requires k < l && Step(n, k, l, m)
    ensures m < 10 + k && 10 * n < 8 * ((10 + k) * (10 + k))
  {
    assert 8 * m * (10 + l) == 8 * (m * (10 + k)) + 8 * (m * (l - k));
    assert 8 * (m + 1) * (10 + k) == 8 * (m * (10 + k)) + 8 * (10 + k);
    MulMonotone(m, 1, l - k);
    MulMonotone(10 + k, m + 1, 10 + k);
  }

  /** With both sides above 288 the aligned rectangles of all the levels there are nested. */
  lemma LargeFramesNest(w: nat, h: nat, k: nat, l: nat)
    requires k <= l < ZOOM_LEVEL_MAX && w > 288 && h > 288
    ensures Aligned(ZoomRect(w, h, l)).Inside(Aligned(ZoomRect(w, h, k)))
  {
    hide ZoomRect, Step;
    AlignedZoomNestedIff(w, h, k, l);
    LargeAxisNests(w, k, l);
    LargeAxisNests(h, k, l);
  }

  lemma LargeAxisNests(n: nat, k: nat, l: nat)
    requires k <= l < ZOOM_LEVEL_MAX && n > 288
    ensures AxisNests(n, k, l)
  {
    hide ZoomOffset, Step, OffsetIs;
    SameOffsetIff(n, k, l);
    if k < l && SameStep(n, k, l) {
      var m :| Step(n, k, l, m);
      StepBound(n, k, l, m);
      MulMonotone(10 + k, 10 + k, 19);
      assert false;
    }
  }

  /** The bound is sharp, and a size in use fails: levels 9 and 10 of a frame 320 by 240. */
  lemma AlignedZoomNotNested()
    ensures !AxisNests(288, 9, 10)
    ensures !Aligned(ZoomRect(320, 240, 10)).Inside(Aligned(ZoomRect(320, 240, 9)))
  {
    hide ZoomSize, OffsetIs;
    ZoomSizeIs(288, 9, 151);
    ZoomSizeIs(288, 10, 144);
    SameOffsetIff(288, 9, 10);
    assert Step(288, 9, 10, 18);
    ZoomSizeIs(320, 9, 168);
    ZoomSizeIs(320, 10, 160);
    ZoomSizeIs(240, 9, 126);
    ZoomSizeIs(240, 10, 120);
    assert ZoomRect(320, 240, 9) == Rect(76, 57, 168, 126) && ZoomRect(320, 240, 10) == Rect(80, 60, 160, 120);
    assert Align8(126) == 120 && Align8(120) == 120;
  }

  lemma ZoomSizeIs(n: nat, level: nat, q: nat)
    requires q * (10 + level) <= 10 * n < (q + 1) * (10 + level)
    ensures ZoomSize(n, level) == q
  {
    hide ZoomSize;
    ZoomSizeAtLeastIff(n, level, q);
    ZoomSizeAtLeastIff(n, level, q + 1);
  }

  // ---------------------------------------------------------------------
  // The zoom after the format

  /** setZoom centres on the size that was recorded, not on the crop that is in force: along
      an axis it stays in that crop while its own offset is at least the crop's, and alignment
      does not give the two the same size at different offsets. */
  ghost predicate AxisStaysIn(offset: nat, side: nat, level: nat) {
    && 10 * side < (side - 2 * offset + 1) * (10 + level)
    && (OffsetIs(side, level, offset) || !SameStep(side, 0, level))
  }

  lemma AxisStaysInIff(o: nat, n: nat, level: nat)
    ensures o <= ZoomOffset(n, level) && ZoomOffset(n, level) + Align8(ZoomSize(n, level)) <= o + Align8(n)
            <==> AxisStaysIn(o, n, level)
  {
    hide ZoomSize, SameStep, OffsetIs;
    ZoomEnds(n);
    ZoomShrinks(n, level);
    SameStepIff(n, 0, level);
    OffsetAtLeastIff(n, level, o);
    OffsetIsIff(n, level, o);
    if o <= ZoomOffset(n, level) {
      AlignedEdgesIff(n, o, n, ZoomSize(n, level));
    }
  }

  /** When the ratios differ and the crop is not empty. */
  lemma ZoomStaysInCropIff(bw: nat, bh: nat, w: nat, h: nat, level: nat)
    requires bh > 0 && h > 0 && Ratio(bw, bh) != Ratio(w, h)
    requires AspectCrop(bw, bh, w, h).width > 0 && AspectCrop(bw, bh, w, h).height > 0
    ensures var r := AspectCrop(bw, bh, w, h);
            SnapshotCrop(bw, bh, w, h, level).Inside(Aligned(r))
            <==> AxisStaysIn(r.left, r.width, level) && AxisStaysIn(r.top, r.height, level)
  {
    hide AspectCrop, Ratio, ZoomOffset, ZoomSize, AxisStaysIn;
    var r := AspectCrop(bw, bh, w, h);
    AxisStaysInIff(r.left, r.width, level);
    AxisStaysInIff(r.top, r.height, level);
  }

  /** For sides of at least 80 only the offsets count. */
  lemma LargeAxisStaysInIff(o: nat, n: nat, level: nat)
    requires n >= 80 && 0 < level
    ensures AxisStaysIn(o, n, level) <==> 10 * n < (n - 2 * o + 1) * (10 + level)
    ensures AxisStaysIn(o, n, level) <==> o <= ZoomOffset(n, level)
  {
    hide ZoomOffset, Step, OffsetIs;
    OffsetAtLeastIff(n, level, o);
    if SameStep(n, 0, level) {
      var m :| Step(n, 0, level, m);
      StepBound(n, 0, level, m);
      assert false;
    }
  }

  /** A snapshot of 1280 by 720 from a sensor of 1600 by 1200: level 1 leaves the crop. */
  lemma ZoomLeavesCrop()
    ensures Aligned(AspectCrop(1600, 1200, 1280, 720)) == Rect(0, 150, 1600, 896)
    ensures SnapshotCrop(1600, 1200, 1280, 720, 1) == Rect(73, 41, 1448, 816)
    ensures !SnapshotCrop(1600, 1200, 1280, 720, 1).Inside(Aligned(AspectCrop(1600, 1200, 1280, 720)))
  {
    hide ZoomSize, Ratio;
    RatioIs(1600, 1200, 133);
    RatioIs(1280, 720, 177);
    assert 1600 / 177 == 9;
    ZoomSizeIs(1600, 1, 1454);
    ZoomSizeIs(900, 1, 818);
  }

  lemma RatioIs(w: nat, h: nat, q: nat)
    requires h > 0 && h * q <= w * PRECISION < h * (q + 1)
    ensures Ratio(w, h) == q
  {
    hide Ratio;
    RatioBounds(w, h);
    assert h * (Ratio(w, h) + 1) == h * Ratio(w, h) + h;
    MulCancel(h, q, Ratio(w, h) + 1);
    MulCancel(h, Ratio(w, h), q + 1);
  }

  /** When the ratios are equal the driver holds the whole base frame, and the zoom is of the
      target size. Along an axis on which the target is not the larger, it stays inside unless
      alignment takes zoomed, target and base side to the same multiple at a positive offset;
      along one on which it is, while its far edge is not beyond the base side. */
  ghost predicate AxisStaysInBase(base: nat, side: nat, level: nat) {
    if side <= base then
      !(SameStep(side, 0, level) && Align8(side) == Align8(base) && 10 * side < (side - 1) * (10 + level))
    else exists m: nat :: EndsBy(Align8(base), side, level, m)
  }

  /** The zoomed side is aligned to 8m, and leaves at most what is left of b before it. */
  predicate EndsBy(b: nat, n: nat, level: nat, m: nat) {
    && Step(n, level, level, m) && 8 * m <= b
    && (n - 2 * (b - 8 * m) - 1) * (10 + level) <= 10 * n
  }

  lemma AxisStaysInBaseIff(base: nat, n: nat, level: nat)
    ensures ZoomOffset(n, level) + Align8(ZoomSize(n, level)) <= Align8(base) <==> AxisStaysInBase(base, n, level)
  {
    if n <= base {
      SmallerTargetIff(base, n, level);
    } else {
      LargerTargetIff(Align8(base), n, level);
    }
  }

  lemma SmallerTargetIff(base: nat, n: nat, level: nat)
    requires n <= base
    ensures ZoomOffset(n, level) + Align8(ZoomSize(n, level)) <= Align8(base)
            <==> !(SameStep(n, 0, level) && Align8(n) == Align8(base) && 10 * n < (n - 1) * (10 + level))
  {
    hide ZoomSize, SameStep;
    ZoomEnds(n);
    ZoomShrinks(n, level);
    SameStepIff(n, 0, level);
    OffsetAtLeastIff(n, level, 1);
  }

  lemma LargerTargetIff(b: nat, n: nat, level: nat)
    ensures ZoomOffset(n, level) + Align8(ZoomSize(n, level)) <= b <==> exists m: nat :: EndsBy(b, n, level, m)
  {
    hide ZoomSize;
    ZoomShrinks(n, level);
    forall m: nat
      ensures EndsBy(b, n, level, m)
              <==> ZoomSize(n, level) / 8 == m && ZoomOffset(n, level) + Align8(ZoomSize(n, level)) <= b
    {
      hide Step;
      StepIff(n, level, level, m);
      ZoomSizeBoundIff(n, level, n - 2 * (b - 8 * m) - 1);
    }
    assert ZoomOffset(n, level) + Align8(ZoomSize(n, level)) <= b ==> EndsBy(b, n, level, ZoomSize(n, level) / 8);
  }

  /** Bounds that can be read off: up to 2(10 + level) b / (20 + level) the zoom of a side ends
      by b, and from 9 more than b on it does not. */
  lemma LargerTargetBounds(b: nat, n: nat, level: nat)
    ensures n * (20 + level) <= 2 * (10 + level) * b ==> exists m: nat :: EndsBy(b, n, level, m)
    ensures n * (20 + level) >= 2 * (10 + level) * (b + 9) ==> !exists m: nat :: EndsBy(b, n, level, m)
  {
    hide ZoomSize, ZoomOffset, Align8, EndsBy;
    LargerTargetIff(b, n, level);
    EdgeIs(n, level);
    EdgeBounds(n, ZoomSize(n, level), b);
    SumBounds(n, level, b);
    SumBounds(n, level, b + 9);
  }

  lemma EdgeIs(n: nat, level: nat)
    ensures ZoomSize(n, level) <= n
    ensures ZoomOffset(n, level) + Align8(ZoomSize(n, level))
         == (n - ZoomSize(n, level)) / 2 + Align8(ZoomSize(n, level))
  {
    ZoomShrinks(n, level);
  }

  /** The far edge of a size z centred in n and then aligned, from the sum of the two. */
  lemma EdgeBounds(n: nat, z: nat, b: nat)
    requires z <= n
    ensures n + z <= 2 * b ==> (n - z) / 2 + Align8(z) <= b
    ensures n + z + 1 > 2 * (b + 9) ==> (n - z) / 2 + Align8(z) > b
  {
  }

  lemma SumBounds(n: nat, level: nat, b: nat)
    ensures n * (20 + level) <= 2 * (10 + level) * b ==> n + ZoomSize(n, level) <= 2 * b
    ensures n * (20 + level) >= 2 * (10 + level) * b ==> n + ZoomSize(n, level) + 1 > 2 * b
  {
    hide ZoomSize;
    var t, z := 10 + level, ZoomSize(n, level);
    ZoomSizeAtLeastIff(n, level, z);
    ZoomSizeAtLeastIff(n, level, z + 1);
    assert n * (20 + level) == t * n + 10 * n;
    assert t * (n + z) == t * n + z * t && t * (n + z + 1) == t * n + (z + 1) * t;
    assert 2 * t * b == t * (2 * b) && t * (2 * b + 1) == t * (2 * b) + t;
    MulCancel(t, n + z, 2 * b + 1);
    MulCancel(t, 2 * b, n + z + 1);
  }

  lemma EqualRatioStaysIff(bw: nat, bh: nat, w: nat, h: nat, level: nat)
    requires bh > 0 && h > 0 && Ratio(bw, bh) == Ratio(w, h)
    ensures SnapshotCrop(bw, bh, w, h, level).Inside(Aligned(AspectCrop(bw, bh, w, h)))
            <==> AxisStaysInBase(bw, w, level) && AxisStaysInBase(bh, h, level)
  {
    hide Ratio, ZoomOffset, ZoomSize, AxisStaysInBase;
    AxisStaysInBaseIff(bw, w, level);
    AxisStaysInBaseIff(bh, h, level);
  }

  /** With an empty crop the zoom is of the target size, and not in it unless it is empty too. */
  lemma EmptyCropIsLeft(bw: nat, bh: nat, w: nat, h: nat, level: nat)
    requires bh > 0 && h > 0 && Ratio(bw, bh) != Ratio(w, h)
    requires AspectCrop(bw, bh, w, h).width == 0 || AspectCrop(bw, bh, w, h).height == 0
    ensures SnapshotCrop(bw, bh, w, h, level) == Aligned(ZoomRect(w, h, level))
    ensures ZoomSize(w, level) >= 8 && ZoomSize(h, level) >= 8 ==>
              !SnapshotCrop(bw, bh, w, h, level).Inside(Aligned(AspectCrop(bw, bh, w, h)))
  {
    hide AspectCrop, Ratio, ZoomOffset, ZoomSize;
  }
}
