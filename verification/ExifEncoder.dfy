/** makeExif: the camera's Exif writer, proved to produce the APP1 segment of the
    attribute record it was given. */
module ExifEncoder {
  import opened Basics
  import opened TiffFormat
  import opened ExifLayout
  import opened ExifAttributes
  import opened ExifWriter

  /** The attribute record in memory; makeExif edits its comment field in place. */
  class ExifRecord {
    var attrs: Attributes

    constructor (a: Attributes)
      ensures attrs == a
    {
      attrs := a;
    }
  }

  /** The writer has got to entry k of the directory it was working on. */
  twostate predicate Reached(w: ExifWriter, k: nat)
    reads w, w.out
  {
    && w.Open() && w.k == k
    && w.at == old(w.at) && w.plan == old(w.plan) && w.base == old(w.base) && w.holes == old(w.holes)
  }

  lemma OffsetWhenOpen(w: ExifWriter)
    requires w.Open()
    ensures w.k <= |w.plan|
    ensures w.off == w.at + TableSize(|w.plan|) + |DataBytes(w.plan[..w.k])|
    ensures w.off < 0x1_0000_0000
  {
    hide DataBytes, Laid;
  }

  // ---------------------------------------------------------------------
  // 0th IFD

  lemma MainPlan(a: Attributes, exifAt: uint32, gpsAt: uint32)
    requires a.WellFormed()
    ensures var es := MainEntries(a, exifAt, gpsAt);
            && es[0] == Inline(0x0100, Longs([a.width]))
            && es[1] == Inline(0x0101, Longs([a.height]))
            && es[2] == OutOfLine(0x010f, Ascii(CString(a.maker)))
            && es[3] == OutOfLine(0x0110, Ascii(CString(a.model)))
            && es[4] == Inline(0x0112, Shorts([a.orientation]))
            && es[5] == OutOfLine(0x0131, Ascii(CString(a.software)))
            && es[6] == OutOfLine(0x0132, Ascii(a.dateTime))
            && es[7] == OutOfLine(0x011A, Rationals([a.xResolution]))
            && es[8] == OutOfLine(0x011B, Rationals([a.yResolution]))
            && es[9] == Inline(0x0128, Shorts([a.resolutionUnit]))
            && es[10] == Inline(0x0213, Shorts([a.ycbcrPositioning]))
            && es[11] == Inline(TAG_EXIF_POINTER, Longs([exifAt]))
            && (a.enableGps ==> es[12] == Inline(TAG_GPS_POINTER, Longs([gpsAt])))
            && es[..11] == MainFixed(a)
  {
  }

  method EmitMain(w: ExifWriter, a: Attributes, ghost exifAt: uint32, ghost gpsAt: uint32)
    requires a.WellFormed() && exifAt == ExifAt(a)
    requires w.Open() && w.k == 0 && w.at == 8 && w.plan == MainEntries(a, exifAt, gpsAt)
    modifies w, w.out
    ensures Reached(w, 12)
    ensures w.off == exifAt
  {
    hide ExifWriter.Open, DataBytes, AllValid, MainEntries, MainFixed;
    EmitMainStrings(w, a, exifAt, gpsAt);
    EmitMainRest(w, a, exifAt, gpsAt);
  }

  method EmitMainStrings(w: ExifWriter, a: Attributes, ghost exifAt: uint32, ghost gpsAt: uint32)
    requires a.WellFormed()
    requires w.Open() && w.k == 0 && w.plan == MainEntries(a, exifAt, gpsAt)
    modifies w, w.out
    ensures Reached(w, 6)
  {
    hide ExifWriter.Open, DataBytes, AllValid, MainEntries, MainFixed;
    MainPlan(a, exifAt, gpsAt);
    w.WriteNumber(0x0100, Longs([a.width]));
    w.WriteNumber(0x0101, Longs([a.height]));
    w.WriteOutOfLine(0x010f, Ascii(CString(a.maker)));
    w.WriteOutOfLine(0x0110, Ascii(CString(a.model)));
    w.WriteNumber(0x0112, Shorts([a.orientation]));
    w.WriteOutOfLine(0x0131, Ascii(CString(a.software)));
  }

  method EmitMainRest(w: ExifWriter, a: Attributes, ghost exifAt: uint32, ghost gpsAt: uint32)
    requires a.WellFormed() && exifAt == ExifAt(a)
    requires w.Open() && w.k == 6 && w.at == 8 && w.plan == MainEntries(a, exifAt, gpsAt)
    modifies w, w.out
    ensures Reached(w, 12)
    ensures w.off == exifAt
  {
    hide ExifWriter.Open, DataBytes, AllValid, MainEntries, MainFixed;
    MainPlan(a, exifAt, gpsAt);
    w.WriteOutOfLine(0x0132, Ascii(a.dateTime));
    w.WriteOutOfLine(0x011A, Rationals([a.xResolution]));
    w.WriteOutOfLine(0x011B, Rationals([a.yResolution]));
    w.WriteNumber(0x0128, Shorts([a.resolutionUnit]));
    w.WriteNumber(0x0213, Shorts([a.ycbcrPositioning]));
    OffsetWhenOpen(w);
    w.WriteNumber(TAG_EXIF_POINTER, Longs([w.off]));
    OffsetWhenOpen(w);
    PointerAddsNothing(w.plan);
  }

  lemma PointerAddsNothing(plan: seq<Entry>)
    requires |plan| >= 12 && !plan[11].outOfLine
    ensures |DataBytes(plan[..12])| == |DataBytes(plan[..11])|
  {
    assert plan[..12] == plan[..11] + [plan[11]];
    DataBytesSnoc(plan[..11], plan[11]);
  }

  // ---------------------------------------------------------------------
  // Exif IFD

  lemma ExifPlanHead(a: Attributes)
    requires a.WellFormed()
    ensures var es := ExifEntries(a);
            && es[0] == OutOfLine(0x829A, Rationals([a.exposureTime]))
            && es[1] == OutOfLine(0x829D, Rationals([a.fnumber]))
            && es[2] == Inline(0x8822, Shorts([a.exposureProgram]))
            && es[3] == Inline(0x9000, Undefined(a.exifVersion))
            && es[4] == OutOfLine(0x9003, Ascii(a.dateTime))
            && es[5] == OutOfLine(0x9004, Ascii(a.dateTime))
            && es[6] == OutOfLine(0x9201, SRationals([a.shutterSpeed]))
            && es[7] == OutOfLine(0x9202, Rationals([a.aperture]))
            && es[8] == OutOfLine(0x9203, SRationals([a.brightness]))
            && es[9] == OutOfLine(0x9204, SRationals([a.exposureBias]))
  {
  }

  lemma ExifPlanTail(a: Attributes)
    requires a.WellFormed()
    ensures var es := ExifEntries(a);
            && es[10] == OutOfLine(0x9205, Rationals([a.maxAperture]))
            && es[11] == Inline(0x9207, Shorts([a.meteringMode]))
            && es[12] == Inline(0x9209, Shorts([a.flash]))
            && es[13] == OutOfLine(0x920A, Rationals([a.focalLength]))
            && es[14] == OutOfLine(0x9286, Undefined(COMMENT_CODE + CString(a.userComment)))
            && es[15] == Inline(0xA001, Shorts([a.colorSpace]))
            && es[16] == Inline(0xA002, Longs([a.width]))
            && es[17] == Inline(0xA003, Longs([a.height]))
            && es[18] == Inline(0xA402, Longs([a.exposureMode]))
            && es[19] == Inline(0xA403, Longs([a.whiteBalance]))
  {
  }

  /** The Exif directory, which also puts the code in front of the record's comment. */
  method EmitExif(w: ExifWriter, info: ExifRecord, ghost a: Attributes)
    requires a.WellFormed() && info.attrs == a
    requires w.Open() && w.k == 0 && w.plan == ExifEntries(a)
    modifies w, w.out, info
    ensures Reached(w, 20)
    ensures info.attrs == a.(userComment := PrefixedComment(a.userComment))
  {
    hide ExifWriter.Open, DataBytes, AllValid, ExifEntries;
    EmitExposure(w, info.attrs);
    EmitLens(w, info.attrs);
    EmitComment(w, info, a);
  }

  method EmitExposure(w: ExifWriter, a: Attributes)
    requires a.WellFormed()
    requires w.Open() && w.k == 0 && w.plan == ExifEntries(a)
    modifies w, w.out
    ensures Reached(w, 7)
  {
    hide ExifWriter.Open, DataBytes, AllValid, ExifEntries;
    ExifPlanHead(a);
    w.WriteOutOfLine(0x829A, Rationals([a.exposureTime]));
    w.WriteOutOfLine(0x829D, Rationals([a.fnumber]));
    w.WriteNumber(0x8822, Shorts([a.exposureProgram]));
    w.WriteInline(0x9000, Undefined(a.exifVersion));
    w.WriteOutOfLine(0x9003, Ascii(a.dateTime));
    w.WriteOutOfLine(0x9004, Ascii(a.dateTime));
    w.WriteOutOfLine(0x9201, SRationals([a.shutterSpeed]));
  }

  method EmitLens(w: ExifWriter, a: Attributes)
    requires a.WellFormed()
    requires w.Open() && w.k == 7 && w.plan == ExifEntries(a)
    modifies w, w.out
    ensures Reached(w, 14)
  {
    hide ExifWriter.Open, DataBytes, AllValid, ExifEntries;
    ExifPlanHead(a);
    ExifPlanTail(a);
    w.WriteOutOfLine(0x9202, Rationals([a.aperture]));
    w.WriteOutOfLine(0x9203, SRationals([a.brightness]));
    w.WriteOutOfLine(0x9204, SRationals([a.exposureBias]));
    w.WriteOutOfLine(0x9205, Rationals([a.maxAperture]));
    w.WriteNumber(0x9207, Shorts([a.meteringMode]));
    w.WriteNumber(0x9209, Shorts([a.flash]));
    w.WriteOutOfLine(0x920A, Rationals([a.focalLength]));
  }

  /** Shifts the comment and puts the code in front of it; returns the text's length. */
  method PrefixComment(info: ExifRecord) returns (len: nat)
    requires StrLen(info.attrs.userComment) + 9 <= |info.attrs.userComment|
    modifies info
    ensures info.attrs == old(info.attrs).(userComment := PrefixedComment(old(info.attrs.userComment)))
    ensures len + 8 <= |info.attrs.userComment|
    ensures info.attrs.userComment[..len + 8] == COMMENT_CODE + CString(old(info.attrs.userComment))
  {
    var comment := info.attrs.userComment;
    len := StrLen(comment) + 1;
    comment := comment[..8] + comment[..len] + comment[8 + len..];   // memmove
    comment := COMMENT_CODE + comment[8..];                          // memcpy
    assert comment == PrefixedComment(info.attrs.userComment);
    info.attrs := info.attrs.(userComment := comment);
  }

  method EmitComment(w: ExifWriter, info: ExifRecord, ghost a: Attributes)
    requires a.WellFormed() && info.attrs == a
    requires w.Open() && w.k == 14 && w.plan == ExifEntries(a)
    modifies w, w.out, info
    ensures Reached(w, 20)
    ensures info.attrs == a.(userComment := PrefixedComment(a.userComment))
  {
    hide ExifWriter.Open, DataBytes, AllValid, ExifEntries;
    ExifPlanTail(a);
    var len := PrefixComment(info);
    w.WriteOutOfLine(0x9286, Undefined(info.attrs.userComment[..len + 8]));
    w.WriteNumber(0xA001, Shorts([info.attrs.colorSpace]));
    w.WriteNumber(0xA002, Longs([info.attrs.width]));
    w.WriteNumber(0xA003, Longs([info.attrs.height]));
    w.WriteNumber(0xA402, Longs([info.attrs.exposureMode]));
    w.WriteNumber(0xA403, Longs([info.attrs.whiteBalance]));
  }

  // ---------------------------------------------------------------------
  // GPS IFD

  lemma GpsPlan(a: Attributes)
    requires a.WellFormed()
    ensures var es := GpsEntries(a);
            && es[0] == Inline(0x0000, Bytes(a.gpsVersionId))
            && es[1] == Inline(0x0001, Ascii(a.gpsLatitudeRef))
            && es[2] == OutOfLine(0x0002, Rationals(a.gpsLatitude))
            && es[3] == Inline(0x0003, Ascii(a.gpsLongitudeRef))
            && es[4] == OutOfLine(0x0004, Rationals(a.gpsLongitude))
            && es[5] == Inline(0x0005, Bytes([a.gpsAltitudeRef]))
            && es[6] == OutOfLine(0x0006, Rationals([a.gpsAltitude]))
            && es[7] == OutOfLine(0x0007, Rationals(a.gpsTimestamp))
            && (a.HasMethod() ==> es[8] == MethodEntry(a))
            && es[|es| - 1] == OutOfLine(0x001D, Ascii(a.gpsDatestamp))
  {
  }

  method EmitGps(w: ExifWriter, a: Attributes)
    requires a.WellFormed()
    requires w.Open() && w.k == 0 && w.plan == GpsEntries(a)
    modifies w, w.out
    ensures Reached(w, |GpsEntries(a)|)
  {
    hide ExifWriter.Open, DataBytes, AllValid, GpsEntries;
    EmitPosition(w, a);
    EmitTime(w, a);
  }

  method EmitPosition(w: ExifWriter, a: Attributes)
    requires a.WellFormed()
    requires w.Open() && w.k == 0 && w.plan == GpsEntries(a)
    modifies w, w.out
    ensures Reached(w, 6)
  {
    hide ExifWriter.Open, DataBytes, AllValid, GpsEntries;
    GpsPlan(a);
    w.WriteInline(0x0000, Bytes(a.gpsVersionId));
    w.WriteInline(0x0001, Ascii(a.gpsLatitudeRef));
    w.WriteOutOfLine(0x0002, Rationals(a.gpsLatitude));
    w.WriteInline(0x0003, Ascii(a.gpsLongitudeRef));
    w.WriteOutOfLine(0x0004, Rationals(a.gpsLongitude));
    w.WriteNumber(0x0005, Bytes([a.gpsAltitudeRef]));
  }

  method EmitTime(w: ExifWriter, a: Attributes)
    requires a.WellFormed()
    requires w.Open() && w.k == 6 && w.plan == GpsEntries(a)
    modifies w, w.out
    ensures Reached(w, |GpsEntries(a)|)
  {
    hide ExifWriter.Open, DataBytes, AllValid, GpsEntries;
    GpsPlan(a);
    w.WriteOutOfLine(0x0006, Rationals([a.gpsAltitude]));
    w.WriteOutOfLine(0x0007, Rationals(a.gpsTimestamp));
    var len := StrLen(a.gpsProcessingMethod);
    if len > 0 {
      w.WriteOutOfLine(0x001B, Undefined(ASCII_PREFIX + a.gpsProcessingMethod[..len]));
    }
    w.WriteOutOfLine(0x001D, Ascii(a.gpsDatestamp));
  }

  // ---------------------------------------------------------------------
  // 1st IFD

  lemma ThumbPlan(a: Attributes, thumbAt: uint32)
    requires a.WellFormed() && a.HasThumb()
    ensures var es := ThumbEntries(a, thumbAt);
            && es[0] == Inline(0x0100, Longs([a.widthThumb]))
            && es[1] == Inline(0x0101, Longs([a.heightThumb]))
            && es[2] == Inline(0x0103, Shorts([a.compressionScheme]))
            && es[3] == Inline(0x0112, Shorts([a.orientation]))
            && es[4] == OutOfLine(0x011A, Rationals([a.xResolution]))
            && es[5] == OutOfLine(0x011B, Rationals([a.yResolution]))
            && es[6] == Inline(0x0128, Shorts([a.resolutionUnit]))
            && es[7] == Inline(TAG_THUMB_OFFSET, Longs([thumbAt]))
            && es[8] == Inline(TAG_THUMB_LENGTH, Longs([|a.thumbBuf.value|]))
  {
  }

  method EmitThumb(w: ExifWriter, a: Attributes, ghost thumbAt: uint32)
    requires a.WellFormed() && a.HasThumb() && thumbAt == w.at + TableSize(9) + 16
    requires w.Open() && w.k == 0 && w.plan == ThumbEntries(a, thumbAt)
    modifies w, w.out
    ensures Reached(w, 9)
    ensures w.off == thumbAt
  {
    hide ExifWriter.Open, DataBytes, AllValid, ThumbEntries;
    EmitThumbFormat(w, a, thumbAt);
    EmitThumbPlace(w, a, thumbAt);
  }

  method EmitThumbFormat(w: ExifWriter, a: Attributes, ghost thumbAt: uint32)
    requires a.WellFormed() && a.HasThumb()
    requires w.Open() && w.k == 0 && w.plan == ThumbEntries(a, thumbAt)
    modifies w, w.out
    ensures Reached(w, 5)
  {
    hide ExifWriter.Open, DataBytes, AllValid, ThumbEntries;
    ThumbPlan(a, thumbAt);
    w.WriteNumber(0x0100, Longs([a.widthThumb]));
    w.WriteNumber(0x0101, Longs([a.heightThumb]));
    w.WriteNumber(0x0103, Shorts([a.compressionScheme]));
    w.WriteNumber(0x0112, Shorts([a.orientation]));
    w.WriteOutOfLine(0x011A, Rationals([a.xResolution]));
  }

  method EmitThumbPlace(w: ExifWriter, a: Attributes, ghost thumbAt: uint32)
    requires a.WellFormed() && a.HasThumb() && thumbAt == w.at + TableSize(9) + 16
    requires w.Open() && w.k == 5 && w.plan == ThumbEntries(a, thumbAt)
    modifies w, w.out
    ensures Reached(w, 9)
    ensures w.off == thumbAt
  {
    hide ExifWriter.Open, DataBytes, AllValid, ThumbEntries;
    ThumbPlan(a, thumbAt);
    ThumbDataPrefix(a, thumbAt);
    w.WriteOutOfLine(0x011B, Rationals([a.yResolution]));
    w.WriteNumber(0x0128, Shorts([a.resolutionUnit]));
    OffsetWhenOpen(w);
    w.WriteNumber(TAG_THUMB_OFFSET, Longs([w.off]));
    w.WriteNumber(TAG_THUMB_LENGTH, Longs([|a.thumbBuf.value|]));
    OffsetWhenOpen(w);
  }

  lemma ThumbDataPrefix(a: Attributes, thumbAt: uint32)
    requires a.WellFormed() && a.HasThumb()
    ensures var es := ThumbEntries(a, thumbAt);
            |DataBytes(es[..7])| == 16 && |DataBytes(es[..9])| == 16
  {
    hide DataBytes, Value.Encode;
    var es := ThumbEntries(a, thumbAt);
    ThumbDataSize(a, thumbAt);
    assert es[..9] == es == es[..7] + es[7..];
    DataBytesInline(es[7..]);
    DataBytesAppend(es[..7], es[7..]);
  }

  // ---------------------------------------------------------------------
  // Completing the 0th IFD

  /** Everything stored so far, as `main` followed by what came after it. */
  lemma SpliceFront(main: seq<byte>, rest: seq<byte>, p: nat, b: seq<byte>)
    requires p + |b| <= |main|
    ensures Splice(main + rest, p, b) == Splice(main, p, b) + rest
  {
  }

  lemma InlineSlotAnywhere(e: Entry, i: nat, j: nat)
    requires e.Valid() && !e.outOfLine
    ensures e.Slot(i) == e.Slot(j) && e.Data() == []
  {
  }

  /** Storing the skipped GPS pointer completes the entries. */
  lemma GpsPatched(m: seq<byte>, pre: seq<byte>, main: seq<Entry>)
    requires |main| == 13 && AllValid(main) && !main[12].outOfLine
    requires |m| == 10 + 8 + BlockSize(main)
    requires Laid(m, pre, 8, main, 12)
    ensures Laid(Splice(m, 164, main[12].Slot(0)), pre, 8, main, 13)
  {
    hide DataBytes, Entry.Slot, Entry.Data, Laid;
    var off := 8 + TableSize(13) + |DataBytes(main[..12])|;
    InlineSlotAnywhere(main[12], off, 0);
    LaidStep(m, pre, 8, main, 12);
    var t := Splice(m, 164, main[12].Slot(0));
    assert Splice(t, 10 + off, []) == t;
  }

  /** Storing the link completes the directory. */
  lemma LinkPatched(m: seq<byte>, pre: seq<byte>, main: seq<Entry>, link: uint32)
    requires Fits(main, 8)
    requires |m| == 10 + 8 + BlockSize(main)
    requires Laid(m, pre, 8, main, |main|)
    ensures Splice(m, 20 + 12 * |main|, Le32(link)) == pre + Block(main, 8, link)
  {
    hide Laid, Splice, DataBytes;
    ExifWriter.EndStep(m, pre, 8, main, link);
    var t := Splice(m, 20 + 12 * |main|, Le32(link));
    assert t[..|m|] == t;
  }

  // ---------------------------------------------------------------------
  // The phases of makeExif

  ghost predicate Room(a: Attributes, n: nat) {
    Encodable(a) && 10 + TiffSize(a) <= n
  }

  ghost function Main(a: Attributes): (es: seq<Entry>)
    requires Encodable(a)
    ensures |es| == MainCount(a) && Fits(es, 8) && 8 + BlockSize(es) == ExifAt(a)
    ensures !es[11].outOfLine
    ensures a.enableGps ==> es[12] == Inline(TAG_GPS_POINTER, Longs([GpsAt(a)]))
  {
    MainEntriesValid(a, ExifAt(a), GpsAt(a));
    MainDataBytes(a, ExifAt(a), GpsAt(a));
    MainEntries(a, ExifAt(a), GpsAt(a))
  }

  method MainPhase(w: ExifWriter, a: Attributes)
    requires Room(a, w.out.Length)
    requires w.Sealed() && w.off == 8 && w.holes == {}
    modifies w, w.out
    ensures w.Sealed() && w.off == ExifAt(a)
    ensures w.cur == 164
    ensures Laid(w.base, old(w.base), 8, Main(a), 12)
    ensures w.holes == Range(164, 24 + 12 * MainCount(a))
  {
    hide ExifWriter.Open, ExifWriter.Sealed, DataBytes, Laid, MainEntries;
    ghost var main := Main(a);
    w.StartTable(MainCount(a), main);
    EmitMain(w, a, ExifAt(a), GpsAt(a));
    CursorWhenOpen(w);
    w.Suspend();
    assert {} + w.holes == w.holes;
  }

  lemma CursorWhenOpen(w: ExifWriter)
    requires w.Open()
    ensures w.cur == 12 + w.at + 12 * w.k
  {
    hide DataBytes, Laid;
  }

  method ExifPhase(w: ExifWriter, info: ExifRecord, ghost a: Attributes)
    requires Room(a, w.out.Length) && info.attrs == a
    requires w.Sealed() && w.off == ExifAt(a)
    modifies w, w.out, info
    ensures w.Sealed() && w.off == GpsAt(a) && w.holes == old(w.holes)
    ensures w.base == old(w.base) + ExifBlock(a)
    ensures info.attrs == a.(userComment := PrefixedComment(a.userComment))
  {
    hide ExifWriter.Open, ExifWriter.Sealed, DataBytes, Laid, Block, ExifEntries;
    ghost var es := ExifEntries(a);
    ExifEntriesValid(a);
    w.StartTable(20, es);
    EmitExif(w, info, a);
    OffsetWhenOpen(w);
    assert es[..20] == es;
    w.EndTable();
  }

  method GpsPhase(w: ExifWriter, a: Attributes, ptr: nat)
    requires Room(a, w.out.Length) && a.enableGps
    requires w.Sealed() && w.off == GpsAt(a)
    requires ptr + 12 <= |w.base| && Range(ptr, ptr + 12) <= w.holes
    modifies w, w.out
    ensures w.Sealed() && w.off == ThumbIfdAt(a)
    ensures w.holes == old(w.holes) - Range(ptr, ptr + 12)
    ensures w.base == Splice(old(w.base), ptr, Main(a)[12].Slot(0)) + GpsBlock(a)
  {
    hide ExifWriter.Open, ExifWriter.Sealed, DataBytes, Laid, Block, MainEntries, GpsEntries, Splice;
    w.PatchNumber(ptr, TAG_GPS_POINTER, Longs([w.off]));
    ghost var es := GpsEntries(a);
    GpsEntriesValid(a);
    w.StartTable(if a.gpsProcessingMethod[0] == 0 then 9 else 10, es);
    EmitGps(w, a);
    OffsetWhenOpen(w);
    assert es[..|es|] == es;
    w.EndTable();
  }

  ghost function Link(a: Attributes): uint32
    requires Encodable(a)
  {
    if a.HasThumb() then ThumbIfdAt(a) else 0
  }

  method ThumbPhase(w: ExifWriter, a: Attributes, linkAt: nat)
    requires Room(a, w.out.Length)
    requires w.Sealed() && w.off == ThumbIfdAt(a)
    requires linkAt + 4 <= |w.base| && Range(linkAt, linkAt + 4) <= w.holes
    modifies w, w.out
    ensures w.Sealed() && w.off == TiffSize(a)
    ensures w.holes == old(w.holes) - Range(linkAt, linkAt + 4)
    ensures w.base == Splice(old(w.base), linkAt, Le32(Link(a))) + ThumbBlock(a)
  {
    hide ExifWriter.Open, ExifWriter.Sealed, DataBytes, Laid, Block, ThumbEntries, Splice, Le32;
    if a.enableThumb && a.thumbBuf.Some? {
      w.PatchLink(linkAt, w.off);
      ghost var thumbAt := ThumbAt(a);
      ghost var es := ThumbEntries(a, thumbAt);
      ThumbEntriesValid(a, thumbAt);
      ThumbDataSize(a, thumbAt);
      w.StartTable(9, es);
      EmitThumb(w, a, thumbAt);
      assert es[..9] == es;
      w.EndTable();
      w.AppendData(a.thumbBuf.value);
    } else {
      w.PatchLink(linkAt, 0);
      assert w.base + [] == w.base;
    }
  }

  /** The main directory with both skipped slots stored. */
  ghost function Patched(a: Attributes, m: seq<byte>): (r: seq<byte>)
    requires Encodable(a) && |m| == 10 + ExifAt(a)
    ensures |r| == |m|
  {
    var m' := if a.enableGps then Splice(m, 164, Main(a)[12].Slot(0)) else m;
    Splice(m', 20 + 12 * MainCount(a), Le32(Link(a)))
  }

  lemma PatchedIsMainBlock(a: Attributes, m: seq<byte>, pre: seq<byte>)
    requires Encodable(a) && |m| == 10 + ExifAt(a)
    requires Laid(m, pre, 8, Main(a), 12)
    ensures Patched(a, m) == pre + MainBlock(a)
  {
    hide Laid, Splice, DataBytes, Block, MainEntries, Le32;
    if a.enableGps {
      GpsPatched(m, pre, Main(a));
      LinkPatched(Splice(m, 164, Main(a)[12].Slot(0)), pre, Main(a), Link(a));
    } else {
      LinkPatched(m, pre, Main(a), Link(a));
    }
  }

  /** What the phases leave in the buffer, from the parts they stored. */
  lemma PatchesMoveInside(a: Attributes, m: seq<byte>, e: seq<byte>, g: seq<byte>)
    requires Encodable(a) && |m| == 10 + ExifAt(a)
    ensures var b := if a.enableGps then Splice(m + e, 164, Main(a)[12].Slot(0)) + g else m + e + g;
            Splice(b, 20 + 12 * MainCount(a), Le32(Link(a))) == Patched(a, m) + e + g
  {
    hide Splice, DataBytes, MainEntries, Le32;
    var m' := if a.enableGps then Splice(m, 164, Main(a)[12].Slot(0)) else m;
    if a.enableGps {
      SpliceFront(m, e, 164, Main(a)[12].Slot(0));
    }
    var p, link := 20 + 12 * MainCount(a), Le32(Link(a));
    assert m' + e + g == m' + (e + g);
    SpliceFront(m', e + g, p, link);
    assert Patched(a, m) + e + g == Patched(a, m) + (e + g);
  }

  lemma HeadOfApp1(a: Attributes, x: seq<byte>, b: seq<byte>)
    requires Encodable(a) && |x| == 4
    requires b == x + EXIF_ID + TIFF_HEADER + MainBlock(a) + ExifBlock(a) + GpsBlock(a) + ThumbBlock(a)
    ensures App1Head(10 + TiffSize(a)) + b[4..] == App1(a)
  {
    hide MainBlock, ExifBlock, GpsBlock, ThumbBlock, TiffSize, App1Head;
    assert b == x + (EXIF_ID + Tiff(a));
    assert b[4..] == EXIF_ID + Tiff(a);
  }

  /** All directories, between the TIFF header and the APP1 marker. */
  method EmitDirectories(w: ExifWriter, info: ExifRecord, a: Attributes)
    requires info.attrs == a && Room(a, w.out.Length)
    requires w.Sealed() && w.off == 8 && w.holes == {}
    modifies w, w.out, info
    ensures w.Sealed() && w.off == TiffSize(a) && w.holes == {}
    ensures w.base == old(w.base) + MainBlock(a) + ExifBlock(a) + GpsBlock(a) + ThumbBlock(a)
    ensures info.attrs == a.(userComment := PrefixedComment(a.userComment))
  {
    hide ExifWriter.Open, ExifWriter.Sealed, DataBytes, Laid, MainBlock, ExifBlock, GpsBlock, ThumbBlock,
      Splice, Le32, App1Head, Tiff, App1, PrefixedComment, Main, ExifEntries, GpsEntries, MainFixed,
      StoredSoFar, ExifWriter.Untouched;
    TiffPositions(a);
    ghost var pre := w.base;
    BaseWhenSealed(w);
    MainPhase(w, a);
    ghost var m := w.base;
    BaseWhenSealed(w);
    var gpsPtr := w.cur;
    var linkAt := if a.enableGps then gpsPtr + 12 else gpsPtr;
    ExifPhase(w, info, a);
    if a.enableGps {
      GpsPhase(w, a, gpsPtr);
    }
    BaseWhenSealed(w);
    ThumbPhase(w, a, linkAt);
    BaseWhenSealed(w);
    PatchesMoveInside(a, m, ExifBlock(a), GpsBlock(a));
    PatchedIsMainBlock(a, m, pre);
    if !a.enableGps {
      NoGpsBlock(a);
      assert m + ExifBlock(a) + [] == m + ExifBlock(a);
    }
  }

  /** The encoder. The buffer's first `size` bytes become the APP1 segment of the record as
      it was on entry, each of them stored exactly once, the rest of the buffer keeps its
      contents, and the record's comment field gets the code in front of its text. */
  method MakeExif(exifOut: array<byte>, info: ExifRecord) returns (size: nat, ghost stored: set<nat>)
    requires Room(info.attrs, exifOut.Length)
    requires exifOut.Length < 0x1_0000_0000
    modifies exifOut, info
    ensures Encodable(old(info.attrs))
    ensures size == 10 + TiffSize(old(info.attrs)) <= exifOut.Length
    ensures exifOut[..size] == App1(old(info.attrs))
    ensures exifOut[size..] == old(exifOut[size..])
    ensures info.attrs
         == old(info.attrs).(userComment := PrefixedComment(old(info.attrs.userComment)))
    ensures stored == Range(0, size)
  {
    hide ExifWriter.Open, ExifWriter.Sealed, MainBlock, ExifBlock, GpsBlock, ThumbBlock, App1Head, Tiff, App1,
      PrefixedComment, Range;
    var a := info.attrs;
    TiffPositions(a);
    var w := new ExifWriter(exifOut);
    EmitDirectories(w, info, a);
    BaseWhenSealed(w);
    size := 10 + w.off;
    w.PutHead(size);
    stored := w.written;
    HeadOfApp1(a, old(exifOut[..4]), w.base);
  }

  lemma NoGpsBlock(a: Attributes)
    requires Encodable(a) && !a.enableGps
    ensures GpsBlock(a) == []
  {
  }

  lemma BaseWhenSealed(w: ExifWriter)
    requires w.Sealed()
    ensures |w.base| == 10 + w.off <= w.out.Length < 0x1_0000_0000
  {
  }

  lemma TiffPositions(a: Attributes)
    requires Encodable(a)
    ensures 8 + TableSize(MainCount(a)) <= ExifAt(a) < GpsAt(a) <= ThumbIfdAt(a) <= TiffSize(a)
    ensures !a.enableGps ==> ThumbIfdAt(a) == GpsAt(a)
  {
    hide DataBytes, ExifEntries, GpsEntries;
  }
}
