/** The attribute record the camera hands to the Exif encoder, the directory entries
    that stand for it, and the TIFF block they make up. */
module ExifAttributes {
  import opened Basics
  import opened TiffFormat
  import opened ExifLayout

  datatype Attributes = Attributes(
    enableGps: bool,
    enableThumb: bool,
    maker: seq<byte>,
    model: seq<byte>,
    software: seq<byte>,
    exifVersion: seq<byte>,
    dateTime: seq<byte>,
    userComment: seq<byte>,
    width: uint32,
    height: uint32,
    widthThumb: uint32,
    heightThumb: uint32,
    thumbBuf: Option<seq<byte>>,
    orientation: uint16,
    ycbcrPositioning: uint16,
    exposureProgram: uint16,
    meteringMode: uint16,
    flash: uint16,
    colorSpace: uint16,
    exposureMode: uint16,
    whiteBalance: uint16,
    exposureTime: Rational,
    fnumber: Rational,
    aperture: Rational,
    maxAperture: Rational,
    focalLength: Rational,
    shutterSpeed: SRational,
    brightness: SRational,
    exposureBias: SRational,
    gpsLatitudeRef: seq<byte>,
    gpsLongitudeRef: seq<byte>,
    gpsVersionId: seq<byte>,
    gpsAltitudeRef: byte,
    gpsLatitude: seq<Rational>,
    gpsLongitude: seq<Rational>,
    gpsAltitude: Rational,
    gpsTimestamp: seq<Rational>,
    gpsDatestamp: seq<byte>,
    gpsProcessingMethod: seq<byte>,
    xResolution: Rational,
    yResolution: Rational,
    resolutionUnit: uint16,
    compressionScheme: uint16)
  {
    /** The sizes of the C arrays, and the terminators that strlen relies on. The comment
        field must have room for the 8-byte code that is put in front of the text. */
    ghost predicate WellFormed() {
      && |maker| == 32 && 0 in maker
      && |model| == 32 && 0 in model
      && |software| == 32 && 0 in software
      && |exifVersion| == 4
      && |dateTime| == 20
      && |userComment| == 150 && StrLen(userComment) + 9 <= 150
      && |gpsLatitudeRef| == 2 && |gpsLongitudeRef| == 2
      && |gpsVersionId| == 4
      && |gpsLatitude| == 3 && |gpsLongitude| == 3 && |gpsTimestamp| == 3
      && |gpsDatestamp| == 11
      && |gpsProcessingMethod| == 100
      && (thumbBuf.Some? ==> |thumbBuf.value| < 0x1_0000_0000)
    }

    predicate HasThumb() {
      enableThumb && thumbBuf.Some?
    }

    predicate HasMethod()
      requires WellFormed()
    {
      gpsProcessingMethod[0] != 0
    }
  }

  /** C's strlen, stopping at the end of the array when there is no terminator. */
  function StrLen(s: seq<byte>): (n: nat)
    ensures n <= |s|
    ensures forall i | 0 <= i < n :: s[i] != 0
    ensures n < |s| ==> s[n] == 0
    ensures 0 in s ==> n < |s|
  {
    if s == [] || s[0] == 0 then 0 else 1 + StrLen(s[1..])
  }

  /** A C string with its terminator. */
  function CString(s: seq<byte>): (r: seq<byte>)
    requires StrLen(s) < |s|
    ensures |r| == StrLen(s) + 1
  {
    s[..StrLen(s) + 1]
  }

  const TIFF_HEADER: seq<byte> := [0x49, 0x49, 0x2A, 0x00, 0x08, 0x00, 0x00, 0x00]
  const COMMENT_CODE: seq<byte> := [0x00, 0x00, 0x00, 0x49, 0x49, 0x43, 0x53, 0x41]
  const ASCII_PREFIX: seq<byte> := [0x41, 0x53, 0x43, 0x49, 0x49, 0x00, 0x00, 0x00]
  const EXIF_ID: seq<byte> := [0x45, 0x78, 0x69, 0x66, 0x00, 0x00]

  /** The comment field after the code has been put in front of the text, in place. */
  function PrefixedComment(s: seq<byte>): (r: seq<byte>)
    requires StrLen(s) + 9 <= |s|
    ensures |r| == |s|
  {
    COMMENT_CODE + CString(s) + s[StrLen(s) + 9..]
  }

  // ---------------------------------------------------------------------
  // Directory entries, in the order of the source

  function Inline(tag: uint16, v: Value): Entry {
    Entry(tag, v, false)
  }

  function OutOfLine(tag: uint16, v: Value): Entry {
    Entry(tag, v, true)
  }

  ghost function MainFixed(a: Attributes): (es: seq<Entry>)
    requires a.WellFormed()
    ensures |es| == 11
  {
    [Inline(0x0100, Longs([a.width])),
     Inline(0x0101, Longs([a.height])),
     OutOfLine(0x010f, Ascii(CString(a.maker))),
     OutOfLine(0x0110, Ascii(CString(a.model))),
     Inline(0x0112, Shorts([a.orientation])),
     OutOfLine(0x0131, Ascii(CString(a.software))),
     OutOfLine(0x0132, Ascii(a.dateTime)),
     OutOfLine(0x011A, Rationals([a.xResolution])),
     OutOfLine(0x011B, Rationals([a.yResolution])),
     Inline(0x0128, Shorts([a.resolutionUnit])),
     Inline(0x0213, Shorts([a.ycbcrPositioning]))]
  }

  ghost function MainEntries(a: Attributes, exifAt: uint32, gpsAt: uint32): (es: seq<Entry>)
    requires a.WellFormed()
    ensures |es| == MainCount(a)
  {
    MainFixed(a) + [Inline(TAG_EXIF_POINTER, Longs([exifAt]))]
    + if a.enableGps then [Inline(TAG_GPS_POINTER, Longs([gpsAt]))] else []
  }

  function MainCount(a: Attributes): nat {
    if a.enableGps then 13 else 12
  }

  ghost function ExifEntries(a: Attributes): (es: seq<Entry>)
    requires a.WellFormed()
    ensures |es| == 20
  {
    [OutOfLine(0x829A, Rationals([a.exposureTime])),
     OutOfLine(0x829D, Rationals([a.fnumber])),
     Inline(0x8822, Shorts([a.exposureProgram])),
     Inline(0x9000, Undefined(a.exifVersion)),
     OutOfLine(0x9003, Ascii(a.dateTime)),
     OutOfLine(0x9004, Ascii(a.dateTime)),
     OutOfLine(0x9201, SRationals([a.shutterSpeed])),
     OutOfLine(0x9202, Rationals([a.aperture])),
     OutOfLine(0x9203, SRationals([a.brightness])),
     OutOfLine(0x9204, SRationals([a.exposureBias])),
     OutOfLine(0x9205, Rationals([a.maxAperture])),
     Inline(0x9207, Shorts([a.meteringMode])),
     Inline(0x9209, Shorts([a.flash])),
     OutOfLine(0x920A, Rationals([a.focalLength])),
     OutOfLine(0x9286, Undefined(COMMENT_CODE + CString(a.userComment))),
     Inline(0xA001, Shorts([a.colorSpace])),
     Inline(0xA002, Longs([a.width])),
     Inline(0xA003, Longs([a.height])),
     Inline(0xA402, Longs([a.exposureMode])),
     Inline(0xA403, Longs([a.whiteBalance]))]
  }

  ghost function MethodEntry(a: Attributes): Entry
    requires a.WellFormed()
  {
    OutOfLine(0x001B, Undefined(ASCII_PREFIX + a.gpsProcessingMethod[..StrLen(a.gpsProcessingMethod)]))
  }

  ghost function GpsEntries(a: Attributes): (es: seq<Entry>)
    requires a.WellFormed()
    ensures |es| == if a.HasMethod() then 10 else 9
  {
    [Inline(0x0000, Bytes(a.gpsVersionId)),
     Inline(0x0001, Ascii(a.gpsLatitudeRef)),
     OutOfLine(0x0002, Rationals(a.gpsLatitude)),
     Inline(0x0003, Ascii(a.gpsLongitudeRef)),
     OutOfLine(0x0004, Rationals(a.gpsLongitude)),
     Inline(0x0005, Bytes([a.gpsAltitudeRef])),
     OutOfLine(0x0006, Rationals([a.gpsAltitude])),
     OutOfLine(0x0007, Rationals(a.gpsTimestamp))]
    + (if a.HasMethod() then [MethodEntry(a)] else [])
    + [OutOfLine(0x001D, Ascii(a.gpsDatestamp))]
  }

  ghost function ThumbEntries(a: Attributes, thumbAt: uint32): (es: seq<Entry>)
    requires a.WellFormed() && a.HasThumb()
    ensures |es| == 9
  {
    [Inline(0x0100, Longs([a.widthThumb])),
     Inline(0x0101, Longs([a.heightThumb])),
     Inline(0x0103, Shorts([a.compressionScheme])),
     Inline(0x0112, Shorts([a.orientation])),
     OutOfLine(0x011A, Rationals([a.xResolution])),
     OutOfLine(0x011B, Rationals([a.yResolution])),
     Inline(0x0128, Shorts([a.resolutionUnit])),
     Inline(TAG_THUMB_OFFSET, Longs([thumbAt])),
     Inline(TAG_THUMB_LENGTH, Longs([|a.thumbBuf.value|]))]
  }

  // ---------------------------------------------------------------------
  // Positions in the TIFF block

  ghost function ExifAt(a: Attributes): nat
    requires a.WellFormed()
  {
    8 + TableSize(MainCount(a)) + |DataBytes(MainFixed(a))|
  }

  ghost function GpsAt(a: Attributes): nat
    requires a.WellFormed()
  {
    ExifAt(a) + BlockSize(ExifEntries(a))
  }

  ghost function ThumbIfdAt(a: Attributes): nat
    requires a.WellFormed()
  {
    GpsAt(a) + if a.enableGps then BlockSize(GpsEntries(a)) else 0
  }

  /** The two resolutions are the only values behind the thumbnail's directory. */
  ghost function ThumbAt(a: Attributes): nat
    requires a.WellFormed()
  {
    ThumbIfdAt(a) + TableSize(9) + 16
  }

  ghost function TiffSize(a: Attributes): nat
    requires a.WellFormed()
  {
    if a.HasThumb() then ThumbAt(a) + |a.thumbBuf.value| else ThumbIfdAt(a)
  }

  /** The largest size whose offsets fit the 32-bit fields that hold them. */
  ghost predicate Encodable(a: Attributes) {
    a.WellFormed() && 10 + TiffSize(a) < 0x1_0000_0000
  }

  // ---------------------------------------------------------------------
  // Sizes and validity of the entry lists

  lemma MainEntriesValid(a: Attributes, exifAt: uint32, gpsAt: uint32)
    requires a.WellFormed()
    ensures AllValid(MainEntries(a, exifAt, gpsAt))
  {
  }

  lemma ExifEntriesValid(a: Attributes)
    requires a.WellFormed()
    ensures AllValid(ExifEntries(a))
  {
  }

  lemma GpsEntriesValid(a: Attributes)
    requires a.WellFormed()
    ensures AllValid(GpsEntries(a))
  {
  }

  lemma ThumbEntriesValid(a: Attributes, thumbAt: uint32)
    requires a.WellFormed() && a.HasThumb()
    ensures AllValid(ThumbEntries(a, thumbAt))
  {
  }

  /** The two pointers add nothing to the data region. */
  lemma MainDataBytes(a: Attributes, exifAt: uint32, gpsAt: uint32)
    requires a.WellFormed()
    ensures DataBytes(MainEntries(a, exifAt, gpsAt)) == DataBytes(MainFixed(a))
  {
    hide DataBytes, MainFixed;
    var exif, gps := Inline(TAG_EXIF_POINTER, Longs([exifAt])), Inline(TAG_GPS_POINTER, Longs([gpsAt]));
    DataBytesSnoc(MainFixed(a), exif);
    DataBytesSnoc(MainFixed(a) + [exif], gps);
    assert DataBytes(MainFixed(a)) + [] + [] == DataBytes(MainFixed(a));
    assert MainFixed(a) + [exif] + [] == MainFixed(a) + [exif];
  }

  lemma DataBytesAppend(es: seq<Entry>, fs: seq<Entry>)
    ensures DataBytes(es + fs) == DataBytes(es) + DataBytes(fs)
    decreases |fs|
  {
    if fs == [] {
      assert es + fs == es;
    } else {
      var front, last := fs[..|fs| - 1], fs[|fs| - 1];
      assert es + fs == (es + front) + [last];
      assert fs == front + [last];
      DataBytesSnoc(es + front, last);
      DataBytesSnoc(front, last);
      DataBytesAppend(es, front);
    }
  }

  lemma ThumbDataSize(a: Attributes, thumbAt: uint32)
    requires a.WellFormed() && a.HasThumb()
    ensures |DataBytes(ThumbEntries(a, thumbAt))| == 16
  {
    hide Value.Encode, DataBytes;
    var es := ThumbEntries(a, thumbAt);
    assert es == es[..4] + [es[4]] + [es[5]] + es[6..];
    DataBytesInline(es[..4]);
    DataBytesInline(es[6..]);
    DataBytesSnoc(es[..4], es[4]);
    DataBytesSnoc(es[..4] + [es[4]], es[5]);
    DataBytesAppend(es[..4] + [es[4]] + [es[5]], es[6..]);
  }

  lemma DataBytesInline(es: seq<Entry>)
    requires forall k | 0 <= k < |es| :: !es[k].outOfLine
    ensures DataBytes(es) == []
  {
  }

  // ---------------------------------------------------------------------
  // The finished blocks

  ghost function MainBlock(a: Attributes): seq<byte>
    requires Encodable(a)
  {
    MainEntriesValid(a, ExifAt(a), GpsAt(a));
    MainDataBytes(a, ExifAt(a), GpsAt(a));
    Block(MainEntries(a, ExifAt(a), GpsAt(a)), 8, if a.HasThumb() then ThumbIfdAt(a) else 0)
  }

  ghost function ExifBlock(a: Attributes): seq<byte>
    requires Encodable(a)
  {
    ExifEntriesValid(a);
    Block(ExifEntries(a), ExifAt(a), 0)
  }

  ghost function GpsBlock(a: Attributes): seq<byte>
    requires Encodable(a)
  {
    if a.enableGps then
      GpsEntriesValid(a);
      Block(GpsEntries(a), GpsAt(a), 0)
    else []
  }

  ghost function ThumbBlock(a: Attributes): seq<byte>
    requires Encodable(a)
  {
    if a.HasThumb() then
      ThumbEntriesValid(a, ThumbAt(a));
      ThumbDataSize(a, ThumbAt(a));
      Block(ThumbEntries(a, ThumbAt(a)), ThumbIfdAt(a), 0) + a.thumbBuf.value
    else []
  }

  /** The whole TIFF block: header, then every directory with its values behind it. */
  ghost function Tiff(a: Attributes): (t: seq<byte>)
    requires Encodable(a)
  {
    TIFF_HEADER + MainBlock(a) + ExifBlock(a) + GpsBlock(a) + ThumbBlock(a)
  }

  /** The APP1 segment: marker, big-endian length, Exif identifier, TIFF block. */
  ghost function App1(a: Attributes): (s: seq<byte>)
    requires Encodable(a)
  {
    App1Head(10 + TiffSize(a)) + EXIF_ID + Tiff(a)
  }

  function App1Head(size: nat): (s: seq<byte>)
    requires size >= 2
    ensures |s| == 4
  {
    [0xff, 0xe1, (size - 2) / 0x100 % 0x100, (size - 2) % 0x100]
  }
}
