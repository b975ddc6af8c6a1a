/** Where a viewer looks: the attribute record by the tag numbers of TIFF 6.0 (section 8) and
    Exif 2.2 (section 4.6), in the file that the encoder made. */
module ExifTags {
  import opened Basics
  import opened TiffFormat
  import opened ExifLayout
  import opened ExifAttributes
  import opened ExifRoundTrip

  /** The first value under a tag. */
  function Find(fields: seq<Field>, tag: uint16): Option<Value> {
    if fields == [] then None
    else if fields[0].tag == tag then Some(fields[0].value)
    else Find(fields[1..], tag)
  }

  lemma {:induction false} FindAt(fields: seq<Field>, k: nat)
    requires k < |fields|
    requires forall j | 0 <= j < k :: fields[j].tag != fields[k].tag
    ensures Find(fields, fields[k].tag) == Some(fields[k].value)
  {
    if k > 0 {
      FindAt(fields[1..], k - 1);
    }
  }

  lemma {:induction false} FindNone(fields: seq<Field>, tag: uint16)
    requires forall j | 0 <= j < |fields| :: fields[j].tag != tag
    ensures Find(fields, tag) == None
  {
    if fields != [] {
      FindNone(fields[1..], tag);
    }
  }

  /** As section 2 of TIFF 6.0 wants the entries of a directory. */
  predicate Ascending(fields: seq<Field>) {
    forall k | 0 < k < |fields| :: fields[k - 1].tag < fields[k].tag
  }

  lemma {:induction false} AscendingApart(fields: seq<Field>, i: nat, j: nat)
    requires Ascending(fields) && i < j < |fields|
    ensures fields[i].tag < fields[j].tag
  {
    if i < j - 1 {
      AscendingApart(fields, i, j - 1);
    }
    assert fields[j - 1].tag < fields[j].tag;
  }

  /** Every field is the one a viewer finds under its tag. */
  ghost predicate AllFound(fields: seq<Field>) {
    forall k | 0 <= k < |fields| :: Find(fields, fields[k].tag) == Some(fields[k].value)
  }

  lemma AscendingFound(fields: seq<Field>)
    requires Ascending(fields)
    ensures AllFound(fields)
  {
    hide Find, Ascending;
    forall k | 0 <= k < |fields|
      ensures Find(fields, fields[k].tag) == Some(fields[k].value)
    {
      forall j | 0 <= j < k
        ensures fields[j].tag != fields[k].tag
      {
        AscendingApart(fields, j, k);
      }
      FindAt(fields, k);
    }
  }

  /** The image a reader gets, whatever becomes of the three strings. */
  ghost function Seen(a: Attributes): (image: Image)
    requires Encodable(a)
    ensures a.WellFormed() && ReadImage(Tiff(a)) == Some(image)
    ensures image.main == ReadBacks(MainEntries(a, ExifAt(a), GpsAt(a)), MakerAt(a))
    ensures image.exif == AsFields(ExifEntries(a))
    ensures image.gps == if a.enableGps then Some(AsFields(GpsEntries(a))) else None
    ensures image.thumb
         == if a.HasThumb() then Some((AsFields(ThumbEntries(a, ThumbAt(a))), a.thumbBuf.value)) else None
  {
    hide Tiff, MainEntries, ExifEntries, GpsEntries, ThumbEntries, ReadImage;
    ReadTiff(a);
    ReadImage(Tiff(a)).value
  }

  // ---------------------------------------------------------------------
  // What the tables of the two standards have for the record

  ghost function ExifTable(a: Attributes): (fields: seq<Field>)
    requires a.WellFormed()
    ensures |fields| == 20
  {
    [Field(0x829A, Rationals([a.exposureTime])),
     Field(0x829D, Rationals([a.fnumber])),
     Field(0x8822, Shorts([a.exposureProgram])),
     Field(0x9000, Undefined(a.exifVersion)),
     Field(0x9003, Ascii(a.dateTime)),
     Field(0x9004, Ascii(a.dateTime)),
     Field(0x9201, SRationals([a.shutterSpeed])),
     Field(0x9202, Rationals([a.aperture])),
     Field(0x9203, SRationals([a.brightness])),
     Field(0x9204, SRationals([a.exposureBias])),
     Field(0x9205, Rationals([a.maxAperture])),
     Field(0x9207, Shorts([a.meteringMode])),
     Field(0x9209, Shorts([a.flash])),
     Field(0x920A, Rationals([a.focalLength])),
     Field(0x9286, Undefined([0, 0, 0, 0x49, 0x49, 0x43, 0x53, 0x41] + CString(a.userComment))),
     Field(0xA001, Shorts([a.colorSpace])),
     Field(0xA002, Longs([a.width])),
     Field(0xA003, Longs([a.height])),
     Field(0xA402, Longs([a.exposureMode])),
     Field(0xA403, Longs([a.whiteBalance]))]
  }

  ghost function GpsTable(a: Attributes): (fields: seq<Field>)
    requires a.WellFormed()
    ensures |fields| == if a.gpsProcessingMethod[0] != 0 then 10 else 9
  {
    var name := a.gpsProcessingMethod[..StrLen(a.gpsProcessingMethod)];
    [Field(0, Bytes(a.gpsVersionId)),
     Field(1, Ascii(a.gpsLatitudeRef)),
     Field(2, Rationals(a.gpsLatitude)),
     Field(3, Ascii(a.gpsLongitudeRef)),
     Field(4, Rationals(a.gpsLongitude)),
     Field(5, Bytes([a.gpsAltitudeRef])),
     Field(6, Rationals([a.gpsAltitude])),
     Field(7, Rationals(a.gpsTimestamp))]
    + (if a.gpsProcessingMethod[0] != 0 then
         [Field(0x1B, Undefined([0x41, 0x53, 0x43, 0x49, 0x49, 0, 0, 0] + name))]
       else [])
    + [Field(0x1D, Ascii(a.gpsDatestamp))]
  }

  function ThumbTable(a: Attributes, at: uint32, size: uint32): (fields: seq<Field>)
    ensures |fields| == 9
  {
    [Field(0x0100, Longs([a.widthThumb])),
     Field(0x0101, Longs([a.heightThumb])),
     Field(0x0103, Shorts([a.compressionScheme])),
     Field(0x0112, Shorts([a.orientation])),
     Field(0x011A, Rationals([a.xResolution])),
     Field(0x011B, Rationals([a.yResolution])),
     Field(0x0128, Shorts([a.resolutionUnit])),
     Field(0x0201, Longs([at])),
     Field(0x0202, Longs([size]))]
  }

  /** In the order of the source, with the three strings as they are read. */
  function MainTable(a: Attributes, maker: Value, model: Value, software: Value, exifAt: uint32, gpsAt: uint32):
    (fields: seq<Field>)
    ensures |fields| == if a.enableGps then 13 else 12
  {
    [Field(0x0100, Longs([a.width])),
     Field(0x0101, Longs([a.height])),
     Field(0x010F, maker),
     Field(0x0110, model),
     Field(0x0112, Shorts([a.orientation])),
     Field(0x0131, software),
     Field(0x0132, Ascii(a.dateTime)),
     Field(0x011A, Rationals([a.xResolution])),
     Field(0x011B, Rationals([a.yResolution])),
     Field(0x0128, Shorts([a.resolutionUnit])),
     Field(0x0213, Shorts([a.ycbcrPositioning])),
     Field(0x8769, Longs([exifAt]))]
    + if a.enableGps then [Field(0x8825, Longs([gpsAt]))] else []
  }

  // ---------------------------------------------------------------------
  // What is in the file

  lemma ExifIsTable(a: Attributes)
    requires a.WellFormed()
    ensures AsFields(ExifEntries(a)) == ExifTable(a) && Ascending(ExifTable(a))
  {
    hide Value.Encode, CString;
  }

  /** Every field of the Exif directory is there under its tag, and the tags ascend. */
  lemma ExifByTag(a: Attributes)
    requires Encodable(a)
    ensures Seen(a).exif == ExifTable(a) && AllFound(Seen(a).exif) && Ascending(Seen(a).exif)
  {
    hide AllFound, Ascending, ExifTable, Tiff, Encodable, Attributes.WellFormed, ExifEntries;
    var image := Seen(a);
    ExifIsTable(a);
    AscendingFound(image.exif);
  }

  lemma GpsIsTable(a: Attributes)
    requires a.WellFormed()
    ensures AsFields(GpsEntries(a)) == GpsTable(a) && Ascending(GpsTable(a))
  {
    hide Value.Encode, StrLen;
  }

  lemma GpsByTag(a: Attributes)
    requires Encodable(a)
    ensures var gps := Seen(a).gps;
            if a.enableGps then gps == Some(GpsTable(a)) && AllFound(gps.value) && Ascending(gps.value) else gps == None
  {
    hide AllFound, Ascending, GpsTable, Tiff, Encodable, Attributes.WellFormed, GpsEntries;
    var image := Seen(a);
    GpsIsTable(a);
    AscendingFound(GpsTable(a));
  }

  lemma ThumbIsTable(a: Attributes, thumbAt: uint32)
    requires a.WellFormed() && a.HasThumb()
    ensures var table := ThumbTable(a, thumbAt, |a.thumbBuf.value|);
            AsFields(ThumbEntries(a, thumbAt)) == table && Ascending(table)
  {
    hide Value.Encode;
  }

  lemma ThumbEnd(a: Attributes)
    requires Encodable(a)
    ensures |Tiff(a)| < 0x1_0000_0000
    ensures a.HasThumb() ==> |Tiff(a)| == ThumbAt(a) + |a.thumbBuf.value|
  {
    hide Tiff, ThumbIfdAt;
    TiffParts(a);
  }

  /** The thumbnail is the end of the file, where its directory says. */
  lemma ThumbByTag(a: Attributes)
    requires Encodable(a)
    ensures var thumb := Seen(a).thumb;
            if a.enableThumb && a.thumbBuf.Some? then
              && thumb.Some? && thumb.value.1 == a.thumbBuf.value && |thumb.value.1| <= |Tiff(a)| < 0x1_0000_0000
              && thumb.value.0 == ThumbTable(a, |Tiff(a)| - |thumb.value.1|, |thumb.value.1|)
              && AllFound(thumb.value.0) && Ascending(thumb.value.0)
            else thumb == None
  {
    hide AllFound, Ascending, ThumbTable, Tiff, Attributes.WellFormed, ThumbEntries, ThumbAt, Encodable, AsFields,
         ReadImage;
    var image := Seen(a);
    ThumbEnd(a);
    if a.HasThumb() {
      ThumbIsTable(a, ThumbAt(a));
      AscendingFound(ThumbTable(a, ThumbAt(a), |a.thumbBuf.value|));
    }
  }

  lemma MainIsTable(a: Attributes, exifAt: uint32, gpsAt: uint32, lo: nat)
    requires a.WellFormed()
    ensures var f := ReadBacks(MainEntries(a, exifAt, gpsAt), lo);
            && |f| >= 12 && f == MainTable(a, f[2].value, f[3].value, f[5].value, exifAt, gpsAt)
  {
    hide Value.Encode, CString, OffsetOf;
  }

  /** One of the strings, from the entry at place k. */
  lemma StringRead(es: seq<Entry>, lo: nat, k: nat, tag: uint16, str: seq<byte>, off: nat)
    requires k < |es| && 0 in str && 0 < off < 0x100
    requires es[k] == OutOfLine(tag, Ascii(CString(str))) && OffsetOf(es, lo, k) == off
    ensures ReadBacks(es, lo)[k].value == Ascii(CString(str)) <==> Readable(str, off)
  {
    hide Readable, CString, Faithful, Entry.ReadBack, OffsetOf;
    StringFaithfulIff(tag, str, off);
    ReadBackKeeps(es[k], off);
    ReadBackIff(es[k], off);
  }

  lemma MainStrings(a: Attributes, exifAt: uint32, gpsAt: uint32)
    requires a.WellFormed()
    ensures var f := ReadBacks(MainEntries(a, exifAt, gpsAt), MakerAt(a));
            && |f| >= 12
            && (f[2].value == Ascii(CString(a.maker)) <==> Readable(a.maker, MakerAt(a)))
            && (f[3].value == Ascii(CString(a.model)) <==> Readable(a.model, ModelAt(a)))
            && (f[5].value == Ascii(CString(a.software)) <==> Readable(a.software, SoftwareAt(a)))
  {
    hide Readable, MainEntries, CString, ReadBacks, OffsetOf;
    OthersLarge(a, exifAt, gpsAt);
    StringOffsets(a, exifAt, gpsAt);
    var es := MainEntries(a, exifAt, gpsAt);
    StringRead(es, MakerAt(a), 2, 0x010f, a.maker, MakerAt(a));
    StringRead(es, MakerAt(a), 3, 0x0110, a.model, ModelAt(a));
    StringRead(es, MakerAt(a), 5, 0x0131, a.software, SoftwareAt(a));
  }

  lemma MainFound(a: Attributes, maker: Value, model: Value, software: Value, exifAt: uint32, gpsAt: uint32)
    ensures var f := MainTable(a, maker, model, software, exifAt, gpsAt);
            AllFound(f) && !Ascending(f)
  {
    hide Find;
    var f := MainTable(a, maker, model, software, exifAt, gpsAt);
    forall k | 0 <= k < |f|
      ensures Find(f, f[k].tag) == Some(f[k].value)
    {
      FindAt(f, k);
    }
    assert f[7 - 1].tag > f[7].tag;
  }

  /** Every field of the first directory is there under its tag, a string exactly when it is
      readable; the tags do not ascend, DateTime being before XResolution. */
  lemma MainByTag(a: Attributes)
    requires Encodable(a)
    ensures var main := Seen(a).main;
            && |main| >= 12
            && ExifAt(a) <= GpsAt(a) < 0x1_0000_0000
            && main == MainTable(a, main[2].value, main[3].value, main[5].value, ExifAt(a), GpsAt(a))
            && (main[2].value == Ascii(CString(a.maker)) <==> Readable(a.maker, MakerAt(a)))
            && (main[3].value == Ascii(CString(a.model)) <==> Readable(a.model, ModelAt(a)))
            && (main[5].value == Ascii(CString(a.software)) <==> Readable(a.software, SoftwareAt(a)))
            && AllFound(main) && !Ascending(main)
  {
    hide Find, Ascending, AllFound, Tiff, Readable, MainEntries, CString, ReadBacks, MainTable;
    var f := Seen(a).main;
    TiffParts(a);
    MainIsTable(a, ExifAt(a), GpsAt(a), MakerAt(a));
    MainStrings(a, ExifAt(a), GpsAt(a));
    MainFound(a, f[2].value, f[3].value, f[5].value, ExifAt(a), GpsAt(a));
  }
}
