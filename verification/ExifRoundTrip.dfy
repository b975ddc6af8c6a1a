/** Reading back the Exif block: a TIFF reader that follows the pointers recovers the
    attribute record, exactly when the three free-form strings are readable. */
module ExifRoundTrip {
  import opened Basics
  import opened TiffFormat
  import opened ExifLayout
  import opened ExifAttributes

  /** The record as a reader should see it. */
  ghost function Expected(a: Attributes): Image
    requires Encodable(a)
  {
    Image(AsFields(MainEntries(a, ExifAt(a), GpsAt(a))),
          AsFields(ExifEntries(a)),
          if a.enableGps then Some(AsFields(GpsEntries(a))) else None,
          if a.HasThumb() then Some((AsFields(ThumbEntries(a, ThumbAt(a))), a.thumbBuf.value)) else None)
  }

  /** A string stored out of line at an offset below 256 is readable when it has at least
      four characters, or when its only character happens to equal the offset. */
  predicate Readable(s: seq<byte>, off: nat) {
    StrLen(s) >= 4 || (StrLen(s) == 1 && s[0] == off)
  }

  function MakerAt(a: Attributes): nat {
    8 + TableSize(MainCount(a))
  }

  function ModelAt(a: Attributes): nat {
    MakerAt(a) + StrLen(a.maker) + 1
  }

  function SoftwareAt(a: Attributes): nat {
    ModelAt(a) + StrLen(a.model) + 1
  }

  predicate StringsReadable(a: Attributes) {
    && Readable(a.maker, MakerAt(a))
    && Readable(a.model, ModelAt(a))
    && Readable(a.software, SoftwareAt(a))
  }

  // ---------------------------------------------------------------------
  // Looking up the pointers

  lemma {:induction false} LookupFirst(fields: seq<Field>, tag: uint16, k: nat, n: uint32)
    requires k < |fields|
    requires fields[k] == Field(tag, Longs([n]))
    requires forall j | 0 <= j < k :: fields[j].tag != tag
    ensures LookupLong(fields, tag) == Some(n)
  {
    if k > 0 {
      LookupFirst(fields[1..], tag, k - 1, n);
    }
  }

  lemma {:induction false} LookupAbsent(fields: seq<Field>, tag: uint16)
    requires forall j | 0 <= j < |fields| :: fields[j].tag != tag
    ensures LookupLong(fields, tag) == None
  {
    if fields != [] {
      LookupAbsent(fields[1..], tag);
    }
  }

  /** Reading back never changes a tag, and never changes a value kept in its entry. */
  lemma ReadBackKeeps(e: Entry, off: nat)
    ensures e.ReadBack(off).tag == e.tag
    ensures !e.outOfLine ==> e.ReadBack(off) == e.AsField()
  {
  }

  lemma MainPointers(a: Attributes, lo: nat, exifAt: uint32, gpsAt: uint32)
    requires a.WellFormed()
    ensures var fields := ReadBacks(MainEntries(a, exifAt, gpsAt), lo);
            && LookupLong(fields, TAG_EXIF_POINTER) == Some(exifAt)
            && LookupLong(fields, TAG_GPS_POINTER) == if a.enableGps then Some(gpsAt) else None
  {
    hide Entry.ReadBack, OffsetOf;
    var es := MainEntries(a, exifAt, gpsAt);
    var fields := ReadBacks(es, lo);
    forall k | 0 <= k < |es|
      ensures fields[k].tag == es[k].tag
      ensures !es[k].outOfLine ==> fields[k] == es[k].AsField()
    {
      ReadBackKeeps(es[k], OffsetOf(es, lo, k));
    }
    LookupFirst(fields, TAG_EXIF_POINTER, 11, exifAt);
    if a.enableGps {
      LookupFirst(fields, TAG_GPS_POINTER, 12, gpsAt);
    } else {
      LookupAbsent(fields, TAG_GPS_POINTER);
    }
  }

  lemma ThumbPointers(a: Attributes, lo: nat, thumbAt: uint32)
    requires a.WellFormed() && a.HasThumb()
    ensures var fields := ReadBacks(ThumbEntries(a, thumbAt), lo);
            && LookupLong(fields, TAG_THUMB_OFFSET) == Some(thumbAt)
            && LookupLong(fields, TAG_THUMB_LENGTH) == Some(|a.thumbBuf.value|)
  {
    hide Entry.ReadBack, OffsetOf;
    var es := ThumbEntries(a, thumbAt);
    var fields := ReadBacks(es, lo);
    forall k | 0 <= k < |es|
      ensures fields[k].tag == es[k].tag
      ensures !es[k].outOfLine ==> fields[k] == es[k].AsField()
    {
      ReadBackKeeps(es[k], OffsetOf(es, lo, k));
    }
    LookupFirst(fields, TAG_THUMB_OFFSET, 7, thumbAt);
    LookupFirst(fields, TAG_THUMB_LENGTH, 8, |a.thumbBuf.value|);
  }

  // ---------------------------------------------------------------------
  // Which entries are faithful

  ghost predicate AllLarge(es: seq<Entry>) {
    forall k | 0 <= k < |es| :: es[k].outOfLine ==> es[k].value.Size() > 4
  }

  lemma LargeIsFaithful(es: seq<Entry>, lo: nat)
    requires AllLarge(es)
    ensures ReadBacks(es, lo) == AsFields(es)
  {
    ReadBacksIff(es, lo);
  }

  lemma ExifEntriesLarge(a: Attributes)
    requires a.WellFormed()
    ensures AllLarge(ExifEntries(a))
  {
    hide Value.Encode;
  }

  lemma GpsEntriesLarge(a: Attributes)
    requires a.WellFormed()
    ensures AllLarge(GpsEntries(a))
  {
    hide Value.Encode;
  }

  lemma ThumbEntriesLarge(a: Attributes, thumbAt: uint32)
    requires a.WellFormed() && a.HasThumb()
    ensures AllLarge(ThumbEntries(a, thumbAt))
  {
    hide Value.Encode;
  }

  lemma StringFaithfulIff(tag: uint16, s: seq<byte>, off: nat)
    requires 0 in s
    requires 0 < off < 0x100
    ensures Faithful(OutOfLine(tag, Ascii(CString(s))), off) <==> Readable(s, off)
  {
    hide CString, Readable, StrLen, Le32;
    var n := StrLen(s);
    if n < 4 {
      ShortStringFaithfulIff(s, off);
    } else {
      LongStringReadable(s, off);
    }
  }

  lemma LongStringReadable(s: seq<byte>, off: nat)
    requires 4 <= StrLen(s) < |s|
    ensures Readable(s, off) && |CString(s)| > 4
  {
  }

  /** A short string equals the leading bytes of its offset only when it is the offset. */
  lemma ShortStringFaithfulIff(s: seq<byte>, off: nat)
    requires StrLen(s) < 4 && StrLen(s) < |s| && 0 < off < 0x100
    ensures Le32(off)[..|CString(s)|] == CString(s) <==> Readable(s, off)
  {
    var c, n := CString(s), StrLen(s);
    var head := Le32(off)[..n + 1];
    assert Le32(off) == [off, 0, 0, 0];
    assert head[0] == off && c[n] == 0 && c[0] == s[0];
    if n == 1 {
      assert c == [s[0], 0] && head == [off, 0];
    } else if n > 1 {
      assert head[1] == 0 && c[1] == s[1];
    }
  }

  /** The offsets of the three strings, from the sizes of the entries before them. */
  lemma StringOffsets(a: Attributes, exifAt: uint32, gpsAt: uint32)
    requires a.WellFormed()
    ensures var es := MainEntries(a, exifAt, gpsAt);
            && OffsetOf(es, MakerAt(a), 2) == MakerAt(a)
            && OffsetOf(es, MakerAt(a), 3) == ModelAt(a)
            && OffsetOf(es, MakerAt(a), 5) == SoftwareAt(a)
  {
    hide DataBytes;
    var es := MainEntries(a, exifAt, gpsAt);
    assert es[..3] == es[..2] + [es[2]] && es[..5] == es[..3] + [es[3]] + [es[4]];
    DataBytesInline(es[..2]);
    DataBytesSnoc(es[..2], es[2]);
    DataBytesSnoc(es[..3], es[3]);
    DataBytesSnoc(es[..3] + [es[3]], es[4]);
  }

  /** Every main entry other than the three strings takes more than 4 bytes or is inline. */
  lemma OthersLarge(a: Attributes, exifAt: uint32, gpsAt: uint32)
    requires a.WellFormed()
    ensures var es := MainEntries(a, exifAt, gpsAt);
            && es[2] == OutOfLine(0x010f, Ascii(CString(a.maker)))
            && es[3] == OutOfLine(0x0110, Ascii(CString(a.model)))
            && es[5] == OutOfLine(0x0131, Ascii(CString(a.software)))
            && forall k | 0 <= k < |es| && k != 2 && k != 3 && k != 5 ::
                 es[k].outOfLine ==> es[k].value.Size() > 4
  {
    hide Value.Encode;
  }

  lemma MainFaithfulIff(a: Attributes, exifAt: uint32, gpsAt: uint32)
    requires a.WellFormed()
    ensures ReadBacks(MainEntries(a, exifAt, gpsAt), MakerAt(a)) == AsFields(MainEntries(a, exifAt, gpsAt))
            <==> StringsReadable(a)
  {
    hide Value.Encode, DataBytes, OffsetOf, Readable, Le32, MainEntries, CString;
    var es, lo := MainEntries(a, exifAt, gpsAt), MakerAt(a);
    OthersLarge(a, exifAt, gpsAt);
    ReadBacksIff(es, lo);
    StringOffsets(a, exifAt, gpsAt);
    StringFaithfulIff(0x010f, a.maker, MakerAt(a));
    StringFaithfulIff(0x0110, a.model, ModelAt(a));
    StringFaithfulIff(0x0131, a.software, SoftwareAt(a));
    forall k | 0 <= k < |es| && k != 2 && k != 3 && k != 5
      ensures Faithful(es[k], OffsetOf(es, lo, k))
    {
    }
  }

  // ---------------------------------------------------------------------
  // The parts of the block

  lemma FiveParts(a: seq<byte>, b: seq<byte>, c: seq<byte>, d: seq<byte>, e: seq<byte>)
    ensures var s := a + b + c + d + e;
            var i, j, k, l := |a|, |a| + |b|, |a| + |b| + |c|, |a| + |b| + |c| + |d|;
            s[..i] == a && s[i..j] == b && s[j..k] == c && s[k..l] == d && s[l..] == e
  {
  }

  lemma TiffParts(a: Attributes)
    requires Encodable(a)
    ensures 8 < ExifAt(a) < GpsAt(a) <= ThumbIfdAt(a) <= TiffSize(a)
    ensures |Tiff(a)| == TiffSize(a)
    ensures Tiff(a)[..8] == TIFF_HEADER
    ensures Tiff(a)[8..ExifAt(a)] == MainBlock(a)
    ensures Tiff(a)[ExifAt(a)..GpsAt(a)] == ExifBlock(a)
    ensures Tiff(a)[GpsAt(a)..ThumbIfdAt(a)] == GpsBlock(a)
    ensures Tiff(a)[ThumbIfdAt(a)..] == ThumbBlock(a)
  {
    hide Block, DataBytes, MainEntries, ExifEntries, GpsEntries, ThumbEntries;
    MainEntriesValid(a, ExifAt(a), GpsAt(a));
    MainDataBytes(a, ExifAt(a), GpsAt(a));
    ExifEntriesValid(a);
    if a.enableGps {
      GpsEntriesValid(a);
    }
    if a.HasThumb() {
      ThumbEntriesValid(a, ThumbAt(a));
      ThumbDataSize(a, ThumbAt(a));
    }
    FiveParts(TIFF_HEADER, MainBlock(a), ExifBlock(a), GpsBlock(a), ThumbBlock(a));
  }

  /** The file says that its numbers are in little-endian order, as they are, and that its first
      directory is right behind the header. */
  lemma HeaderReads(a: Attributes)
    requires Encodable(a)
    ensures |Tiff(a)| >= 8 && Tiff(a)[..8] == [0x49, 0x49, 42, 0, 8, 0, 0, 0]
    ensures ReadOrder(Tiff(a)) == Some(LittleEndian)
    ensures LittleEndian.U16(Tiff(a)[2..4]) == 42 && LittleEndian.U32(Tiff(a)[4..8]) == 8
    ensures ReadImage(Tiff(a)) == ReadFrom(LittleEndian, Tiff(a), 8)
  {
    hide Tiff, ReadFrom;
    TiffParts(a);
    var t := Tiff(a);
    assert t[..8][0] == t[0] && t[..8][1] == t[1];
    assert t[..8][2..4] == t[2..4] && t[..8][4..8] == t[4..8];
    assert t[2..4] == [42, 0] && t[4..8] == [8, 0, 0, 0];
  }

  lemma ReadMain(a: Attributes)
    requires Encodable(a)
    ensures ReadDirectory(LittleEndian, Tiff(a), 8)
         == Some(Directory(ReadBacks(MainEntries(a, ExifAt(a), GpsAt(a)), MakerAt(a)),
                           if a.HasThumb() then ThumbIfdAt(a) else 0))
  {
    hide Block, DataBytes, Tiff, MainEntries, ReadDirectory;
    TiffParts(a);
    var es := MainEntries(a, ExifAt(a), GpsAt(a));
    MainEntriesValid(a, ExifAt(a), GpsAt(a));
    MainDataBytes(a, ExifAt(a), GpsAt(a));
    ReadBlock(Tiff(a), 8, es, if a.HasThumb() then ThumbIfdAt(a) else 0);
  }

  lemma ReadExif(a: Attributes)
    requires Encodable(a)
    ensures ReadDirectory(LittleEndian, Tiff(a), ExifAt(a)) == Some(Directory(AsFields(ExifEntries(a)), 0))
  {
    hide Block, DataBytes, Tiff, ExifEntries, ReadDirectory;
    TiffParts(a);
    ExifEntriesValid(a);
    ReadBlock(Tiff(a), ExifAt(a), ExifEntries(a), 0);
    ExifEntriesLarge(a);
    LargeIsFaithful(ExifEntries(a), ExifAt(a) + TableSize(20));
  }

  lemma ReadGps(a: Attributes)
    requires Encodable(a) && a.enableGps
    ensures ReadDirectory(LittleEndian, Tiff(a), GpsAt(a)) == Some(Directory(AsFields(GpsEntries(a)), 0))
  {
    hide Block, DataBytes, Tiff, GpsEntries, ReadDirectory;
    TiffParts(a);
    GpsEntriesValid(a);
    ReadBlock(Tiff(a), GpsAt(a), GpsEntries(a), 0);
    GpsEntriesLarge(a);
    LargeIsFaithful(GpsEntries(a), GpsAt(a) + TableSize(|GpsEntries(a)|));
  }

  /** The two parts of the thumbnail block, where they lie. */
  lemma ThumbSlices(a: Attributes)
    requires Encodable(a) && a.HasThumb()
    ensures var t, at, es, thumb := Tiff(a), ThumbIfdAt(a), ThumbEntries(a, ThumbAt(a)), a.thumbBuf.value;
            && Fits(es, at) && ThumbAt(a) == at + BlockSize(es)
            && |t| == ThumbAt(a) + |thumb| < 0x1_0000_0000
            && t[at..at + BlockSize(es)] == Block(es, at, 0)
            && t[ThumbAt(a)..ThumbAt(a) + |thumb|] == thumb
  {
    hide Block, DataBytes, Tiff, ThumbEntries;
    TiffParts(a);
    var t, at, es, thumb := Tiff(a), ThumbIfdAt(a), ThumbEntries(a, ThumbAt(a)), a.thumbBuf.value;
    ThumbEntriesValid(a, ThumbAt(a));
    ThumbDataSize(a, ThumbAt(a));
    var b := Block(es, at, 0);
    assert ThumbBlock(a) == b + thumb;
    SubSlice(t, at, b + thumb, 0, |b|);
    SubSlice(t, at, b + thumb, |b|, |b| + |thumb|);
    assert (b + thumb)[..|b|] == b && (b + thumb)[|b|..|b| + |thumb|] == thumb;
  }

  lemma ReadThumbnail(a: Attributes)
    requires Encodable(a) && a.HasThumb()
    ensures ReadThumb(LittleEndian, Tiff(a), ThumbIfdAt(a))
         == Some((AsFields(ThumbEntries(a, ThumbAt(a))), a.thumbBuf.value))
  {
    hide Block, BlockSize, DataBytes, Tiff, ThumbEntries, ReadDirectory, ReadBacks, AsFields, LookupLong;
    var t, at, es := Tiff(a), ThumbIfdAt(a), ThumbEntries(a, ThumbAt(a));
    ThumbSlices(a);
    ReadBlock(t, at, es, 0);
    ThumbEntriesLarge(a, ThumbAt(a));
    LargeIsFaithful(es, at + TableSize(9));
    ThumbPointers(a, at + TableSize(9), ThumbAt(a));
  }

  /** What a reader of the encoder's TIFF block finds, for every attribute record. */
  lemma ReadTiff(a: Attributes)
    requires Encodable(a)
    ensures ReadImage(Tiff(a))
         == Some(Expected(a).(main := ReadBacks(MainEntries(a, ExifAt(a), GpsAt(a)), MakerAt(a))))
  {
    hide Tiff, MainEntries, ExifEntries, GpsEntries, ThumbEntries, ReadDirectory, ReadThumb, ReadImage;
    TiffParts(a);
    HeaderReads(a);
    ReadMain(a);
    MainPointers(a, MakerAt(a), ExifAt(a), GpsAt(a));
    ReadExif(a);
    if a.enableGps {
      ReadGps(a);
    }
    if a.HasThumb() {
      ReadThumbnail(a);
    }
  }

  /** The round trip, with its exact condition. */
  lemma RoundTripIff(a: Attributes)
    requires Encodable(a)
    ensures ReadImage(Tiff(a)) == Some(Expected(a)) <==> StringsReadable(a)
  {
    hide Tiff, MainEntries, ExifEntries, GpsEntries, ThumbEntries, ReadImage, StringsReadable;
    ReadTiff(a);
    MainFaithfulIff(a, ExifAt(a), GpsAt(a));
  }

  // ---------------------------------------------------------------------
  // Using the same record twice

  /** The comment code starts with a zero, so strlen finds no text behind it: encoding a
      record that was encoded before stores an empty comment, whatever the first text was. */
  lemma SecondPictureLosesComment(a: Attributes)
    requires a.WellFormed()
    ensures var a' := a.(userComment := PrefixedComment(a.userComment));
            && a'.WellFormed()
            && ExifEntries(a')[14] == OutOfLine(0x9286, Undefined(COMMENT_CODE + [0]))
            && (ExifEntries(a')[14] == ExifEntries(a)[14] <==> a.userComment[0] == 0)
  {
    hide Value.Encode;
    var c := PrefixedComment(a.userComment);
    assert c[0] == 0;
    assert CString(c) == [0];
    var text := CString(a.userComment);
    assert (COMMENT_CODE + text)[8..] == text && (COMMENT_CODE + [0])[8..] == [0];
    if a.userComment[0] == 0 {
      assert text == [0];
    } else {
      assert text[0] != 0;
    }
  }
}
