/** Putting the Exif segment into the encoder's JPEG, and reading it back out. */
module JpegSplice {
  import opened Basics
  import opened TiffFormat
  import opened ExifLayout
  import opened ExifAttributes
  import opened ExifRoundTrip

  /** SOI, the Exif segment, and the encoder's image from behind its own SOI. */
  ghost function Spliced(exif: seq<byte>, jpeg: seq<byte>): (s: seq<byte>)
    requires |jpeg| >= 2
    ensures |s| == |exif| + |jpeg|
  {
    [0xff, 0xd8] + exif + jpeg[2..]
  }

  /** The buffer handed to the application: the image is copied behind room for the Exif
      data, and the two bytes of its SOI are overwritten by the end of the Exif data. */
  method ComposePicture(exifHeap: array<byte>, exifSize: nat, image: array<byte>, jpegSize: nat)
    returns (pmem: array<byte>)
    requires exifSize <= exifHeap.Length
    requires 2 <= jpegSize <= image.Length
    ensures fresh(pmem)
    ensures pmem[..] == Spliced(exifHeap[..exifSize], image[..jpegSize])
  {
    pmem := new byte[jpegSize + exifSize];
    forall i | 0 <= i < jpegSize {
      pmem[exifSize + i] := image[i];
    }
    assert forall i | 2 <= i < jpegSize :: pmem[exifSize + i] == image[i];
    pmem[0] := 0xff;
    pmem[1] := 0xd8;
    forall i | 0 <= i < exifSize {
      pmem[2 + i] := exifHeap[i];
    }
    ghost var want := Spliced(exifHeap[..exifSize], image[..jpegSize]);
    forall i | 0 <= i < pmem.Length
      ensures pmem[i] == want[i]
    {
      if i >= 2 + exifSize {
        assert pmem[exifSize + (i - exifSize)] == image[i - exifSize];
      }
    }
  }

  // ---------------------------------------------------------------------
  // Reading it back, as in section B.1.1.4 of ITU-T T.81

  function FromBe16(s: seq<byte>): (n: uint16)
    requires |s| == 2
  {
    0x100 * s[0] as int + s[1] as int
  }

  /** The marker behind the segment whose marker is at `at`. */
  function NextMarker(s: seq<byte>, at: nat): nat
    requires at + 4 <= |s|
  {
    at + 2 + FromBe16(s[at + 2..at + 4])
  }

  /** The Exif image of a JPEG whose first segment is an Exif APP1 segment. */
  function ReadPicture(s: seq<byte>): Option<Image> {
    if |s| < 12 || s[..4] != [0xff, 0xd8, 0xff, 0xe1] || s[6..12] != [0x45, 0x78, 0x69, 0x66, 0, 0] then None
    else
      var end := NextMarker(s, 2);
      if end < 12 || end > |s| then None else ReadImage(s[12..end])
  }

  lemma App1Parts(a: Attributes, jpeg: seq<byte>)
    requires Encodable(a) && |jpeg| >= 2
    ensures var s, size := Spliced(App1(a), jpeg), 10 + TiffSize(a);
            && |App1(a)| == size >= 18
            && s[..2] == [0xff, 0xd8]
            && s[2..6] == App1Head(size)
            && s[6..12] == EXIF_ID
            && s[12..2 + size] == Tiff(a)
            && s[2 + size..] == jpeg[2..]
  {
    hide Tiff, App1Head, TiffSize, Encodable;
    TiffLength(a);
    SixParts([0xff, 0xd8], App1Head(10 + TiffSize(a)), EXIF_ID, Tiff(a), jpeg[2..]);
  }

  lemma TiffLength(a: Attributes)
    requires Encodable(a)
    ensures a.WellFormed() && |Tiff(a)| == TiffSize(a) > 8
  {
    hide Tiff, TiffSize;
    TiffParts(a);
  }

  lemma SixParts(a: seq<byte>, b: seq<byte>, c: seq<byte>, d: seq<byte>, e: seq<byte>)
    ensures var s := a + (b + c + d) + e;
            var i, j, k, l := |a|, |a| + |b|, |a| + |b| + |c|, |a| + |b| + |c| + |d|;
            s[..i] == a && s[i..j] == b && s[j..k] == c && s[k..l] == d && s[l..] == e
  {
    var s := a + (b + c + d) + e;
    assert s == a + b + c + d + e;
    FiveParts(a, b, c, d, e);
  }

  lemma HeadLength(size: nat)
    requires size >= 2
    ensures FromBe16(App1Head(size)[2..4]) == (size - 2) % 0x1_0000
  {
    var n := size - 2;
    assert n % 0x1_0000 == 0x100 * (n / 0x100 % 0x100) + n % 0x100;
  }

  /** Skipping the Exif segment lands on the encoder's first marker behind SOI exactly
      when the length of the segment fits its 16-bit field. */
  lemma SkippingLandsIff(a: Attributes, jpeg: seq<byte>)
    requires Encodable(a) && |jpeg| >= 2
    ensures var s := Spliced(App1(a), jpeg);
            && s[2 + |App1(a)|..] == jpeg[2..]
            && (NextMarker(s, 2) == 2 + |App1(a)| <==> 10 + TiffSize(a) < 0x1_0002)
  {
    hide Tiff, App1, App1Head, TiffSize, Spliced;
    App1Parts(a, jpeg);
    HeadLength(10 + TiffSize(a));
    var s := Spliced(App1(a), jpeg);
    assert s[4..6] == s[2..6][2..4];
  }

  lemma PictureReads(a: Attributes, jpeg: seq<byte>)
    requires Encodable(a) && |jpeg| >= 2
    ensures var s := Spliced(App1(a), jpeg);
            && s[..4] == [0xff, 0xd8, 0xff, 0xe1] && s[6..12] == [0x45, 0x78, 0x69, 0x66, 0, 0]
            && |s| >= 12 + TiffSize(a) && s[12..12 + TiffSize(a)] == Tiff(a)
            && NextMarker(s, 2) == 4 + (8 + TiffSize(a)) % 0x1_0000
  {
    hide Tiff, App1, TiffSize, Spliced;
    App1Parts(a, jpeg);
    HeadLength(10 + TiffSize(a));
    var s := Spliced(App1(a), jpeg);
    assert s[..4] == s[..2] + s[2..6][..2];
    assert s[4..6] == s[2..6][2..4];
  }

  /** From attribute record to picture and back, for segments of any size: the record is
      recovered exactly when its strings are readable and the length fits its field. */
  lemma PictureRoundTripIff(a: Attributes, jpeg: seq<byte>)
    requires Encodable(a) && |jpeg| >= 2
    ensures ReadPicture(Spliced(App1(a), jpeg)) == Some(Expected(a))
            <==> 10 + TiffSize(a) < 0x1_0002 && StringsReadable(a)
  {
    hide Tiff, App1, TiffSize, Spliced, ReadImage, Expected, StringsReadable, NextMarker;
    PictureReads(a, jpeg);
    var s := Spliced(App1(a), jpeg);
    var end := NextMarker(s, 2);
    if 10 + TiffSize(a) < 0x1_0002 {
      RoundTripIff(a);
    } else if 12 <= end {
      SmallWithoutThumb(a);
      ShortNotRead(a, s[12..end]);
    }
  }

  // ---------------------------------------------------------------------
  // Segments too large for their length

  /** A TIFF block that ends before the thumbnail does cannot be read to the end. */
  lemma ShortNotRead(a: Attributes, t: seq<byte>)
    requires Encodable(a) && a.HasThumb() && |t| < TiffSize(a)
    ensures ReadImage(t) != Some(Expected(a))
  {
    hide ThumbEntries, ThumbIfdAt, ReadDirectory, MainEntries, ExifEntries, GpsEntries, LookupLong;
    ThumbEntriesLarge(a, ThumbAt(a));
    LargeIsFaithful(ThumbEntries(a, ThumbAt(a)), 0);
    ThumbPointers(a, 0, ThumbAt(a));
  }

  lemma {:induction false} DataBound(es: seq<Entry>, most: nat)
    requires forall k | 0 <= k < |es| :: |es[k].Data()| <= most
    ensures |DataBytes(es)| <= |es| * most
  {
    hide Entry.Data;
    if es != [] {
      var front := es[..|es| - 1];
      DataBound(front, most);
      assert |es| * most == |front| * most + most;
    }
  }

  lemma EntriesSmall(a: Attributes)
    requires a.WellFormed()
    ensures |DataBytes(MainFixed(a))| <= 11 * 158
    ensures |DataBytes(ExifEntries(a))| <= 20 * 158
    ensures |DataBytes(GpsEntries(a))| <= |GpsEntries(a)| * 158
  {
    hide Value.Encode;
    DataBound(MainFixed(a), 158);
    DataBound(ExifEntries(a), 158);
    DataBound(GpsEntries(a), 158);
  }

  lemma SmallWithoutThumb(a: Attributes)
    requires Encodable(a)
    ensures a.WellFormed() && (10 + TiffSize(a) >= 0x1_0002 ==> a.HasThumb())
  {
    hide MainFixed, ExifEntries, GpsEntries, DataBytes;
    EntriesSmall(a);
  }
}
