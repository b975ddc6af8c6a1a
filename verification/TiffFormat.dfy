/** The part of TIFF 6.0 section 2 and Exif 2.2 section 4.6 that camera files use:
    typed field values, their byte encoding, and a reader of image file directories.
    Nothing in this module knows how the camera's encoder lays out its output. */
module TiffFormat {
  import opened Basics

  datatype Rational = Rational(num: uint32, den: uint32)
  datatype SRational = SRational(num: int32, den: int32)

  datatype Value =
    | Bytes(bytes: seq<byte>)
    | Ascii(chars: seq<byte>)
    | Shorts(shorts: seq<uint16>)
    | Longs(longs: seq<uint32>)
    | Rationals(rationals: seq<Rational>)
    | Undefined(raw: seq<byte>)
    | SRationals(srationals: seq<SRational>)
  {
    function TypeCode(): uint16 {
      match this
      case Bytes(_) => 1
      case Ascii(_) => 2
      case Shorts(_) => 3
      case Longs(_) => 4
      case Rationals(_) => 5
      case Undefined(_) => 7
      case SRationals(_) => 10
    }

    function Count(): nat {
      match this
      case Bytes(s) => |s|
      case Ascii(s) => |s|
      case Shorts(s) => |s|
      case Longs(s) => |s|
      case Rationals(s) => |s|
      case Undefined(s) => |s|
      case SRationals(s) => |s|
    }

    function Size(): nat {
      UnitSize(TypeCode()) * Count()
    }

    function Encode(): (data: seq<byte>)
      ensures |data| == Size()
    {
      match this
      case Bytes(s) => s
      case Ascii(s) => s
      case Shorts(s) => EncodeShorts(s)
      case Longs(s) => EncodeLongs(s)
      case Rationals(s) => EncodeRationals(s)
      case Undefined(s) => s
      case SRationals(s) => EncodeSRationals(s)
    }
  }

  /** Bytes per value of a field type; 0 for the types this reader does not know. */
  function UnitSize(typ: uint16): nat {
    if typ == 1 || typ == 2 || typ == 7 then 1
    else if typ == 3 then 2
    else if typ == 4 then 4
    else if typ == 5 || typ == 10 then 8
    else 0
  }

  function EncodeShorts(s: seq<uint16>): (data: seq<byte>)
    ensures |data| == 2 * |s|
  {
    if s == [] then [] else Le16(s[0]) + EncodeShorts(s[1..])
  }

  function EncodeLongs(s: seq<uint32>): (data: seq<byte>)
    ensures |data| == 4 * |s|
  {
    if s == [] then [] else Le32(s[0]) + EncodeLongs(s[1..])
  }

  function EncodeRationals(s: seq<Rational>): (data: seq<byte>)
    ensures |data| == 8 * |s|
  {
    if s == [] then [] else Le32(s[0].num) + Le32(s[0].den) + EncodeRationals(s[1..])
  }

  function EncodeSRationals(s: seq<SRational>): (data: seq<byte>)
    ensures |data| == 8 * |s|
  {
    if s == [] then []
    else Le32(Unsigned(s[0].num)) + Le32(Unsigned(s[0].den)) + EncodeSRationals(s[1..])
  }

  /** How a file keeps its numbers. */
  datatype ByteOrder = LittleEndian | BigEndian {

    function U16(s: seq<byte>): uint16
      requires |s| == 2
    {
      if LittleEndian? then FromLe16(s) else FromLe16([s[1], s[0]])
    }

    function U32(s: seq<byte>): uint32
      requires |s| == 4
    {
      if LittleEndian? then FromLe32(s) else FromLe32([s[3], s[2], s[1], s[0]])
    }
  }

  function DecodeShorts(o: ByteOrder, data: seq<byte>): seq<uint16> {
    if |data| < 2 then [] else [o.U16(data[..2])] + DecodeShorts(o, data[2..])
  }

  function DecodeLongs(o: ByteOrder, data: seq<byte>): seq<uint32> {
    if |data| < 4 then [] else [o.U32(data[..4])] + DecodeLongs(o, data[4..])
  }

  function DecodeRationals(o: ByteOrder, data: seq<byte>): seq<Rational> {
    if |data| < 8 then []
    else [Rational(o.U32(data[..4]), o.U32(data[4..8]))] + DecodeRationals(o, data[8..])
  }

  function DecodeSRationals(o: ByteOrder, data: seq<byte>): seq<SRational> {
    if |data| < 8 then []
    else [SRational(Signed(o.U32(data[..4])), Signed(o.U32(data[4..8])))] + DecodeSRationals(o, data[8..])
  }

  function Decode(o: ByteOrder, typ: uint16, data: seq<byte>): Option<Value> {
    if typ == 1 then Some(Bytes(data))
    else if typ == 2 then Some(Ascii(data))
    else if typ == 3 then Some(Shorts(DecodeShorts(o, data)))
    else if typ == 4 then Some(Longs(DecodeLongs(o, data)))
    else if typ == 5 then Some(Rationals(DecodeRationals(o, data)))
    else if typ == 7 then Some(Undefined(data))
    else if typ == 10 then Some(SRationals(DecodeSRationals(o, data)))
    else None
  }

  lemma {:induction false} DecodeEncodeShorts(s: seq<uint16>)
    ensures DecodeShorts(LittleEndian, EncodeShorts(s)) == s
  {
    if s != [] {
      var data := EncodeShorts(s);
      assert data[..2] == Le16(s[0]) && data[2..] == EncodeShorts(s[1..]);
      Le16Inverse(s[0]);
      DecodeEncodeShorts(s[1..]);
    }
  }

  lemma {:induction false} DecodeEncodeLongs(s: seq<uint32>)
    ensures DecodeLongs(LittleEndian, EncodeLongs(s)) == s
  {
    if s != [] {
      var data := EncodeLongs(s);
      assert data[..4] == Le32(s[0]) && data[4..] == EncodeLongs(s[1..]);
      Le32Inverse(s[0]);
      DecodeEncodeLongs(s[1..]);
    }
  }

  lemma {:induction false} DecodeEncodeRationals(s: seq<Rational>)
    ensures DecodeRationals(LittleEndian, EncodeRationals(s)) == s
  {
    if s != [] {
      var data := EncodeRationals(s);
      assert data[..4] == Le32(s[0].num) && data[4..8] == Le32(s[0].den);
      assert data[8..] == EncodeRationals(s[1..]);
      Le32Inverse(s[0].num);
      Le32Inverse(s[0].den);
      DecodeEncodeRationals(s[1..]);
    }
  }

  lemma {:induction false} DecodeEncodeSRationals(s: seq<SRational>)
    ensures DecodeSRationals(LittleEndian, EncodeSRationals(s)) == s
  {
    if s != [] {
      var data := EncodeSRationals(s);
      var num, den := Unsigned(s[0].num), Unsigned(s[0].den);
      assert data[..4] == Le32(num) && data[4..8] == Le32(den);
      assert data[8..] == EncodeSRationals(s[1..]);
      Le32Inverse(num);
      Le32Inverse(den);
      DecodeEncodeSRationals(s[1..]);
    }
  }

  /** Decoding in little-endian order undoes encoding, for every type the encoder emits. */
  lemma DecodeEncode(v: Value)
    ensures Decode(LittleEndian, v.TypeCode(), v.Encode()) == Some(v)
  {
    match v
    case Bytes(_) =>
    case Ascii(_) =>
    case Shorts(s) => DecodeEncodeShorts(s);
    case Longs(s) => DecodeEncodeLongs(s);
    case Rationals(s) => DecodeEncodeRationals(s);
    case Undefined(_) =>
    case SRationals(s) => DecodeEncodeSRationals(s);
  }

  // ---------------------------------------------------------------------
  // The reader

  datatype Field = Field(tag: uint16, value: Value)

  datatype Directory = Directory(fields: seq<Field>, next: uint32)

  /** One 12-byte directory entry: the value is in the entry when it takes at most
      4 bytes, and at the offset held there otherwise. */
  function ReadField(o: ByteOrder, t: seq<byte>, at: nat): Option<Field>
    requires at + 12 <= |t|
  {
    var typ := o.U16(t[at + 2..at + 4]);
    var size := UnitSize(typ) * o.U32(t[at + 4..at + 8]);
    var pos := if size <= 4 then at + 8 else o.U32(t[at + 8..at + 12]);
    if pos + size > |t| then None
    else
      match Decode(o, typ, t[pos..pos + size])
      case None => None
      case Some(v) => Some(Field(o.U16(t[at..at + 2]), v))
  }

  function ReadFields(o: ByteOrder, t: seq<byte>, at: nat, n: nat): Option<seq<Field>>
    requires at + 12 * n <= |t|
    decreases n
  {
    if n == 0 then Some([])
    else
      var first := ReadField(o, t, at);
      var rest := ReadFields(o, t, at + 12, n - 1);
      if first.None? || rest.None? then None else Some([first.value] + rest.value)
  }

  /** A whole image file directory: entry count, entries, offset of the next one. */
  function ReadDirectory(o: ByteOrder, t: seq<byte>, at: nat): Option<Directory> {
    if at + 2 > |t| then None
    else
      var n := o.U16(t[at..at + 2]);
      var end := at + 2 + 12 * n;
      if end + 4 > |t| then None
      else
        var fields := ReadFields(o, t, at + 2, n);
        if fields.None? then None
        else Some(Directory(fields.value, o.U32(t[end..end + 4])))
  }

  /** The single LONG stored under a tag, as pointers to directories are. */
  function LookupLong(fields: seq<Field>, tag: uint16): Option<uint32> {
    if fields == [] then None
    else if fields[0].tag == tag then
      match fields[0].value
      case Longs(ls) => if |ls| == 1 then Some(ls[0]) else None
      case _ => None
    else LookupLong(fields[1..], tag)
  }

  const TAG_EXIF_POINTER: uint16 := 0x8769
  const TAG_GPS_POINTER: uint16 := 0x8825
  const TAG_THUMB_OFFSET: uint16 := 0x0201
  const TAG_THUMB_LENGTH: uint16 := 0x0202

  /** Everything a reader gets out of an Exif block. */
  datatype Image = Image(main: seq<Field>, exif: seq<Field>,
                         gps: Option<seq<Field>>, thumb: Option<(seq<Field>, seq<byte>)>)

  function ReadThumb(o: ByteOrder, t: seq<byte>, at: nat): Option<(seq<Field>, seq<byte>)> {
    var d := ReadDirectory(o, t, at);
    if d.None? then None
    else
      var off := LookupLong(d.value.fields, TAG_THUMB_OFFSET);
      var len := LookupLong(d.value.fields, TAG_THUMB_LENGTH);
      if off.None? || len.None? || off.value + len.value > |t| then None
      else Some((d.value.fields, t[off.value..off.value + len.value]))
  }

  /** The first two bytes of a file: II or MM. */
  function ReadOrder(t: seq<byte>): Option<ByteOrder>
    requires |t| >= 2
  {
    if t[0] == t[1] == 'I' as int then Some(LittleEndian)
    else if t[0] == t[1] == 'M' as int then Some(BigEndian)
    else None
  }

  /** Takes the byte order, the number 42 and the place of the first directory from the header,
      and follows the Exif and GPS pointers and the next-directory link from there. */
  function ReadImage(t: seq<byte>): Option<Image> {
    if |t| < 8 || ReadOrder(t).None? then None
    else
      var o := ReadOrder(t).value;
      if o.U16(t[2..4]) != 42 then None
      else ReadFrom(o, t, o.U32(t[4..8]))
  }

  function ReadFrom(o: ByteOrder, t: seq<byte>, at: nat): Option<Image> {
    var main := ReadDirectory(o, t, at);
    if main.None? then None
    else
      var exifAt := LookupLong(main.value.fields, TAG_EXIF_POINTER);
      if exifAt.None? then None
      else
        var exif := ReadDirectory(o, t, exifAt.value);
        if exif.None? then None
        else
          var gpsAt := LookupLong(main.value.fields, TAG_GPS_POINTER);
          var gps := if gpsAt.None? then None else ReadDirectory(o, t, gpsAt.value);
          var thumb := if main.value.next == 0 then None else ReadThumb(o, t, main.value.next);
          if gpsAt.Some? && gps.None? then None
          else if main.value.next != 0 && thumb.None? then None
          else Some(Image(main.value.fields, exif.value.fields,
                          if gps.None? then None else Some(gps.value.fields), thumb))
  }
}
