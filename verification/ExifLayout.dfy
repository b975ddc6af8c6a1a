/** The byte layout the encoder produces for one image file directory, and what a
    TIFF reader finds in it. */
module ExifLayout {
  import opened Basics
  import opened TiffFormat

  /** A directory entry as the encoder writes it: the two overloads of writeExifIfd that
      take an offset always store the value out of line, the other two never do. */
  datatype Entry = Entry(tag: uint16, value: Value, outOfLine: bool) {

    predicate Valid() {
      && value.Count() < 0x1_0000_0000
      && (outOfLine || value.Size() <= 4)
    }

    /** The bytes this entry adds to the data region. */
    function Data(): seq<byte> {
      if outOfLine then value.Encode() else []
    }

    /** The last four bytes of the entry when the data region is filled up to `off`. */
    function Tail(off: nat): (s: seq<byte>)
      requires Valid()
      ensures |s| == 4
    {
      if outOfLine then Le32(Wrap32(off)) else Pad4(value.Encode())
    }

    function Slot(off: nat): (s: seq<byte>)
      requires Valid()
      ensures |s| == 12
    {
      Le16(tag) + Le16(value.TypeCode()) + Le32(value.Count()) + Tail(off)
    }

    /** What a reader makes of the entry: a value stored out of line although it takes
        at most 4 bytes is read as the leading bytes of its own offset. */
    function ReadBack(off: nat): Field {
      if outOfLine && value.Size() <= 4
      then Field(tag, Decode(LittleEndian, value.TypeCode(), Le32(Wrap32(off))[..value.Size()]).value)
      else Field(tag, value)
    }

    function AsField(): Field {
      Field(tag, value)
    }
  }

  function Pad4(s: seq<byte>): (r: seq<byte>)
    requires |s| <= 4
    ensures |r| == 4
  {
    s + seq(4 - |s|, _ => 0)
  }

  ghost predicate AllValid(es: seq<Entry>) {
    forall k | 0 <= k < |es| :: es[k].Valid()
  }

  function DataBytes(es: seq<Entry>): seq<byte> {
    if es == [] then [] else DataBytes(es[..|es| - 1]) + es[|es| - 1].Data()
  }

  /** Where the value of entry k goes when the data region starts at `lo`. */
  function OffsetOf(es: seq<Entry>, lo: nat, k: nat): nat
    requires k <= |es|
  {
    lo + |DataBytes(es[..k])|
  }

  ghost function Slots(es: seq<Entry>, lo: nat): (ss: seq<seq<byte>>)
    requires AllValid(es)
    ensures |ss| == |es| && Groups(ss)
  {
    if es == [] then []
    else
      var front := es[..|es| - 1];
      Slots(front, lo) + [es[|es| - 1].Slot(lo + |DataBytes(front)|)]
  }

  ghost function TableBytes(es: seq<Entry>, lo: nat): (s: seq<byte>)
    requires AllValid(es)
    ensures |s| == 12 * |es|
  {
    Concat(Slots(es, lo))
  }

  function TableSize(n: nat): nat {
    2 + 12 * n + 4
  }

  function BlockSize(es: seq<Entry>): nat {
    TableSize(|es|) + |DataBytes(es)|
  }

  ghost predicate Fits(es: seq<Entry>, at: nat) {
    && AllValid(es)
    && |es| < 0x1_0000
    && at + BlockSize(es) < 0x1_0000_0000
  }

  /** A directory at offset `at` of the TIFF block, its values right behind it. */
  ghost function Block(es: seq<Entry>, at: nat, next: uint32): (s: seq<byte>)
    requires Fits(es, at)
    ensures |s| == BlockSize(es)
  {
    Le16(|es|) + TableBytes(es, at + TableSize(|es|)) + Le32(next) + DataBytes(es)
  }

  // ---------------------------------------------------------------------
  // Sequences of 12-byte groups, and slices of concatenations

  ghost predicate Groups(ss: seq<seq<byte>>) {
    forall k | 0 <= k < |ss| :: |ss[k]| == 12
  }

  ghost function Concat(ss: seq<seq<byte>>): (s: seq<byte>)
    requires Groups(ss)
    ensures |s| == 12 * |ss|
  {
    if ss == [] then [] else Concat(ss[..|ss| - 1]) + ss[|ss| - 1]
  }

  lemma SliceOfPrefix(a: seq<byte>, b: seq<byte>, i: nat, j: nat)
    requires i <= j <= |a|
    ensures (a + b)[i..j] == a[i..j]
  {
  }

  lemma {:induction false} GroupAt(ss: seq<seq<byte>>, k: nat)
    requires Groups(ss)
    requires k < |ss|
    ensures Concat(ss)[12 * k..12 * k + 12] == ss[k]
  {
    var front := ss[..|ss| - 1];
    if k < |ss| - 1 {
      GroupAt(front, k);
      SliceOfPrefix(Concat(front), ss[|ss| - 1], 12 * k, 12 * k + 12);
    }
  }

  lemma FourParts(a: seq<byte>, b: seq<byte>, c: seq<byte>, d: seq<byte>)
    ensures var s := a + b + c + d; var i, j, k := |a|, |a| + |b|, |a| + |b| + |c|;
            s[..i] == a && s[i..j] == b && s[j..k] == c && s[k..] == d
  {
  }

  /** Slicing a slice. */
  lemma SubSlice(t: seq<byte>, at: nat, s: seq<byte>, i: nat, j: nat)
    requires at + |s| <= |t|
    requires t[at..at + |s|] == s
    requires i <= j <= |s|
    ensures t[at + i..at + j] == s[i..j]
  {
    forall p | 0 <= p < j - i
      ensures t[at + i..at + j][p] == s[i..j][p]
    {
      assert t[at..at + |s|][i + p] == s[i + p];
    }
  }

  // ---------------------------------------------------------------------
  // Appending an entry

  lemma DataBytesSnoc(es: seq<Entry>, e: Entry)
    ensures DataBytes(es + [e]) == DataBytes(es) + e.Data()
  {
    assert (es + [e])[..|es|] == es;
  }

  lemma TableBytesSnoc(es: seq<Entry>, e: Entry, lo: nat)
    requires AllValid(es) && e.Valid()
    ensures TableBytes(es + [e], lo) == TableBytes(es, lo) + e.Slot(lo + |DataBytes(es)|)
  {
    hide Entry.Slot, Entry.Valid, DataBytes;
    assert (es + [e])[..|es|] == es;
    var ss := Slots(es, lo);
    assert (ss + [e.Slot(lo + |DataBytes(es)|)])[..|ss|] == ss;
  }

  lemma {:induction false} SlotAt(es: seq<Entry>, lo: nat, k: nat)
    requires AllValid(es)
    requires k < |es|
    ensures Slots(es, lo)[k] == es[k].Slot(OffsetOf(es, lo, k))
  {
    hide Entry.Slot, Entry.Valid, DataBytes;
    var front := es[..|es| - 1];
    if k < |es| - 1 {
      assert front[..k] == es[..k];
      SlotAt(front, lo, k);
    }
  }

  /** The data of entry k sits at its offset. */
  lemma {:induction false} DataAt(es: seq<Entry>, k: nat)
    requires k < |es|
    ensures |DataBytes(es[..k])| + |es[k].Data()| <= |DataBytes(es)|
    ensures DataBytes(es)[|DataBytes(es[..k])|..][..|es[k].Data()|] == es[k].Data()
  {
    var front := es[..|es| - 1];
    if k == |es| - 1 {
    } else {
      assert front[..k] == es[..k];
      DataAt(front, k);
      var a := |DataBytes(es[..k])|;
      assert DataBytes(es)[a..][..|es[k].Data()|] == DataBytes(front)[a..][..|es[k].Data()|];
    }
  }

  // ---------------------------------------------------------------------
  // Reading a block back

  lemma PaddedPrefix(s: seq<byte>)
    requires |s| <= 4
    ensures Pad4(s)[..|s|] == s
  {
  }

  /** A slot read in its TIFF block gives the entry's read-back value. */
  lemma ReadFieldOfSlot(t: seq<byte>, at: nat, e: Entry, off: uint32)
    requires e.Valid()
    requires at + 12 <= |t|
    requires t[at..at + 12] == e.Slot(off)
    requires e.outOfLine ==> off + e.value.Size() <= |t|
    requires e.outOfLine ==> t[off..off + e.value.Size()] == e.value.Encode()
    ensures ReadField(LittleEndian, t, at) == Some(e.ReadBack(off))
  {
    hide Le16, Le32, FromLe16, FromLe32, Decode, Value.Encode, Pad4;
    var v, slot := e.value, e.Slot(off);
    FourParts(Le16(e.tag), Le16(v.TypeCode()), Le32(v.Count()), e.Tail(off));
    SubSlice(t, at, slot, 0, 2);
    SubSlice(t, at, slot, 2, 4);
    SubSlice(t, at, slot, 4, 8);
    SubSlice(t, at, slot, 8, 12);
    Le16Inverse(e.tag);
    Le16Inverse(v.TypeCode());
    Le32Inverse(v.Count());
    Le32Inverse(off);
    DecodeEncode(v);
    if v.Size() <= 4 {
      SubSlice(t, at + 8, e.Tail(off), 0, v.Size());
      if !e.outOfLine {
        PaddedPrefix(v.Encode());
      } else {
        DecodeKnown(v, Le32(off)[..v.Size()]);
      }
    }
  }

  lemma DecodeKnown(v: Value, data: seq<byte>)
    ensures Decode(LittleEndian, v.TypeCode(), data).Some?
  {
  }

  function ReadBacks(es: seq<Entry>, lo: nat): (fs: seq<Field>)
    ensures |fs| == |es|
    ensures forall k | 0 <= k < |es| :: fs[k] == es[k].ReadBack(OffsetOf(es, lo, k))
  {
    seq(|es|, k requires 0 <= k < |es| => es[k].ReadBack(OffsetOf(es, lo, k)))
  }

  lemma {:induction false} ReadFieldsPointwise(t: seq<byte>, at: nat, fs: seq<Field>)
    requires at + 12 * |fs| <= |t|
    requires forall k | 0 <= k < |fs| :: ReadField(LittleEndian, t, at + 12 * k) == Some(fs[k])
    ensures ReadFields(LittleEndian, t, at, |fs|) == Some(fs)
    decreases |fs|
  {
    hide ReadField;
    if fs != [] {
      var rest := fs[1..];
      assert ReadField(LittleEndian, t, at + 12 * 0) == Some(fs[0]);
      forall k | 0 <= k < |rest|
        ensures ReadField(LittleEndian, t, at + 12 + 12 * k) == Some(rest[k])
      {
        assert at + 12 + 12 * k == at + 12 * (k + 1);
      }
      ReadFieldsPointwise(t, at + 12, rest);
      assert fs == [fs[0]] + rest;
    }
  }

  /** Where the 12 bytes of entry k lie in a TIFF block that holds the table. */
  lemma SlotInPlace(t: seq<byte>, at: nat, es: seq<Entry>, lo: nat, k: nat)
    requires AllValid(es)
    requires k < |es|
    requires at + 12 * |es| <= |t|
    requires t[at..at + 12 * |es|] == TableBytes(es, lo)
    ensures t[at + 12 * k..at + 12 * k + 12] == es[k].Slot(OffsetOf(es, lo, k))
  {
    hide Entry.Slot, Entry.Valid, Slots, Concat, OffsetOf;
    GroupAt(Slots(es, lo), k);
    SlotAt(es, lo, k);
    SubSlice(t, at, TableBytes(es, lo), 12 * k, 12 * k + 12);
  }

  /** Where the value of entry k lies in a TIFF block that holds the data region. */
  lemma DataInPlace(t: seq<byte>, es: seq<Entry>, lo: nat, k: nat)
    requires k < |es|
    requires lo + |DataBytes(es)| <= |t|
    requires t[lo..lo + |DataBytes(es)|] == DataBytes(es)
    ensures OffsetOf(es, lo, k) + |es[k].Data()| <= lo + |DataBytes(es)|
    ensures t[OffsetOf(es, lo, k)..OffsetOf(es, lo, k) + |es[k].Data()|] == es[k].Data()
  {
    hide Entry.Data;
    DataAt(es, k);
    var a, size := |DataBytes(es[..k])|, |es[k].Data()|;
    SubSlice(t, lo, DataBytes(es), a, a + size);
    assert DataBytes(es)[a..a + size] == DataBytes(es)[a..][..size];
  }

  /** Entry k of a block, read where the block lies. */
  lemma ReadBlockEntry(t: seq<byte>, at: nat, es: seq<Entry>, lo: nat, k: nat)
    requires AllValid(es)
    requires k < |es|
    requires at + 12 * |es| <= |t|
    requires t[at..at + 12 * |es|] == TableBytes(es, lo)
    requires lo + |DataBytes(es)| <= |t| < 0x1_0000_0000
    requires t[lo..lo + |DataBytes(es)|] == DataBytes(es)
    ensures ReadField(LittleEndian, t, at + 12 * k) == Some(es[k].ReadBack(OffsetOf(es, lo, k)))
  {
    hide ReadField, Entry.Slot, Entry.ReadBack, TableBytes, DataBytes, OffsetOf;
    SlotInPlace(t, at, es, lo, k);
    DataInPlace(t, es, lo, k);
    ReadFieldOfSlot(t, at + 12 * k, es[k], OffsetOf(es, lo, k));
  }

  /** A reader that finds a block at its own offset inside a TIFF block recovers every
      entry and the link, whatever surrounds the block. */
  lemma ReadBlock(t: seq<byte>, at: nat, es: seq<Entry>, next: uint32)
    requires Fits(es, at)
    requires at + BlockSize(es) <= |t| < 0x1_0000_0000
    requires t[at..at + BlockSize(es)] == Block(es, at, next)
    ensures ReadDirectory(LittleEndian, t, at)
         == Some(Directory(ReadBacks(es, at + TableSize(|es|)), next))
  {
    hide Le16, Le32, FromLe16, FromLe32, ReadField, ReadFields, TableBytes, DataBytes, OffsetOf, Entry.ReadBack;
    var n, lo := |es|, at + TableSize(|es|);
    var b, fs := Block(es, at, next), ReadBacks(es, lo);
    FourParts(Le16(n), TableBytes(es, lo), Le32(next), DataBytes(es));
    SubSlice(t, at, b, 0, 2);
    SubSlice(t, at, b, 2, 2 + 12 * n);
    SubSlice(t, at, b, 2 + 12 * n, 6 + 12 * n);
    SubSlice(t, at, b, 6 + 12 * n, |b|);
    Le16Inverse(n);
    Le32Inverse(next);
    forall k | 0 <= k < n
      ensures ReadField(LittleEndian, t, at + 2 + 12 * k) == Some(fs[k])
    {
      ReadBlockEntry(t, at + 2, es, lo, k);
    }
    ReadFieldsPointwise(t, at + 2, fs);
  }

  // ---------------------------------------------------------------------
  // When the fields read are the fields written

  /** A value is read as written unless it is stored out of line in at most 4 bytes
      that differ from the leading bytes of its own offset. */
  predicate Faithful(e: Entry, off: nat) {
    e.outOfLine && e.value.Size() <= 4
    ==> Le32(Wrap32(off))[..e.value.Size()] == e.value.Encode()
  }

  /** Values of one byte per unit are the only ones the encoder ever puts out of line
      without knowing that they take more than 4 bytes. */
  predicate Small(e: Entry) {
    e.outOfLine && e.value.Size() <= 4
    ==> e.value.Ascii? || e.value.Bytes? || e.value.Undefined?
  }

  lemma ReadBackIff(e: Entry, off: nat)
    requires Small(e)
    ensures e.ReadBack(off) == e.AsField() <==> Faithful(e, off)
  {
    hide Le32;
    DecodeEncode(e.value);
  }

  function AsFields(es: seq<Entry>): (fs: seq<Field>)
    ensures |fs| == |es|
    ensures forall k | 0 <= k < |es| :: fs[k] == es[k].AsField()
  {
    seq(|es|, k requires 0 <= k < |es| => es[k].AsField())
  }

  ghost predicate AllFaithful(es: seq<Entry>, lo: nat) {
    forall k | 0 <= k < |es| :: Faithful(es[k], OffsetOf(es, lo, k))
  }

  lemma ReadBacksIff(es: seq<Entry>, lo: nat)
    requires forall k | 0 <= k < |es| :: Small(es[k])
    ensures ReadBacks(es, lo) == AsFields(es) <==> AllFaithful(es, lo)
  {
    hide Faithful, Small, Entry.ReadBack, Entry.AsField;
    forall k | 0 <= k < |es|
      ensures ReadBacks(es, lo)[k] == AsFields(es)[k] <==> Faithful(es[k], OffsetOf(es, lo, k))
    {
      ReadBackIff(es[k], OffsetOf(es, lo, k));
    }
  }
}
