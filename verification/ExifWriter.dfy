/** The encoder's output buffer with its two cursors. Every store goes to a byte that has
    not been stored before, and the bytes stored so far spell out directory blocks. */
module ExifWriter {
  import opened Basics
  import opened TiffFormat
  import opened ExifLayout
  import opened ExifAttributes

  // ---------------------------------------------------------------------
  // Overwriting a stretch of a sequence

  ghost function Splice(s: seq<byte>, p: nat, b: seq<byte>): (r: seq<byte>)
    requires p + |b| <= |s|
    ensures |r| == |s|
  {
    s[..p] + b + s[p + |b|..]
  }

  lemma SpliceOutside(s: seq<byte>, p: nat, b: seq<byte>, i: nat, j: nat)
    requires p + |b| <= |s|
    requires i <= j <= |s|
    requires j <= p || p + |b| <= i
    ensures Splice(s, p, b)[i..j] == s[i..j]
  {
  }

  lemma SpliceExtend(s: seq<byte>, p: nat, b: seq<byte>, i: nat)
    requires p + |b| <= |s|
    requires i <= p
    ensures Splice(s, p, b)[i..p + |b|] == s[i..p] + b
  {
  }

  lemma SpliceAdjacent(s: seq<byte>, p: nat, a: seq<byte>, b: seq<byte>)
    requires p + |a| + |b| <= |s|
    ensures Splice(Splice(s, p, a), p + |a|, b) == Splice(s, p, a + b)
  {
  }

  lemma SpliceIsStore(s: seq<byte>, t: seq<byte>, p: nat, b: seq<byte>)
    requires p + |b| <= |s| == |t|
    requires forall i | 0 <= i < |b| :: t[p + i] == b[i]
    requires forall i | 0 <= i < |s| && !(p <= i < p + |b|) :: t[i] == s[i]
    ensures t == Splice(s, p, b)
  {
    forall i | 0 <= i < |s|
      ensures t[i] == Splice(s, p, b)[i]
    {
      if p <= i < p + |b| {
        assert t[p + (i - p)] == b[i - p];
      }
    }
  }

  // ---------------------------------------------------------------------
  // A directory under construction

  /** `s` starts with `base`, followed by a table for `plan` whose count and first k
      entries are in place, with the values of those entries behind the table. */
  ghost predicate Laid(s: seq<byte>, base: seq<byte>, at: nat, plan: seq<Entry>, k: nat)
    requires k <= |plan| < 0x1_0000 && AllValid(plan)
  {
    var lo, es := at + TableSize(|plan|), plan[..k];
    && |base| == 10 + at
    && 10 + lo + |DataBytes(es)| <= |s|
    && s[..10 + at] == base
    && s[10 + at..12 + at] == Le16(|plan|)
    && s[12 + at..12 + at + 12 * k] == TableBytes(es, lo)
    && s[10 + lo..10 + lo + |DataBytes(es)|] == DataBytes(es)
  }

  lemma PlanStep(plan: seq<Entry>, k: nat, lo: nat)
    requires k < |plan| && AllValid(plan)
    ensures plan[..k + 1] == plan[..k] + [plan[k]]
    ensures DataBytes(plan[..k + 1]) == DataBytes(plan[..k]) + plan[k].Data()
    ensures TableBytes(plan[..k + 1], lo)
         == TableBytes(plan[..k], lo) + plan[k].Slot(lo + |DataBytes(plan[..k])|)
    ensures |DataBytes(plan[..k + 1])| <= |DataBytes(plan)|
  {
    hide Entry.Slot, Entry.Data, DataBytes, TableBytes;
    assert plan[..k + 1] == plan[..k] + [plan[k]];
    DataBytesSnoc(plan[..k], plan[k]);
    TableBytesSnoc(plan[..k], plan[k], lo);
    DataAt(plan, k);
  }

  /** Storing the slot of the next entry, and its value behind the last one. */
  lemma LaidStep(s: seq<byte>, base: seq<byte>, at: nat, plan: seq<Entry>, k: nat)
    requires k < |plan| < 0x1_0000 && AllValid(plan)
    requires Laid(s, base, at, plan, k)
    requires 10 + at + BlockSize(plan) <= |s|
    ensures var off := at + TableSize(|plan|) + |DataBytes(plan[..k])|;
            var t := Splice(s, 12 + at + 12 * k, plan[k].Slot(off));
            && 10 + off + |plan[k].Data()| <= |s|
            && Laid(Splice(t, 10 + off, plan[k].Data()), base, at, plan, k + 1)
  {
    hide Entry.Slot, Entry.Data, DataBytes, TableBytes, Splice, Le16;
    var lo := at + TableSize(|plan|);
    PlanStep(plan, k, lo);
    var p, slot := 12 + at + 12 * k, plan[k].Slot(lo + |DataBytes(plan[..k])|);
    var q, data := 10 + lo + |DataBytes(plan[..k])|, plan[k].Data();
    var t := Splice(s, p, slot);
    SpliceOutside(s, p, slot, 0, 10 + at);
    SpliceOutside(s, p, slot, 10 + at, 12 + at);
    SpliceOutside(s, p, slot, 10 + lo, q);
    SpliceExtend(s, p, slot, 12 + at);
    SpliceOutside(t, q, data, 0, 10 + at);
    SpliceOutside(t, q, data, 10 + at, 12 + at);
    SpliceOutside(t, q, data, 12 + at, p + 12);
    SpliceExtend(t, q, data, 10 + lo);
  }

  /** With every entry in place and the link stored, the block is complete. */
  lemma LaidComplete(s: seq<byte>, base: seq<byte>, at: nat, plan: seq<Entry>, next: uint32)
    requires Fits(plan, at)
    requires 10 + at + BlockSize(plan) <= |s|
    requires Laid(s, base, at, plan, |plan|)
    requires s[12 + at + 12 * |plan|..][..4] == Le32(next)
    ensures s[..10 + at + BlockSize(plan)] == base + Block(plan, at, next)
  {
    hide DataBytes, TableBytes, Le16, Le32;
    assert plan[..|plan|] == plan;
    var n, lo := |plan|, at + TableSize(|plan|);
    FourPieces(s, 10 + at, 12 + at, 12 + at + 12 * n, 10 + lo, 10 + at + BlockSize(plan));
  }

  lemma FourPieces(s: seq<byte>, h: nat, i: nat, j: nat, k: nat, l: nat)
    requires h <= i <= j <= k <= l <= |s|
    ensures s[..l] == s[..h] + (s[h..i] + s[i..j] + s[j..][..k - j] + s[k..l])
  {
  }

  ghost function Range(lo: nat, hi: nat): (r: set<nat>)
    requires lo <= hi
    ensures forall q :: q in r <==> lo <= q < hi
    decreases hi - lo
  {
    if lo == hi then {} else Range(lo + 1, hi) + {lo}
  }

  predicate IsNumber(v: Value) {
    match v
    case Bytes(s) => |s| == 1
    case Shorts(s) => |s| == 1
    case Longs(s) => |s| == 1
    case _ => false
  }

  function Number(v: Value): uint32
    requires IsNumber(v)
  {
    match v
    case Bytes(s) => s[0]
    case Shorts(s) => s[0]
    case Longs(s) => s[0]
  }

  /** A number stored as 32 bits is its own encoding followed by zeros. */
  lemma NumberIsPadded(v: Value)
    requires IsNumber(v)
    ensures v.Size() <= 4 && Le32(Number(v)) == Pad4(v.Encode())
  {
    match v
    case Bytes(s) =>
    case Shorts(s) => assert EncodeShorts(s) == Le16(s[0]) + [];
    case Longs(s) => assert EncodeLongs(s) == Le32(s[0]) + [];
  }

  lemma OutOfLineParts(tag: uint16, v: Value, off: uint32)
    requires OutOfLine(tag, v).Valid()
    ensures v.Count() < 0x1_0000_0000
    ensures OutOfLine(tag, v).Data() == v.Encode()
    ensures OutOfLine(tag, v).Slot(off)
         == Le16(tag) + Le16(v.TypeCode()) + Le32(v.Count()) + Le32(off)
  {
  }

  /** Everything from the fourth byte to `end` but the holes and the free part of the table. */
  ghost predicate StoredSoFar(written: set<nat>, holes: set<nat>, cur: nat, tableEnd: nat, end: nat) {
    forall q :: q in written <==> 4 <= q < end && !(cur <= q < tableEnd) && q !in holes
  }

  /** A slot and a value go to bytes not stored before. */
  lemma StoreEntry(written: set<nat>, holes: set<nat>, cur: nat, tableEnd: nat, end: nat, size: nat)
    requires StoredSoFar(written, holes, cur, tableEnd, end)
    requires 4 <= cur && cur + 12 <= tableEnd <= end && forall q | q in holes :: q < cur
    ensures Range(cur, cur + 12) !! written
    ensures Range(end, end + size) !! written + Range(cur, cur + 12)
    ensures StoredSoFar(written + Range(cur, cur + 12) + Range(end, end + size), holes, cur + 12, tableEnd, end + size)
  {
  }


  class ExifWriter {
    const out: array<byte>
    var cur: nat   // table cursor, from the start of the buffer
    var off: nat   // data cursor, from the start of the TIFF block at byte 10

    ghost const orig: seq<byte>
    ghost var base: seq<byte>     // everything before the block under construction
    ghost var at: nat             // where that block starts in the TIFF block
    ghost var plan: seq<Entry>    // the entries it will have
    ghost var k: nat              // how many of them are in place
    ghost var written: set<nat>   // the bytes stored so far
    ghost var holes: set<nat>     // slots skipped, to be stored later

    ghost predicate Open()
      reads this, out
    {
      && 10 + at == |base|
      && k <= |plan| < 0x1_0000 && AllValid(plan)
      && 10 + at + BlockSize(plan) <= out.Length < 0x1_0000_0000
      && Laid(out[..], base, at, plan, k)
      && cur == 12 + at + 12 * k
      && off == at + TableSize(|plan|) + |DataBytes(plan[..k])|
      && Untouched()
      && (forall q | q in holes :: 4 <= q < |base|)
      && StoredSoFar(written, holes, cur, 10 + at + TableSize(|plan|), 10 + off)
    }

    ghost predicate Sealed()
      reads this, out
    {
      && 10 + off == |base| <= out.Length < 0x1_0000_0000
      && out[..|base|] == base
      && Untouched()
      && (forall q | q in holes :: 4 <= q < |base|)
      && forall q :: q in written <==> 4 <= q < 10 + off && q !in holes
    }

    /** Nothing past the data cursor has changed. */
    ghost predicate Untouched()
      reads this, out
    {
      && |orig| == out.Length
      && 10 + off <= out.Length
      && out[10 + off..] == orig[10 + off..]
    }

    /** Exif identifier and TIFF header; the APP1 marker and length come last. */
    constructor (exifOut: array<byte>)
      requires 18 <= exifOut.Length < 0x1_0000_0000
      modifies exifOut
      ensures out == exifOut && orig == old(exifOut[..])
      ensures Sealed() && off == 8 && holes == {}
      ensures base == old(exifOut[..4]) + EXIF_ID + TIFF_HEADER
    {
      out := exifOut;
      cur := 4;
      off := 8;
      orig := exifOut[..];
      base := [];
      at, plan, k := 0, [], 0;
      written, holes := {}, {};
      new;
      Put(cur, EXIF_ID);
      cur := cur + 6;
      Put(cur, TIFF_HEADER);
      cur := cur + 8;
      base := out[..18];
      SpliceAdjacent(old(exifOut[..]), 4, EXIF_ID, TIFF_HEADER);
      SpliceExtend(old(exifOut[..]), 4, EXIF_ID + TIFF_HEADER, 0);
      assert old(exifOut[..])[0..4] == old(exifOut[..4]);
      assert base == old(exifOut[..4]) + (EXIF_ID + TIFF_HEADER);
      SpliceOutside(old(exifOut[..]), 4, EXIF_ID + TIFF_HEADER, 18, out.Length);
    }

    /** memcpy into the buffer, only ever to bytes not stored before. */
    method Put(p: nat, b: seq<byte>)
      requires p + |b| <= out.Length
      requires Range(p, p + |b|) !! written
      modifies this`written, out
      ensures out[..] == Splice(old(out[..]), p, b)
      ensures written == old(written) + Range(p, p + |b|)
    {
      ghost var s := out[..];
      forall i | 0 <= i < |b| {
        out[p + i] := b[i];
      }
      SpliceIsStore(s, out[..], p, b);
      written := written + Range(p, p + |b|);
    }

    /** The four stores every overload of writeExifIfd makes into the table. */
    method PutSlot(p: nat, tag: uint16, typ: uint16, count: uint32, tail: seq<byte>)
      returns (next: nat)
      requires p + 12 <= out.Length && |tail| == 4
      requires Range(p, p + 12) !! written
      modifies this`written, out
      ensures next == p + 12
      ensures out[..] == Splice(old(out[..]), p, Le16(tag) + Le16(typ) + Le32(count) + tail)
      ensures written == old(written) + Range(p, p + 12)
    {
      hide Splice, Le16, Le32;
      ghost var s := out[..];
      next := p;
      Put(next, Le16(tag));
      next := next + 2;
      Put(next, Le16(typ));
      next := next + 2;
      SpliceAdjacent(s, p, Le16(tag), Le16(typ));
      Put(next, Le32(count));
      next := next + 4;
      SpliceAdjacent(s, p, Le16(tag) + Le16(typ), Le32(count));
      Put(next, tail);
      next := next + 4;
      SpliceAdjacent(s, p, Le16(tag) + Le16(typ) + Le32(count), tail);
    }

    /** The frame of one entry write: the plan goes on, nothing else changes. */
    twostate predicate Advanced()
      reads this, out
    {
      && Open()
      && k == old(k) + 1
      && at == old(at) && plan == old(plan) && base == old(base) && holes == old(holes)
    }

    /** writeExifIfd with a 32-bit value. */
    method WriteNumber(tag: uint16, v: Value)
      requires Open() && k < |plan|
      requires IsNumber(v) && plan[k] == Inline(tag, v)
      modifies this`cur, this`k, this`written, out
      ensures Advanced()
    {
      hide Laid, Splice, DataBytes, StoredSoFar, BlockSize, Value.Encode, Le16, Le32;
      ghost var s, w := out[..], written;
      NumberIsPadded(v);
      EntryRoom();
      cur := PutSlot(cur, tag, v.TypeCode(), v.Count(), Le32(Number(v)));
      k := k + 1;
      InlineDone(s, w, k - 1);
    }

    /** writeExifIfd with at most four bytes, zero-padded in a local buffer. */
    method WriteInline(tag: uint16, v: Value)
      requires Open() && k < |plan|
      requires v.Size() <= 4 && plan[k] == Inline(tag, v)
      modifies this`cur, this`k, this`written, out
      ensures Advanced()
    {
      hide Laid, Splice, DataBytes, StoredSoFar, BlockSize, Le16, Le32;
      ghost var s, w := out[..], written;
      EntryRoom();
      cur := PutSlot(cur, tag, v.TypeCode(), v.Count(), Pad4(v.Encode()));
      k := k + 1;
      InlineDone(s, w, k - 1);
    }

    /** writeExifIfd with a value stored at the data cursor. */
    method WriteOutOfLine(tag: uint16, v: Value)
      requires Open() && k < |plan|
      requires plan[k] == OutOfLine(tag, v)
      modifies this`cur, this`off, this`k, this`written, out
      ensures Advanced()
    {
      hide Laid, Splice, DataBytes, StoredSoFar, BlockSize, Value.Encode, Entry.Slot, Entry.Data, Le16, Le32;
      ghost var s, w := out[..], written;
      assert plan[k].Valid();
      OutOfLineParts(tag, v, off);
      EntryRoom();
      cur := PutSlot(cur, tag, v.TypeCode(), v.Count(), Le32(off));
      Put(10 + off, v.Encode());
      off := off + v.Size();
      k := k + 1;
      EntryDone(s, w, k - 1, off - v.Size());
    }

    /** There is room for the next entry's slot and value, and nothing is stored there yet. */
    lemma EntryRoom()
      requires Open() && k < |plan|
      ensures 10 + off + |plan[k].Data()| <= 10 + at + BlockSize(plan)
      ensures cur + 12 <= 10 + at + TableSize(|plan|) <= 10 + off
      ensures Range(cur, cur + 12) !! written
      ensures Range(10 + off, 10 + off + |plan[k].Data()|) !! written + Range(cur, cur + 12)
    {
      hide Laid, Splice, DataBytes, StoredSoFar, Entry.Slot, Entry.Data, TableBytes;
      PlanStep(plan, k, 0);
      StoreEntry(written, holes, cur, 10 + at + TableSize(|plan|), 10 + off, |plan[k].Data()|);
    }

    /** Entry j with its slot stored, and its value where the data cursor was. */
    lemma EntryDone(s: seq<byte>, w: set<nat>, j: nat, before: nat)
      requires 10 + at == |base| && j < |plan| < 0x1_0000 && AllValid(plan)
      requires 10 + at + BlockSize(plan) <= out.Length < 0x1_0000_0000 && |s| == out.Length == |orig|
      requires before == at + TableSize(|plan|) + |DataBytes(plan[..j])|
      requires Laid(s, base, at, plan, j) && s[10 + before..] == orig[10 + before..]
      requires forall q | q in holes :: 4 <= q < |base|
      requires StoredSoFar(w, holes, 12 + at + 12 * j, 10 + at + TableSize(|plan|), 10 + before)
      requires k == j + 1 && cur == 12 + at + 12 * k && off == before + |plan[j].Data()|
      requires 10 + off <= |s|
      requires out[..] == Splice(Splice(s, 12 + at + 12 * j, plan[j].Slot(before)), 10 + before, plan[j].Data())
      requires written == w + Range(cur - 12, cur) + Range(10 + before, 10 + off)
      ensures Open()
    {
      hide Laid, Splice, DataBytes, StoredSoFar, Entry.Slot, Entry.Data, TableBytes, Range;
      StoreEntry(w, holes, 12 + at + 12 * j, 10 + at + TableSize(|plan|), 10 + before, |plan[j].Data()|);
      OutOfLineStep(s, Splice(s, 12 + at + 12 * j, plan[j].Slot(before)), j, before);
    }

    lemma InlineDone(s: seq<byte>, w: set<nat>, j: nat)
      requires 10 + at == |base| && j < |plan| < 0x1_0000 && AllValid(plan)
      requires 10 + at + BlockSize(plan) <= out.Length < 0x1_0000_0000 && |s| == out.Length == |orig|
      requires off == at + TableSize(|plan|) + |DataBytes(plan[..j])| && 10 + off <= |s|
      requires Laid(s, base, at, plan, j) && s[10 + off..] == orig[10 + off..]
      requires forall q | q in holes :: 4 <= q < |base|
      requires StoredSoFar(w, holes, 12 + at + 12 * j, 10 + at + TableSize(|plan|), 10 + off)
      requires k == j + 1 && cur == 12 + at + 12 * k && !plan[j].outOfLine
      requires out[..] == Splice(s, 12 + at + 12 * j, plan[j].Slot(off))
      requires written == w + Range(cur - 12, cur)
      ensures Open()
    {
      hide Laid, DataBytes, StoredSoFar, Entry.Slot, TableBytes;
      var t := Splice(s, 12 + at + 12 * j, plan[j].Slot(off));
      assert Splice(t, 10 + off, []) == t;
      assert w + Range(cur - 12, cur) + Range(10 + off, 10 + off) == w + Range(cur - 12, cur);
      EntryDone(s, w, j, off);
    }

    lemma OutOfLineStep(s: seq<byte>, t: seq<byte>, j: nat, before: nat)
      requires j < |plan| < 0x1_0000 && AllValid(plan)
      requires |s| == |t| == out.Length == |orig|
      requires Laid(s, base, at, plan, j)
      requires before == at + TableSize(|plan|) + |DataBytes(plan[..j])|
      requires 10 + at + BlockSize(plan) <= |s|
      requires 10 + before + |plan[j].Data()| <= |s|
      requires s[10 + before..] == orig[10 + before..]
      requires t == Splice(s, 12 + at + 12 * j, plan[j].Slot(before))
      requires out[..] == Splice(t, 10 + before, plan[j].Data())
      ensures Laid(out[..], base, at, plan, j + 1)
      ensures |DataBytes(plan[..j + 1])| == |DataBytes(plan[..j])| + |plan[j].Data()|
      ensures var end := 10 + before + |plan[j].Data()|; out[end..] == orig[end..]
    {
      hide Laid, Entry.Slot, Entry.Data, DataBytes, TableBytes, Splice;
      LaidStep(s, base, at, plan, j);
      PlanStep(plan, j, 0);
      var end := 10 + before + |plan[j].Data()|;
      SpliceOutside(s, 12 + at + 12 * j, plan[j].Slot(before), end, |s|);
      SpliceOutside(t, 10 + before, plan[j].Data(), end, |s|);
      assert out[end..] == out[..][end..|s|] == t[end..|s|] == s[end..|s|];
      assert s[end..|s|] == s[10 + before..][|plan[j].Data()|..];
      assert orig[end..] == orig[10 + before..][|plan[j].Data()|..];
    }

    /** Entry count of a directory at the data cursor, which moves behind its table. */
    method StartTable(n: nat, ghost entries: seq<Entry>)
      requires Sealed()
      requires n == |entries| < 0x1_0000 && AllValid(entries)
      requires 10 + off + BlockSize(entries) <= out.Length
      modifies this, out
      ensures Open() && k == 0 && plan == entries && at == old(off)
      ensures base == old(base) && holes == old(holes)
    {
      hide Splice, Le16, Laid, DataBytes, AllValid;
      ghost var s := out[..];
      cur := 10 + off;
      Put(cur, Le16(n));
      cur := cur + 2;
      at, plan, k := off, entries, 0;
      off := off + TableSize(n);
      StartStep(s, base, at, entries);
      assert out[10 + off..] == out[..][10 + off..];
    }

    static lemma StartStep(s: seq<byte>, before: seq<byte>, start: nat, entries: seq<Entry>)
      requires |entries| < 0x1_0000 && AllValid(entries)
      requires 10 + start + BlockSize(entries) <= |s|
      requires s[..10 + start] == before
      ensures DataBytes(entries[..0]) == []
      ensures var n := |entries|; var t := Splice(s, 10 + start, Le16(n));
              && Laid(t, before, start, entries, 0)
              && t[10 + start + TableSize(n)..] == s[10 + start..][TableSize(n)..]
    {
      hide Le16, Splice;
      assert entries[..0] == [];
      var n := |entries|;
      SpliceOutside(s, 10 + start, Le16(n), 0, 10 + start);
      SpliceExtend(s, 10 + start, Le16(n), 10 + start);
      var t, end := Splice(s, 10 + start, Le16(n)), 10 + start + TableSize(n);
      SpliceOutside(s, 10 + start, Le16(n), end, |s|);
      assert t[end..] == t[end..|s|] == s[end..|s|] == s[end..];
      assert s[10 + start..][TableSize(n)..] == s[end..];
      assert t[..10 + start] == t[0..10 + start] == s[0..10 + start];
      assert TableBytes([], start + TableSize(n)) == [];
    }

    /** The zero link that ends every directory but the first. */
    method EndTable()
      requires Open() && k == |plan| && Fits(plan, at)
      modifies this, out
      ensures Sealed() && off == old(off) && holes == old(holes)
      ensures Fits(old(plan), old(at))
      ensures base == old(base) + Block(old(plan), old(at), 0)
    {
      hide Splice, Le32, DataBytes, TableBytes;
      ghost var s := out[..];
      Put(cur, Le32(0));
      EndStep(s, base, at, plan, 0);
      cur := cur + 4;
      assert plan[..k] == plan;
      assert out[10 + off..] == out[..][10 + off..];
      base := out[..10 + off];
    }

    static lemma EndStep(s: seq<byte>, before: seq<byte>, start: nat, entries: seq<Entry>, link: uint32)
      requires Fits(entries, start)
      requires 10 + start + BlockSize(entries) <= |s|
      requires Laid(s, before, start, entries, |entries|)
      ensures var t := Splice(s, 12 + start + 12 * |entries|, Le32(link));
              var end := 10 + start + BlockSize(entries);
              t[..end] == before + Block(entries, start, link) && t[end..] == s[end..]
    {
      hide DataBytes, TableBytes, Le16, Le32, Splice;
      assert entries[..|entries|] == entries;
      var n, p := |entries|, 12 + start + 12 * |entries|;
      var t, lo := Splice(s, p, Le32(link)), start + TableSize(n);
      SpliceOutside(s, p, Le32(link), 0, 10 + start);
      SpliceOutside(s, p, Le32(link), 10 + start, 12 + start);
      SpliceOutside(s, p, Le32(link), 12 + start, 12 + start + 12 * n);
      SpliceOutside(s, p, Le32(link), 10 + lo, 10 + lo + |DataBytes(entries)|);
      SpliceOutside(s, p, Le32(link), 10 + start + BlockSize(entries), |s|);
      SpliceExtend(s, p, Le32(link), p);
      assert t[p..][..4] == t[p..p + 4];
      LaidComplete(t, before, start, entries, link);
    }

    /** Leaves the remaining slots and the link of the first directory for later. */
    ghost method Suspend()
      requires Open()
      modifies this
      ensures Sealed() && off == old(off) && cur == old(cur)
      ensures |old(base)| <= |base| && base[..|old(base)|] == old(base)
      ensures Laid(base, old(base), old(at), old(plan), old(k))
      ensures holes == old(holes) + Range(old(cur), 10 + old(at) + TableSize(|old(plan)|))
    {
      hide DataBytes, TableBytes;
      LaidPrefix(out[..], base, at, plan, k, 10 + off);
      holes := holes + Range(cur, 10 + at + TableSize(|plan|));
      base := out[..10 + off];
      assert out[..10 + off] == out[..][..10 + off];
    }

    static lemma LaidPrefix(s: seq<byte>, before: seq<byte>, start: nat, entries: seq<Entry>, n: nat, end: nat)
      requires n <= |entries| < 0x1_0000 && AllValid(entries)
      requires Laid(s, before, start, entries, n)
      requires 10 + start + TableSize(|entries|) + |DataBytes(entries[..n])| <= end <= |s|
      ensures Laid(s[..end], before, start, entries, n)
    {
      hide DataBytes, TableBytes, Le16;
      var lo, es := start + TableSize(|entries|), entries[..n];
      Prefix(s, end, 0, 10 + start);
      Prefix(s, end, 10 + start, 12 + start);
      Prefix(s, end, 12 + start, 12 + start + 12 * n);
      Prefix(s, end, 10 + lo, 10 + lo + |DataBytes(es)|);
    }

    static lemma Prefix(s: seq<byte>, end: nat, i: nat, j: nat)
      requires i <= j <= end <= |s|
      ensures s[..end][i..j] == s[i..j]
    {
    }

    /** Stores a slot that was left out: the GPS pointer. */
    method PatchNumber(p: nat, tag: uint16, v: Value)
      requires Sealed()
      requires IsNumber(v)
      requires p + 12 <= |base| && Range(p, p + 12) <= holes
      modifies this`written, this`holes, this`base, out
      ensures Sealed() && holes == old(holes) - Range(p, p + 12)
      ensures Inline(tag, v).Valid()
      ensures base == Splice(old(base), p, Inline(tag, v).Slot(0))
    {
      hide Splice;
      ghost var s := out[..];
      NumberIsPadded(v);
      var _ := PutSlot(p, tag, v.TypeCode(), v.Count(), Le32(Number(v)));
      PatchStep(s, p, Inline(tag, v).Slot(0));
      holes := holes - Range(p, p + 12);
    }

    /** Stores the link of the first directory. */
    method PatchLink(p: nat, link: uint32)
      requires Sealed()
      requires p + 4 <= |base| && Range(p, p + 4) <= holes
      modifies this`written, this`holes, this`base, out
      ensures Sealed() && holes == old(holes) - Range(p, p + 4)
      ensures base == Splice(old(base), p, Le32(link))
    {
      hide Splice, Le32;
      ghost var s := out[..];
      Put(p, Le32(link));
      PatchStep(s, p, Le32(link));
      holes := holes - Range(p, p + 4);
    }

    ghost method PatchStep(s: seq<byte>, p: nat, b: seq<byte>)
      requires |s| == out.Length == |orig|
      requires p + |b| <= |base| == 10 + off <= |s|
      requires s[..|base|] == base
      requires s[10 + off..] == orig[10 + off..]
      requires out[..] == Splice(s, p, b)
      modifies this`base
      ensures base == Splice(old(base), p, b)
      ensures out[..|base|] == base && Untouched()
    {
      SpliceOutside(s, p, b, 10 + off, |s|);
      assert out[10 + off..] == out[..][10 + off..];
      assert out[..10 + off] == out[..][..10 + off] == Splice(base, p, b);
      base := Splice(base, p, b);
    }

    /** memcpy of the thumbnail to the data cursor. */
    method AppendData(b: seq<byte>)
      requires Sealed()
      requires 10 + off + |b| <= out.Length
      modifies this`off, this`base, this`written, out
      ensures Sealed() && off == old(off) + |b| && base == old(base) + b && holes == old(holes)
    {
      hide Splice;
      ghost var s := out[..];
      Put(10 + off, b);
      AppendStep(s, 10 + off, b);
      off := off + |b|;
      assert out[10 + off..] == out[..][10 + off..];
      base := out[..10 + off];
    }

    static lemma AppendStep(s: seq<byte>, p: nat, b: seq<byte>)
      requires p + |b| <= |s|
      ensures var t := Splice(s, p, b);
              t[..p + |b|] == s[..p] + b && t[p + |b|..] == s[p..][|b|..]
    {
    }

    /** APP1 marker and length, once everything else is in place: now every byte up to
        the data cursor has been stored exactly once. */
    method PutHead(size: nat)
      requires Sealed() && holes == {}
      requires size >= 2
      modifies this`written, out
      ensures written == Range(0, 10 + off)
      ensures out[..10 + off] == App1Head(size) + base[4..]
      ensures out[10 + off..] == orig[10 + off..]
    {
      hide Splice;
      ghost var s := out[..];
      Put(0, App1Head(size)[..2]);
      Put(2, App1Head(size)[2..]);
      HeadStep(s, 10 + off, App1Head(size));
      assert out[..10 + off] == out[..][..10 + off];
      assert out[10 + off..] == out[..][10 + off..];
    }

    static lemma HeadStep(s: seq<byte>, end: nat, head: seq<byte>)
      requires |head| == 4 <= end <= |s|
      ensures var t := Splice(Splice(s, 0, head[..2]), 2, head[2..]);
              t[..end] == head + s[..end][4..] && t[end..] == s[end..]
    {
      SpliceAdjacent(s, 0, head[..2], head[2..]);
      assert head[..2] + head[2..] == head;
    }
  }
}
