/** The calibration file of the compass daemon: written by WriteFileParameter, read back by
    ReadFileParameter. */
module Calibration {
  import opened Basics
  import opened FormattedText

  datatype Vector = Vector(x: int16, y: int16, z: int16)

  datatype UVector = UVector(x: uint16, y: uint16, z: uint16)

  /** The fields of AMI_PARAMETER that the file holds. */
  datatype Parameters = Parameters(
    mGain: UVector, mOffset: UVector, aGain: UVector, aOffset: UVector,
    usrAOffset: Vector, usrMOffset: Vector, gainCor: UVector, magRadius: int32)

  class AmiParameter {
    var mGain: UVector
    var mOffset: UVector
    var aGain: UVector
    var aOffset: UVector
    var usrAOffset: Vector
    var usrMOffset: Vector
    var gainCor: UVector
    var magRadius: int32

    constructor (p: Parameters)
      ensures Value() == p
    {
      mGain, mOffset, aGain, aOffset := p.mGain, p.mOffset, p.aGain, p.aOffset;
      usrAOffset, usrMOffset, gainCor, magRadius := p.usrAOffset, p.usrMOffset, p.gainCor, p.magRadius;
    }

    function Value(): Parameters
      reads this
    {
      Parameters(mGain, mOffset, aGain, aOffset, usrAOffset, usrMOffset, gainCor, magRadius)
    }

    /** The assignments at the end of ReadFileParameter. */
    method Assign(data: array<int>, radius: int32)
      requires data.Length == COUNT - 1
      modifies this
      ensures Value() == Loaded(data[..], radius)
    {
      hide ToUint16, ToInt16;
      aGain := UVector(ToUint16(data[0] * 2), ToUint16(data[1] * 2), ToUint16(data[2] * 2));
      aOffset := UVector(ToUint16(data[3] + SENSOR_OFFSET), ToUint16(data[4] + SENSOR_OFFSET),
                         ToUint16(data[5] + SENSOR_OFFSET));
      mGain := UVector(ToUint16(data[6]), ToUint16(data[7]), ToUint16(data[8]));
      mOffset := UVector(ToUint16(data[9] + SENSOR_OFFSET), ToUint16(data[10] + SENSOR_OFFSET),
                         ToUint16(data[11] + SENSOR_OFFSET));
      usrAOffset := Vector(ToInt16(data[12]), ToInt16(data[13]), ToInt16(data[14]));
      usrMOffset := Vector(ToInt16(data[15]), ToInt16(data[16]), ToInt16(data[17]));
      gainCor := UVector(ToUint16(data[18]), ToUint16(data[19]), ToUint16(data[20]));
      magRadius := radius;
    }
  }

  const VERIFIED_CODE := 0x0F1838
  const SENSOR_OFFSET := 2048

  // ---------------------------------------------------------------------
  // The file

  const CODE_LINE := [Number(0), Blank('\n')]

  function Column(separator: char): seq<Directive> {
    [Number(6), Blank(separator)]
  }

  /** Rows of three numbers, and a last number with nothing after it. */
  function Rows(n: nat): seq<Directive> {
    if n == 0 then [Number(0)] else Column(' ') + (Column(' ') + (Column('\n') + Rows(n - 1)))
  }

  const ROWS := 7
  const COUNT := 22

  /** What is written of the parameters, in the order of the file. */
  function Stored(p: Parameters): (numbers: seq<int>)
    ensures |numbers| == COUNT
  {
    [p.aGain.x / 2, p.aGain.y / 2, p.aGain.z / 2,
     p.aOffset.x - SENSOR_OFFSET, p.aOffset.y - SENSOR_OFFSET, p.aOffset.z - SENSOR_OFFSET,
     p.mGain.x, p.mGain.y, p.mGain.z,
     p.mOffset.x - SENSOR_OFFSET, p.mOffset.y - SENSOR_OFFSET, p.mOffset.z - SENSOR_OFFSET,
     p.usrAOffset.x, p.usrAOffset.y, p.usrAOffset.z,
     p.usrMOffset.x, p.usrMOffset.y, p.usrMOffset.z,
     p.gainCor.x, p.gainCor.y, p.gainCor.z,
     p.magRadius]
  }

  function CodeLine(): string {
    Print(CODE_LINE, [VERIFIED_CODE])
  }

  function Body(p: Parameters): string {
    RowsShape(ROWS);
    Print(Rows(ROWS), Stored(p))
  }

  function FileText(p: Parameters): string {
    CodeLine() + Body(p)
  }

  // ---------------------------------------------------------------------
  // Reading it back

  function ToUint16(n: int): uint16 {
    n % 0x1_0000
  }

  function ToInt16(n: int): int16 {
    if n % 0x1_0000 < 0x8000 then n % 0x1_0000 else n % 0x1_0000 - 0x1_0000
  }

  function ToLong(n: int): int32 {
    Basics.Signed(Wrap32(n))
  }

  /** The parameters that the first 21 numbers and a radius stand for. */
  function Loaded(data: seq<int>, radius: int32): Parameters
    requires |data| >= COUNT - 1
  {
    Parameters(
      UVector(ToUint16(data[6]), ToUint16(data[7]), ToUint16(data[8])),
      UVector(ToUint16(data[9] + SENSOR_OFFSET), ToUint16(data[10] + SENSOR_OFFSET),
              ToUint16(data[11] + SENSOR_OFFSET)),
      UVector(ToUint16(data[0] * 2), ToUint16(data[1] * 2), ToUint16(data[2] * 2)),
      UVector(ToUint16(data[3] + SENSOR_OFFSET), ToUint16(data[4] + SENSOR_OFFSET),
              ToUint16(data[5] + SENSOR_OFFSET)),
      Vector(ToInt16(data[12]), ToInt16(data[13]), ToInt16(data[14])),
      Vector(ToInt16(data[15]), ToInt16(data[16]), ToInt16(data[17])),
      UVector(ToUint16(data[18]), ToUint16(data[19]), ToUint16(data[20])),
      radius)
  }

  datatype Loading = Loading(ret: int, param: Parameters)

  /** What ReadFileParameter returns and leaves in its parameter. The code it compares is a
      local variable that keeps its stale value when no number can be converted. */
  function Load(text: string, stale: int32, before: Parameters): Loading {
    var head := Scan(CODE_LINE, text);
    var code := if head.found == [] then stale else ToLong(head.found[0]);
    var found := Scan(Rows(ROWS), head.rest).found;
    if code != VERIFIED_CODE then Loading(-2, before)
    else if |found| != COUNT then Loading(-3, before)
    else Loading(0, Loaded(found, ToLong(found[COUNT - 1])))
  }

  /** CONFIG_FILE_PATH; whether it can be opened is up to the system. */
  class ConfigFile {
    var text: string

    constructor (text: string)
      ensures this.text == text
    {
      this.text := text;
    }

    method WriteFileParameter(param: AmiParameter, opens: bool) returns (ret: int)
      modifies this
      ensures ret == if opens then 0 else -1
      ensures text == if opens then FileText(param.Value()) else old(text)
    {
      hide Print, Rows, Separated, EndsInNumber;
      if !opens {
        return -1;
      }
      text := "";
      text := text + Print(CODE_LINE, [VERIFIED_CODE]);
      RowsShape(ROWS);
      text := text + Print(Rows(ROWS), [
        param.aGain.x / 2, param.aGain.y / 2, param.aGain.z / 2,
        param.aOffset.x - SENSOR_OFFSET, param.aOffset.y - SENSOR_OFFSET, param.aOffset.z - SENSOR_OFFSET,
        param.mGain.x, param.mGain.y, param.mGain.z,
        param.mOffset.x - SENSOR_OFFSET, param.mOffset.y - SENSOR_OFFSET, param.mOffset.z - SENSOR_OFFSET,
        param.usrAOffset.x, param.usrAOffset.y, param.usrAOffset.z,
        param.usrMOffset.x, param.usrMOffset.y, param.usrMOffset.z,
        param.gainCor.x, param.gainCor.y, param.gainCor.z,
        param.magRadius]);
      ret := 0;
    }

    method ReadFileParameter(param: AmiParameter, opens: bool, stale: int32) returns (ret: int)
      modifies param
      ensures !opens ==> ret == -1 && param.Value() == old(param.Value())
      ensures opens ==> Loading(ret, param.Value()) == Load(text, stale, old(param.Value()))
    {
      hide Scan, Rows, ToUint16, ToInt16, ToLong;
      if !opens {
        return -1;
      }
      var data := new int[COUNT - 1];
      var ldata := stale;
      var head := Scan(CODE_LINE, text);
      if head.found != [] {
        ldata := ToLong(head.found[0]);
      }
      if ldata != VERIFIED_CODE {
        return -2;
      }
      var body := Scan(Rows(ROWS), head.rest);
      if |body.found| != COUNT {
        return -3;
      }
      forall i | 0 <= i < COUNT - 1 {
        data[i] := body.found[i];
      }
      ldata := ToLong(body.found[COUNT - 1]);
      assert data[..] == body.found[..COUNT - 1];
      param.Assign(data, ldata);
      ret := 0;
    }
  }

  // ---------------------------------------------------------------------
  // The round trip

  predicate Shaped(format: seq<Directive>) {
    Separated(format) && EndsInNumber(format) && format[0].Number?
  }

  lemma ColumnShape(separator: char, rest: seq<Directive>)
    requires IsSpace(separator) && Shaped(rest)
    ensures Shaped(Column(separator) + rest)
    ensures Numbers(Column(separator) + rest) == 1 + Numbers(rest)
  {
    var format := Column(separator) + rest;
    assert format[1..] == [Blank(separator)] + rest && format[1..][1..] == rest;
  }

  lemma {:induction false} RowsShape(n: nat)
    ensures Shaped(Rows(n))
    ensures Numbers(Rows(n)) == 3 * n + 1
  {
    if n > 0 {
      hide Shaped, Numbers;
      RowsShape(n - 1);
      ColumnShape('\n', Rows(n - 1));
      ColumnShape(' ', Column('\n') + Rows(n - 1));
      ColumnShape(' ', Column(' ') + (Column('\n') + Rows(n - 1)));
    }
  }

  // The conversions are wide enough for every value the fields can have.

  lemma SixFits(n: int)
    requires -99999 <= n <= 999999
    ensures Fits(n, 6)
  {
    DigitsLength(Abs(n), if n < 0 then 5 else 6);
    assert Power10(5) == 100000 && Power10(6) == 1000000;
  }

  lemma ColumnFits(separator: char, rest: seq<Directive>, args: seq<int>)
    requires |args| == 1 + Numbers(rest) && Fits(args[0], 6) && AllFit(rest, args[1..])
    ensures Numbers(Column(separator) + rest) == |args|
    ensures AllFit(Column(separator) + rest, args)
  {
    hide Fits;
    var format := Column(separator) + rest;
    assert format[1..] == [Blank(separator)] + rest && format[1..][1..] == rest;
  }

  lemma {:induction false} RowsFit(n: nat, args: seq<int>)
    requires |args| == 3 * n + 1
    requires forall i | 0 <= i < 3 * n :: Fits(args[i], 6)
    ensures Numbers(Rows(n)) == |args| && AllFit(Rows(n), args)
  {
    hide Fits, Numbers, AllFit;
    if n == 0 {
      NoRowsFit(args);
    } else {
      RowsFit(n - 1, args[3..]);
      assert args[2..][1..] == args[3..] && args[1..][1..] == args[2..];
      ColumnFits('\n', Rows(n - 1), args[2..]);
      ColumnFits(' ', Column('\n') + Rows(n - 1), args[1..]);
      ColumnFits(' ', Column(' ') + (Column('\n') + Rows(n - 1)), args);
    }
  }

  lemma NoRowsFit(args: seq<int>)
    requires |args| == 1
    ensures Numbers(Rows(0)) == 1 && AllFit(Rows(0), args)
  {
  }

  lemma StoredFits(p: Parameters)
    ensures forall i | 0 <= i < COUNT - 1 :: Fits(Stored(p)[i], 6)
  {
    hide Fits;
    forall i | 0 <= i < COUNT - 1
      ensures Fits(Stored(p)[i], 6)
    {
      assert -99999 <= Stored(p)[i] <= 999999;
      SixFits(Stored(p)[i]);
    }
  }

  // The line with the code.

  lemma CodeLineIs()
    ensures CODE_LINE[1..] == [Blank('\n')] && CODE_LINE[1..][1..] == []
    ensures CodeLine() == Padded(VERIFIED_CODE, 0) + ['\n']
    ensures Padded(VERIFIED_CODE, 0) == Digits(VERIFIED_CODE)
  {
    hide Digits;
    assert CODE_LINE[1..] == [Blank('\n')] && CODE_LINE[1..][1..] == [];
    assert [VERIFIED_CODE][1..] == [];
    assert Print([Blank('\n')], []) == ['\n'] + Print([], []);
    assert Print(CODE_LINE, [VERIFIED_CODE]) == Padded(VERIFIED_CODE, 0) + Print([Blank('\n')], []);
  }

  lemma CodeLineScanned(rest: string)
    ensures Scan(CODE_LINE, CodeLine() + rest) == Scanned([VERIFIED_CODE], Skip(rest))
  {
    hide ScanNumber, Found, Digits, Padded, CodeLine, Skip;
    CodeLineIs();
    var number, tail := Padded(VERIFIED_CODE, 0), ['\n'] + rest;
    assert CodeLine() + rest == number + tail;
    ScanPadded(VERIFIED_CODE, 0, tail);
    FoundAll(VERIFIED_CODE);
    var digits := Digits(VERIFIED_CODE);
    assert digits[..|digits|] == digits && digits[|digits|..] + tail == tail;
    SkipNewline(rest);
    assert Scan([Blank('\n')], tail) == Scanned([], Skip(tail));
    var none: seq<int> := [];
    assert [VERIFIED_CODE] + none == [VERIFIED_CODE];
    assert Scan(CODE_LINE, number + tail) == Scanned([VERIFIED_CODE], Skip(tail));
  }

  lemma SkipNewline(rest: string)
    ensures Skip(['\n'] + rest) == Skip(rest)
  {
    assert (['\n'] + rest)[1..] == rest;
  }

  lemma LoadAfterCode(rest: string, stale: int32, before: Parameters)
    ensures Load(CodeLine() + rest, stale, before)
            == var found := Scan(Rows(ROWS), rest).found;
               if |found| != COUNT then Loading(-3, before)
               else Loading(0, Loaded(found, ToLong(found[COUNT - 1])))
  {
    hide Scan, Loaded, Rows, CodeLine, Skip, Separated;
    CodeLineScanned(rest);
    RowsShape(ROWS);
    SkippedFirst(Rows(ROWS), rest);
  }

  /** A file that ends inside its first line, or right after it, is refused. */
  lemma LoadInsideCode(n: nat, stale: int32, before: Parameters)
    requires n <= |CodeLine()|
    ensures Load(CodeLine()[..n], stale, before)
            == Loading(if n < |CodeLine()| - 1 && (n > 0 || stale != VERIFIED_CODE) then -2 else -3, before)
  {
    hide Scan, Loaded, Print, Rows, Digits, CodeLine;
    if n == |CodeLine()| {
      LoadAfterCode("", stale, before);
      ScanNothing(Rows(ROWS));
      assert CodeLine() + "" == CodeLine()[..n];
    } else {
      CodeCut(n);
      CodeLineIs();
      ScanNothing(Rows(ROWS));
      assert forall v | 0 <= v <= VERIFIED_CODE :: ToLong(v) == v;
    }
  }

  lemma CodeCut(n: nat)
    requires n < |CodeLine()|
    ensures var head := Scan(CODE_LINE, CodeLine()[..n]);
            && head.rest == ""
            && (n == 0 ==> head.found == [])
            && (n > 0 ==> |head.found| == 1 && 0 <= head.found[0] <= VERIFIED_CODE)
            && (n > 0 ==> (head.found[0] == VERIFIED_CODE <==> n == |CodeLine()| - 1))
  {
    hide ScanNumber, Digits, Padded, CodeLine, Value;
    CodeLineIs();
    var number, digits := Padded(VERIFIED_CODE, 0), Digits(VERIFIED_CODE);
    assert CodeLine()[..n] == number[..n];
    ScanCut(VERIFIED_CODE, 0, n);
    ValueOfDigits(VERIFIED_CODE);
    NoLeadingZero(VERIFIED_CODE);
    assert DigitsStart(VERIFIED_CODE, 0) == 0;
    assert Scan([Blank('\n')], "") == Scanned([], "");
    if n < |digits| {
      ShorterIsSmaller(digits, n);
    } else {
      assert digits[..n] == digits;
    }
  }

  // The whole file.

  function Even(n: uint16): uint16 {
    n - n % 2
  }

  /** The acceleration gains are stored halved. */
  function Rounded(p: Parameters): Parameters {
    p.(aGain := UVector(Even(p.aGain.x), Even(p.aGain.y), Even(p.aGain.z)))
  }

  lemma GainBack(n: uint16)
    ensures ToUint16(n / 2 * 2) == Even(n)
  {
  }

  lemma OffsetBack(n: uint16)
    ensures ToUint16(n - SENSOR_OFFSET + SENSOR_OFFSET) == n
  {
  }

  lemma SignedBack(n: int16)
    ensures ToInt16(n) == n
  {
  }

  lemma LoadedStored(p: Parameters, radius: int32)
    ensures Loaded(Stored(p), radius) == Rounded(p).(magRadius := radius)
  {
    hide ToUint16, ToInt16, Even;
    GainBack(p.aGain.x); GainBack(p.aGain.y); GainBack(p.aGain.z);
    OffsetBack(p.aOffset.x); OffsetBack(p.aOffset.y); OffsetBack(p.aOffset.z);
    OffsetBack(p.mOffset.x); OffsetBack(p.mOffset.y); OffsetBack(p.mOffset.z);
    OffsetBack(p.mGain.x); OffsetBack(p.mGain.y); OffsetBack(p.mGain.z);
    OffsetBack(p.gainCor.x); OffsetBack(p.gainCor.y); OffsetBack(p.gainCor.z);
    SignedBack(p.usrAOffset.x); SignedBack(p.usrAOffset.y); SignedBack(p.usrAOffset.z);
    SignedBack(p.usrMOffset.x); SignedBack(p.usrMOffset.y); SignedBack(p.usrMOffset.z);
  }

  /** Saving and loading rounds the acceleration gains down to even numbers and changes nothing
      else, whatever the stale code and the parameters before; so it gives the parameters back
      exactly when the gains are even, and a second round trip always does. */
  lemma RoundTripIff(p: Parameters, stale: int32, before: Parameters)
    ensures Load(FileText(p), stale, before) == Loading(0, Rounded(p))
    ensures Load(FileText(p), stale, before).param == p
            <==> p.aGain.x % 2 == 0 && p.aGain.y % 2 == 0 && p.aGain.z % 2 == 0
    ensures Load(FileText(Rounded(p)), stale, before).param == Rounded(p)
  {
    hide Load, FileText;
    LoadFile(p, stale, before);
    LoadFile(Rounded(p), stale, before);
  }

  lemma LoadFile(p: Parameters, stale: int32, before: Parameters)
    ensures Load(FileText(p), stale, before) == Loading(0, Rounded(p))
  {
    hide Scan, Loaded, Stored, Print, Load, Rows;
    RowsShape(ROWS);
    StoredFits(p);
    RowsFit(ROWS, Stored(p));
    ScanPrintIff(Rows(ROWS), Stored(p));
    LoadAfterCode(Body(p), stale, before);
    LoadedStored(p, p.magRadius);
    LastStored(p);
  }

  lemma LastStored(p: Parameters)
    ensures Stored(p)[COUNT - 1] == p.magRadius
    ensures ToLong(p.magRadius) == p.magRadius
  {
  }

  // ---------------------------------------------------------------------
  // Where everything is in the file

  lemma ColumnPrinted(separator: char, rest: seq<Directive>, args: seq<int>)
    requires |args| == 1 + Numbers(rest)
    ensures Numbers(Column(separator) + rest) == |args|
    ensures Print(Column(separator) + rest, args) == Padded(args[0], 6) + [separator] + Print(rest, args[1..])
  {
    hide Padded;
    var format := Column(separator) + rest;
    assert format[1..] == [Blank(separator)] + rest && format[1..][1..] == rest;
    var tail := Print(rest, args[1..]);
    assert Print([Blank(separator)] + rest, args[1..]) == [separator] + tail;
    assert Padded(args[0], 6) + ([separator] + tail) == Padded(args[0], 6) + [separator] + tail;
  }

  lemma SixWide(n: int)
    requires Fits(n, 6)
    ensures |Padded(n, 6)| == 6
  {
  }

  lemma RowPrinted(n: nat, args: seq<int>)
    requires n > 0 && |args| == 3 * n + 1
    ensures Numbers(Rows(n)) == |args| && Numbers(Rows(n - 1)) == |args| - 3
    ensures Print(Rows(n), args) == Padded(args[0], 6) + [' '] + (Padded(args[1], 6) + [' ']
                                    + (Padded(args[2], 6) + ['\n'] + Print(Rows(n - 1), args[3..])))
  {
    hide Padded, Print, Numbers;
    RowsShape(n - 1);
    RowsShape(n);
    assert args[2..][1..] == args[3..] && args[1..][1..] == args[2..];
    ColumnPrinted('\n', Rows(n - 1), args[2..]);
    ColumnPrinted(' ', Column('\n') + Rows(n - 1), args[1..]);
    ColumnPrinted(' ', Column(' ') + (Column('\n') + Rows(n - 1)), args);
  }

  /** Number k is at its own place, seven characters a number, three numbers a line. */
  ghost predicate Laid(text: string, args: seq<int>, k: nat)
    requires k < |args| && |text| >= 7 * k + 7
  {
    && text[7 * k..7 * k + 6] == Padded(args[k], 6)
    && text[7 * k + 6] == if k % 3 == 2 then '\n' else ' '
  }

  lemma {:induction false} RowsLaid(n: nat, args: seq<int>)
    requires |args| == 3 * n + 1 && Numbers(Rows(n)) == |args|
    requires forall i | 0 <= i < 3 * n :: Fits(args[i], 6)
    ensures var text := Print(Rows(n), args);
            && |text| >= 21 * n && text[21 * n..] == Decimal(args[3 * n])
            && forall k | 0 <= k < 3 * n :: Laid(text, args, k)
  {
    hide Padded, Print, Numbers, Rows, Fits, Decimal;
    var text := Print(Rows(n), args);
    if n == 0 {
      NoRowsPrinted(args);
    } else {
      RowPrinted(n, args);
      RowsLaid(n - 1, args[3..]);
      SixWide(args[0]);
      SixWide(args[1]);
      SixWide(args[2]);
      var a, b, c, rest := Padded(args[0], 6), Padded(args[1], 6), Padded(args[2], 6), Print(Rows(n - 1), args[3..]);
      RowParts(a, b, c, rest);
      assert text[21 * n..] == text[21..][21 * (n - 1)..];
      forall k | 0 <= k < 3 * n
        ensures Laid(text, args, k)
      {
        if k >= 3 {
          assert Laid(rest, args[3..], k - 3);
          assert text[7 * k..7 * k + 6] == text[21..][7 * (k - 3)..7 * (k - 3) + 6];
          assert text[7 * k + 6] == text[21..][7 * (k - 3) + 6];
        }
      }
    }
  }

  lemma RowParts(a: string, b: string, c: string, rest: string)
    requires |a| == |b| == |c| == 6
    ensures var text := a + [' '] + (b + [' '] + (c + ['\n'] + rest));
            && |text| == 21 + |rest| && text[21..] == rest
            && text[..6] == a && text[6] == ' ' && text[7..13] == b && text[13] == ' '
            && text[14..20] == c && text[20] == '\n'
  {
  }

  lemma NoRowsPrinted(args: seq<int>)
    requires |args| == 1 && Numbers(Rows(0)) == 1
    ensures Print(Rows(0), args) == Decimal(args[0])
  {
    assert Spaces(0) + Decimal(args[0]) == Decimal(args[0]);
    assert Print([], args[1..]) == "";
  }

  lemma NextDigit(n: nat, d: nat)
    requires n > 0 && d < 10
    ensures Digits(10 * n + d) == Digits(n) + [('0' as int + d) as char]
  {
  }

  lemma CodeDigits()
    ensures CodeLine() == "989240\n"
  {
    hide CodeLine, Padded, Digits;
    CodeLineIs();
    FirstDigit();
    NextDigit(9, 8);
    NextDigit(98, 9);
    NextDigit(989, 2);
    NextDigit(9892, 4);
    NextDigit(98924, 0);
  }

  lemma FirstDigit()
    ensures Digits(9) == "9"
  {
  }

  /** The file, character by character: the code 989240 on a line, then the halved acceleration
      gains, the offsets less 2048, and the rest as it is, six characters each and three to a
      line, and the radius right behind them. */
  lemma FileLayout(p: Parameters, k: nat)
    requires k < 21
    ensures var text := FileText(p);
            var numbers := [
              p.aGain.x / 2, p.aGain.y / 2, p.aGain.z / 2,
              p.aOffset.x - 2048, p.aOffset.y - 2048, p.aOffset.z - 2048,
              p.mGain.x, p.mGain.y, p.mGain.z,
              p.mOffset.x - 2048, p.mOffset.y - 2048, p.mOffset.z - 2048,
              p.usrAOffset.x, p.usrAOffset.y, p.usrAOffset.z,
              p.usrMOffset.x, p.usrMOffset.y, p.usrMOffset.z,
              p.gainCor.x, p.gainCor.y, p.gainCor.z];
            && |text| >= 154 && text[..7] == "989240\n" && text[154..] == Decimal(p.magRadius)
            && text[7 + 7 * k..7 + 7 * k + 6] == Padded(numbers[k], 6) && |Padded(numbers[k], 6)| == 6
            && text[7 + 7 * k + 6] == if k % 3 == 2 then '\n' else ' '
  {
    hide Padded, Print, Numbers, Rows, Fits, Decimal, CodeLine;
    RowsShape(ROWS);
    StoredFits(p);
    RowsLaid(ROWS, Stored(p));
    LastStored(p);
    CodeDigits();
    SixWide(Stored(p)[k]);
    assert Laid(Body(p), Stored(p), k);
    Shifted(CodeLine(), Body(p), 7 * k);
    Shifted(CodeLine(), Body(p), 147);
  }

  lemma Shifted(head: string, body: string, i: nat)
    requires |head| == 7 && i <= |body|
    ensures (head + body)[..7] == head && (head + body)[7 + i..] == body[i..]
    ensures i + 7 <= |body| ==>
              (head + body)[7 + i..7 + i + 6] == body[i..i + 6] && (head + body)[7 + i + 6] == body[i + 6]
  {
  }

  // ---------------------------------------------------------------------
  // A file cut short

  /** Where the digits of the radius start, at the end of the file. */
  function RadiusStart(p: Parameters): int {
    |FileText(p)| - |Digits(Abs(p.magRadius))|
  }

  lemma RadiusInBody(p: Parameters)
    ensures EndsInNumber(Rows(ROWS)) && |Stored(p)| == Numbers(Rows(ROWS))
    ensures RadiusStart(p) == |CodeLine()| + LastStart(Rows(ROWS), Stored(p))
  {
    hide Rows, Stored, Print, Digits;
    RowsShape(ROWS);
    LastStored(p);
    LastNumber(Rows(ROWS), Stored(p));
  }

  /** Fewer digits of a radius. */
  lemma FewerDigits(radius: int32, k: nat)
    requires 0 < k < |Digits(Abs(radius))|
    ensures var v := Found(radius, Digits(Abs(radius))[..k]).value;
            Abs(v) < Abs(radius) && ToLong(v) == v
  {
    var digits := Digits(Abs(radius));
    assert radius != 0;
    NoLeadingZero(Abs(radius));
    ValueOfDigits(Abs(radius));
    ShorterIsSmaller(digits, k);
  }

  lemma SameButLast(data: seq<int>, v: int, radius: int32)
    requires |data| == COUNT
    ensures Loaded(data[..COUNT - 1] + [v], radius) == Loaded(data, radius)
  {
    hide ToUint16, ToInt16;
  }

  predicate RefusedFile(loading: Loading, before: Parameters) {
    (loading.ret == -2 || loading.ret == -3) && loading.param == before
  }

  /** Read back with too small a radius, and all else as it was saved. */
  predicate RadiusLost(loading: Loading, p: Parameters) {
    && loading.ret == 0
    && loading.param.(magRadius := p.magRadius) == Rounded(p)
    && Abs(loading.param.magRadius) < Abs(p.magRadius)
  }

  lemma CutInBody(p: Parameters, m: nat, stale: int32, before: Parameters)
    requires m < |Body(p)|
    ensures var loading := Load(CodeLine() + Body(p)[..m], stale, before);
            if |CodeLine()| + m <= RadiusStart(p) then RefusedFile(loading, before) else RadiusLost(loading, p)
  {
    hide Scan, Load, Loaded, Stored, Rows, Print, Digits, CodeLine, Found, AllFit, RadiusStart, LastStart;
    RowsShape(ROWS);
    StoredFits(p);
    RowsFit(ROWS, Stored(p));
    RadiusInBody(p);
    LastStored(p);
    LoadAfterCode(Body(p)[..m], stale, before);
    CutPrint(Rows(ROWS), Stored(p), m);
    BodyLength(p);
    var start := LastStart(Rows(ROWS), Stored(p));
    var found := Scan(Rows(ROWS), Body(p)[..m]).found;
    if m <= start {
      assert |found| < COUNT;
    } else {
      var v := Found(p.magRadius, Digits(Abs(p.magRadius))[..m - start]).value;
      FewerDigits(p.magRadius, m - start);
      assert found == Stored(p)[..COUNT - 1] + [v];
      SameButLast(Stored(p), v, v);
      LoadedStored(p, v);
    }
  }

  lemma BodyLength(p: Parameters)
    ensures EndsInNumber(Rows(ROWS)) && |Stored(p)| == Numbers(Rows(ROWS))
    ensures |Body(p)| - LastStart(Rows(ROWS), Stored(p)) == |Digits(Abs(p.magRadius))|
  {
    RadiusInBody(p);
  }

  /** A file that was cut short is refused, and the parameters are left alone, unless a digit
      of the radius is left; then it is accepted, with a radius that is always too small. */
  lemma TruncatedFile(p: Parameters, n: nat, stale: int32, before: Parameters)
    requires n < |FileText(p)|
    ensures var loading := Load(FileText(p)[..n], stale, before);
            if n <= RadiusStart(p) then RefusedFile(loading, before) else RadiusLost(loading, p)
  {
    hide Load, CodeLine, Body, RadiusStart, RadiusLost, LastStart, Rows, Stored;
    RadiusInBody(p);
    if n <= |CodeLine()| {
      assert FileText(p)[..n] == CodeLine()[..n];
      LoadInsideCode(n, stale, before);
    } else {
      var m := n - |CodeLine()|;
      assert FileText(p)[..n] == CodeLine() + Body(p)[..m];
      CutInBody(p, m, stale, before);
    }
  }
}
