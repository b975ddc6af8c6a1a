/** Decimal numbers and white space in text, printed as fprintf does and scanned as fscanf
    does (sections 7.19.6.1 and 7.19.6.2 of ISO/IEC 9899:1999). */
module FormattedText {
  import opened Basics

  /** A conversion such as %6d, or %ld with width 0, or a white-space character. */
  datatype Directive = Number(width: nat) | Blank(space: char)

  predicate IsSpace(c: char) {
    c == ' ' || '\t' <= c <= '\r'
  }

  predicate IsDigit(c: char) {
    '0' <= c <= '9'
  }

  predicate AllDigits(s: string) {
    forall i | 0 <= i < |s| :: IsDigit(s[i])
  }

  // ---------------------------------------------------------------------
  // Printing

  function Digits(n: nat): (s: string)
    ensures s != [] && AllDigits(s)
  {
    (if n < 10 then [] else Digits(n / 10)) + [('0' as int + n % 10) as char]
  }

  function Abs(n: int): nat {
    if n < 0 then -n else n
  }

  function Sign(n: int): (s: string)
    ensures |s| == if n < 0 then 1 else 0
  {
    if n < 0 then "-" else ""
  }

  function Decimal(n: int): string {
    Sign(n) + Digits(Abs(n))
  }

  function Spaces(n: nat): (s: string)
    ensures |s| == n
  {
    seq(n, i => ' ')
  }

  function Padding(n: int, width: nat): nat {
    if |Decimal(n)| < width then width - |Decimal(n)| else 0
  }

  function Padded(n: int, width: nat): string {
    Spaces(Padding(n, width)) + Decimal(n)
  }

  function Numbers(format: seq<Directive>): nat {
    if format == [] then 0 else (if format[0].Number? then 1 else 0) + Numbers(format[1..])
  }

  function Print(format: seq<Directive>, args: seq<int>): string
    requires |args| == Numbers(format)
  {
    if format == [] then ""
    else
      match format[0]
      case Blank(c) => [c] + Print(format[1..], args)
      case Number(w) => Padded(args[0], w) + Print(format[1..], args[1..])
  }

  // ---------------------------------------------------------------------
  // Scanning

  /** The text after its leading white space. */
  function Skip(text: string): (rest: string)
    ensures |rest| <= |text|
  {
    if text != [] && IsSpace(text[0]) then Skip(text[1..]) else text
  }

  /** The number of leading digits, up to a limit. */
  function Span(text: string, limit: nat): (n: nat)
    ensures n <= |text| && n <= limit && AllDigits(text[..n])
  {
    if limit == 0 || text == [] || !IsDigit(text[0]) then 0
    else
      var n := Span(text[1..], limit - 1);
      assert text[..n + 1] == [text[0]] + text[1..][..n];
      n + 1
  }

  function Value(digits: string): nat
    requires AllDigits(digits)
  {
    if digits == [] then 0
    else
      var last := |digits| - 1;
      10 * Value(digits[..last]) + (digits[last] as int - '0' as int)
  }

  datatype Scanned<T> = Scanned(found: T, rest: string)

  /** Leading digits, at most `limit` of them. */
  function ScanUnsigned(text: string, limit: nat): Scanned<Option<int>> {
    var n := Span(text, limit);
    Scanned(if n == 0 then None else Some(Value(text[..n])), text[n..])
  }

  predicate Signed(text: string) {
    text != [] && (text[0] == '-' || text[0] == '+')
  }

  function Negated(number: Option<int>): Option<int> {
    match number
    case None => None
    case Some(v) => Some(-v)
  }

  /** A number at the start of the text, of at most `width` characters with its sign. */
  function ScanNumber(text: string, width: nat): Scanned<Option<int>> {
    var limit: nat := if width == 0 then |text| else width;
    if Signed(text) then
      var number := ScanUnsigned(text[1..], limit - 1);
      Scanned(if text[0] == '-' then Negated(number.found) else number.found, number.rest)
    else ScanUnsigned(text, limit)
  }

  /** The numbers converted until the format ends or a conversion fails, and what is left. */
  function Scan(format: seq<Directive>, text: string): Scanned<seq<int>> {
    if format == [] then Scanned([], text)
    else
      match format[0]
      case Blank(_) => Scan(format[1..], Skip(text))
      case Number(w) =>
        var number := ScanNumber(Skip(text), w);
        match number.found
        case None => Scanned([], number.rest)
        case Some(v) =>
          var others := Scan(format[1..], number.rest);
          Scanned([v] + others.found, others.rest)
  }

  // ---------------------------------------------------------------------
  // Digits

  lemma {:induction false} ValueOfDigits(n: nat)
    ensures Value(Digits(n)) == n
  {
    var s := Digits(n);
    if n >= 10 {
      ValueOfDigits(n / 10);
      assert s[..|s| - 1] == Digits(n / 10);
    } else {
      assert s[..|s| - 1] == [];
    }
  }

  function Power10(k: nat): (p: nat)
    ensures p > 0
  {
    if k == 0 then 1 else 10 * Power10(k - 1)
  }

  /** How many digits a number takes. */
  lemma {:induction false} DigitsLength(n: nat, k: nat)
    requires k > 0
    ensures |Digits(n)| <= k <==> n < Power10(k)
  {
    if k == 1 {
      assert Power10(1) == 10 * Power10(0);
    } else if n >= 10 {
      DigitsLength(n / 10, k - 1);
    } else {
      assert Power10(k) == 10 * (10 * Power10(k - 2));
    }
  }

  lemma {:induction false} NoLeadingZero(n: nat)
    requires n > 0
    ensures Digits(n)[0] != '0'
  {
    if n >= 10 {
      NoLeadingZero(n / 10);
    }
  }

  lemma {:induction false} ValuePositive(s: string)
    requires AllDigits(s) && s != [] && s[0] != '0'
    ensures Value(s) > 0
  {
    if |s| > 1 {
      ValuePositive(s[..|s| - 1]);
    }
  }

  /** Cutting digits off the end of a number makes it smaller. */
  lemma {:induction false} ShorterIsSmaller(s: string, k: nat)
    requires AllDigits(s) && s != [] && s[0] != '0' && k < |s|
    ensures Value(s[..k]) < Value(s)
    decreases |s|
  {
    ValuePositive(s);
    var shorter := s[..|s| - 1];
    if shorter == [] {
      assert s[..k] == [];
    } else {
      ValuePositive(shorter);
      if k < |shorter| {
        ShorterIsSmaller(shorter, k);
        assert shorter[..k] == s[..k];
      }
    }
  }

  // ---------------------------------------------------------------------
  // One number

  lemma {:induction false} SkipSpaces(n: nat, text: string)
    ensures Skip(Spaces(n) + text) == Skip(text)
  {
    if n == 0 {
      assert Spaces(n) + text == text;
    } else {
      SkipSpaces(n - 1, text);
      assert (Spaces(n) + text)[1..] == Spaces(n - 1) + text;
    }
  }

  lemma {:induction false} SkipTwice(text: string)
    ensures Skip(Skip(text)) == Skip(text)
  {
    if text != [] && IsSpace(text[0]) {
      SkipTwice(text[1..]);
    }
  }

  predicate StartsWithDigit(text: string) {
    text != [] && IsDigit(text[0])
  }

  lemma {:induction false} SpanOfDigits(digits: string, tail: string, limit: nat)
    requires AllDigits(digits)
    requires |digits| < limit ==> !StartsWithDigit(tail)
    ensures Span(digits + tail, limit) == if limit <= |digits| then limit else |digits|
  {
    if digits == [] {
      assert digits + tail == tail;
    } else if limit > 0 {
      SpanOfDigits(digits[1..], tail, limit - 1);
      assert (digits + tail)[1..] == digits[1..] + tail;
    }
  }

  /** How many digits of a number with this sign a conversion of this width takes. */
  function Room(n: int, digits: string, width: nat): (room: nat)
    ensures room <= |digits|
  {
    if width == 0 || |Sign(n)| + |digits| <= width then |digits| else width - |Sign(n)|
  }

  lemma ScanUnsignedDigits(digits: string, tail: string, limit: nat)
    requires AllDigits(digits)
    requires |digits| < limit ==> !StartsWithDigit(tail)
    ensures var room := if limit <= |digits| then limit else |digits|;
            && AllDigits(digits[..room])
            && ScanUnsigned(digits + tail, limit)
               == Scanned(if room == 0 then None else Some(Value(digits[..room])), digits[room..] + tail)
  {
    SpanOfDigits(digits, tail, limit);
    var room := if limit <= |digits| then limit else |digits|;
    assert (digits + tail)[..room] == digits[..room];
    assert (digits + tail)[room..] == digits[room..] + tail;
  }

  /** What scanning a sign and some digits finds, with room for so many of the digits. */
  function Found(n: int, digits: string): Option<int>
    requires AllDigits(digits)
  {
    if digits == [] then None
    else
      var v: int := Value(digits);
      Some(if n < 0 then -v else v)
  }

  /** Scanning a sign and some digits takes the sign and at most `width` characters in all. */
  lemma ScanDigits(n: int, digits: string, tail: string, width: nat)
    requires AllDigits(digits) && !StartsWithDigit(tail)
    requires digits != [] || n < 0 || !Signed(tail)
    ensures var room := Room(n, digits, width);
            && AllDigits(digits[..room])
            && ScanNumber(Sign(n) + digits + tail, width) == Scanned(Found(n, digits[..room]), digits[room..] + tail)
  {
    hide Span, Value, ScanUnsigned, Room;
    var text := Sign(n) + digits + tail;
    var limit: nat := if width == 0 then |text| else width;
    if n < 0 {
      assert text[0] == '-' && text[1..] == digits + tail;
      ScanUnsignedDigits(digits, tail, limit - 1);
      RoomIs(n, digits, width, |tail|);
    } else {
      assert text == digits + tail;
      assert !Signed(text) by {
        if digits == [] {
          assert text == tail;
        } else {
          assert text[0] == digits[0];
        }
      }
      ScanUnsignedDigits(digits, tail, limit);
      RoomIs(n, digits, width, |tail|);
    }
  }

  lemma RoomIs(n: int, digits: string, width: nat, more: nat)
    ensures var limit := if width == 0 then |digits| + more else width - |Sign(n)|;
            Room(n, digits, width) == if limit <= |digits| then limit else |digits|
  {
  }

  lemma FoundAll(n: int)
    ensures Found(n, Digits(Abs(n))) == Some(n)
  {
    ValueOfDigits(Abs(n));
  }

  lemma SkipPadding(n: int, width: nat, digits: string, tail: string)
    requires AllDigits(digits) && (digits != [] || n < 0)
    ensures Skip(Spaces(Padding(n, width)) + (Sign(n) + digits + tail)) == Sign(n) + digits + tail
  {
    var text := Sign(n) + digits + tail;
    SkipSpaces(Padding(n, width), text);
    assert text[0] == if n < 0 then '-' else digits[0];
  }

  predicate Fits(n: int, width: nat) {
    width == 0 || |Decimal(n)| <= width
  }

  /** A printed number followed by anything but a digit. */
  lemma ScanPadded(n: int, width: nat, tail: string)
    requires !StartsWithDigit(tail)
    ensures var digits := Digits(Abs(n));
            var room := Room(n, digits, width);
            && ScanNumber(Skip(Padded(n, width) + tail), width)
               == Scanned(Found(n, digits[..room]), digits[room..] + tail)
            && (room == |digits| <==> Fits(n, width))
  {
    hide ScanNumber, Skip, Digits, Found;
    var digits := Digits(Abs(n));
    assert Padded(n, width) + tail == Spaces(Padding(n, width)) + (Sign(n) + digits + tail);
    SkipPadding(n, width, digits, tail);
    ScanDigits(n, digits, tail, width);
  }

  /** The place in a printed number where its digits start. */
  function DigitsStart(n: int, width: nat): nat {
    Padding(n, width) + |Sign(n)|
  }

  /** A printed number cut short reads as the digits that are left. */
  lemma ScanCut(n: int, width: nat, k: nat)
    requires Fits(n, width) && k <= |Padded(n, width)|
    ensures var left := if k < DigitsStart(n, width) then 0 else k - DigitsStart(n, width);
            && left <= |Digits(Abs(n))|
            && ScanNumber(Skip(Padded(n, width)[..k]), width) == Scanned(Found(n, Digits(Abs(n))[..left]), "")
  {
    hide ScanNumber, Skip, Digits;
    var digits, pad, start := Digits(Abs(n)), Padding(n, width), DigitsStart(n, width);
    if k <= pad && k <= start && (n < 0 ==> k < start) {
      CutInPadding(n, width, k);
    } else {
      var left := digits[..k - start];
      assert Padded(n, width)[..k] == Spaces(pad) + (Sign(n) + left + "");
      SkipPadding(n, width, left, "");
      ScanDigits(n, left, "", width);
      assert Room(n, left, width) == |left| && left[..|left|] == left;
      assert left[|left|..] + "" == "";
    }
  }

  lemma CutInPadding(n: int, width: nat, k: nat)
    requires k <= Padding(n, width)
    ensures ScanNumber(Skip(Padded(n, width)[..k]), width) == Scanned(None, "")
  {
    assert Padded(n, width)[..k] == Spaces(k) + "";
    SkipSpaces(k, "");
  }

  // ---------------------------------------------------------------------
  // A whole format

  /** White space after every number but the last, and no other ordinary characters. */
  predicate Separated(format: seq<Directive>) {
    && (forall i | 0 <= i < |format| - 1 && format[i].Number? :: format[i + 1].Blank?)
    && (forall i | 0 <= i < |format| && format[i].Blank? :: IsSpace(format[i].space))
  }

  predicate AllFit(format: seq<Directive>, args: seq<int>)
    requires |args| == Numbers(format)
  {
    format == []
    || match format[0]
       case Blank(_) => AllFit(format[1..], args)
       case Number(w) => Fits(args[0], w) && AllFit(format[1..], args[1..])
  }

  lemma TailAfterNumber(format: seq<Directive>, args: seq<int>)
    requires Separated(format) && |args| == Numbers(format) && (format == [] || format[0].Blank?)
    ensures !StartsWithDigit(Print(format, args))
  {
  }

  lemma SkippedFirst(format: seq<Directive>, text: string)
    requires format != []
    ensures Scan(format, Skip(text)) == Scan(format, text)
  {
    SkipTwice(text);
  }

  /** Too narrow a conversion finds another number, or none. */
  lemma NarrowFindsAnother(n: int, width: nat)
    requires !Fits(n, width)
    ensures Found(n, Digits(Abs(n))[..Room(n, Digits(Abs(n)), width)]) != Some(n)
  {
    var digits := Digits(Abs(n));
    NoLeadingZero(Abs(n));
    ValueOfDigits(Abs(n));
    ShorterIsSmaller(digits, Room(n, digits, width));
  }

  /** Scanning what was printed gives the numbers back exactly when each fits its width. */
  lemma {:induction false} ScanPrintIff(format: seq<Directive>, args: seq<int>)
    requires Separated(format) && |args| == Numbers(format)
    ensures Scan(format, Print(format, args)).found == args <==> AllFit(format, args)
  {
    hide Padded, ScanNumber, Skip, Found, Digits, Room, Fits;
    if format != [] {
      var rest := format[1..];
      match format[0]
      case Blank(c) =>
        ScanPrintIff(rest, args);
        assert Print(format, args)[1..] == Print(rest, args);
        ScanAfterBlank(rest, c, Print(rest, args));
      case Number(w) =>
        var text := Print(rest, args[1..]);
        TailAfterNumber(rest, args[1..]);
        ScanPadded(args[0], w, text);
        if Fits(args[0], w) {
          FoundAll(args[0]);
          ScanPrintIff(rest, args[1..]);
          var digits := Digits(Abs(args[0]));
          assert digits[..|digits|] == digits && digits[|digits|..] + text == text;
          var others := Scan(rest, text).found;
          assert args == [args[0]] + args[1..] && ([args[0]] + others)[1..] == others;
        } else {
          NarrowFindsAnother(args[0], w);
        }
    }
  }

  lemma ScanAfterBlank(format: seq<Directive>, c: char, text: string)
    requires IsSpace(c)
    ensures Scan(format, Skip([c] + text)).found == Scan(format, text).found
  {
    assert ([c] + text)[1..] == text;
    if format != [] {
      SkippedFirst(format, text);
    }
  }

  // ---------------------------------------------------------------------
  // A print cut short

  predicate EndsInNumber(format: seq<Directive>) {
    format != [] && format[|format| - 1].Number?
  }

  lemma {:induction false} LastNumber(format: seq<Directive>, args: seq<int>)
    requires EndsInNumber(format) && |args| == Numbers(format)
    ensures args != [] && |Digits(Abs(args[|args| - 1]))| <= |Print(format, args)|
  {
    hide Digits;
    if |format| > 1 {
      LastNumber(format[1..], if format[0].Blank? then args else args[1..]);
    }
  }

  /** Where the digits of the last number start. */
  function LastStart(format: seq<Directive>, args: seq<int>): nat
    requires EndsInNumber(format) && |args| == Numbers(format)
  {
    LastNumber(format, args);
    |Print(format, args)| - |Digits(Abs(args[|args| - 1]))|
  }

  lemma {:induction false} ScanNothing(format: seq<Directive>)
    ensures Scan(format, "").found == []
  {
    if format != [] && format[0].Blank? {
      ScanNothing(format[1..]);
    }
  }

  /** What is converted of a print cut short: if the cut leaves a digit of the last number,
      then all numbers, the last one with the digits left of it; otherwise too few. */
  predicate ConvertsCut(format: seq<Directive>, args: seq<int>, n: nat)
    requires EndsInNumber(format) && |args| == Numbers(format) && n <= |Print(format, args)|
  {
    LastNumber(format, args);
    var start, last := LastStart(format, args), args[|args| - 1];
    var found := Scan(format, Print(format, args)[..n]).found;
    if n <= start then |found| < |args|
    else Found(last, Digits(Abs(last))[..n - start]).Some?
         && found == args[..|args| - 1] + [Found(last, Digits(Abs(last))[..n - start]).value]
  }

  lemma StartAfterBlank(format: seq<Directive>, args: seq<int>)
    requires EndsInNumber(format) && |args| == Numbers(format) && format[0].Blank?
    ensures EndsInNumber(format[1..]) && |args| == Numbers(format[1..])
    ensures LastStart(format, args) == 1 + LastStart(format[1..], args)
  {
    hide Digits;
  }

  lemma CutBlank(format: seq<Directive>, args: seq<int>, n: nat)
    requires Separated(format) && EndsInNumber(format) && |args| == Numbers(format)
    requires format[0].Blank? && n <= |Print(format, args)|
    requires n > 0 ==> ConvertsCut(format[1..], args, n - 1)
    ensures ConvertsCut(format, args, n)
  {
    hide Digits, Found, Skip, ScanNumber, Padded, LastStart;
    var text, c := Print(format[1..], args), format[0].space;
    assert Print(format, args) == [c] + text;
    StartAfterBlank(format, args);
    if n == 0 {
      ScanNothing(format);
    } else {
      assert Print(format, args)[..n] == [c] + text[..n - 1];
      ScanAfterBlank(format[1..], c, text[..n - 1]);
    }
  }

  lemma CutLast(format: seq<Directive>, args: seq<int>, n: nat)
    requires EndsInNumber(format) && |format| == 1 && |args| == Numbers(format)
    requires n <= |Print(format, args)| && AllFit(format, args)
    ensures ConvertsCut(format, args, n)
  {
    hide ScanNumber, Digits, Padding;
    var w, last := format[0].width, args[0];
    assert format == [Number(w)] && |args| == 1;
    assert Print(format, args) == Padded(last, w);
    ScanCut(last, w, n);
    var start, digits := LastStart(format, args), Digits(Abs(last));
    assert start == DigitsStart(last, w);
    if n <= start {
      assert digits[..0] == [];
      assert Scan(format, Print(format, args)[..n]).found == [];
    } else {
      ScanNothing(format[1..]);
      assert args[..|args| - 1] == [];
    }
  }

  /** A cut behind the first number: the rest is cut, and the number is found whole. */
  lemma CutBehindNumber(first: int, width: nat, rest: seq<Directive>, tail: string)
    requires Fits(first, width) && !StartsWithDigit(tail)
    ensures Scan([Number(width)] + rest, Padded(first, width) + tail).found == [first] + Scan(rest, tail).found
  {
    hide ScanNumber, Padded, Digits, Found, Skip;
    ScanPadded(first, width, tail);
    FoundAll(first);
    var digits := Digits(Abs(first));
    assert digits[..|digits|] == digits && digits[|digits|..] + tail == tail;
    assert ([Number(width)] + rest)[1..] == rest;
  }

  /** A cut inside it: at most it is found, and nothing behind it. */
  lemma CutInsideNumber(first: int, width: nat, rest: seq<Directive>, n: nat)
    requires Fits(first, width) && n <= |Padded(first, width)|
    ensures |Scan([Number(width)] + rest, Padded(first, width)[..n]).found| <= 1
  {
    hide ScanNumber, Padded, Digits, Found, Skip;
    ScanCut(first, width, n);
    ScanNothing(rest);
    assert ([Number(width)] + rest)[1..] == rest;
  }

  lemma CutNumber(format: seq<Directive>, args: seq<int>, n: nat)
    requires Separated(format) && EndsInNumber(format) && |args| == Numbers(format)
    requires |format| > 1 && format[0].Number? && AllFit(format, args)
    requires n <= |Print(format, args)|
    requires var p := |Padded(args[0], format[0].width)|; n >= p ==> ConvertsCut(format[1..], args[1..], n - p)
    ensures ConvertsCut(format, args, n)
  {
    hide Scan, Padded, Digits, Found, Fits;
    var w, first, rest := format[0].width, args[0], format[1..];
    var number, text := Padded(first, w), Print(rest, args[1..]);
    LastNumber(rest, args[1..]);
    assert format == [Number(w)] + rest && Print(format, args) == number + text;
    if n >= |number| {
      var tail := text[..n - |number|];
      assert Print(format, args)[..n] == number + tail;
      TailAfterNumber(rest, args[1..]);
      CutBehindNumber(first, w, rest, tail);
    } else {
      assert Print(format, args)[..n] == number[..n];
      CutInsideNumber(first, w, rest, n);
    }
  }

  lemma {:induction false} CutPrint(format: seq<Directive>, args: seq<int>, n: nat)
    requires Separated(format) && EndsInNumber(format) && |args| == Numbers(format)
    requires AllFit(format, args) && n <= |Print(format, args)|
    ensures ConvertsCut(format, args, n)
  {
    hide ConvertsCut, Padded, Fits;
    if format[0].Blank? {
      if n > 0 {
        CutPrint(format[1..], args, n - 1);
      }
      CutBlank(format, args, n);
    } else if |format| == 1 {
      CutLast(format, args, n);
    } else {
      var p := |Padded(args[0], format[0].width)|;
      if n >= p {
        CutPrint(format[1..], args[1..], n - p);
      }
      CutNumber(format, args, n);
    }
  }
}
