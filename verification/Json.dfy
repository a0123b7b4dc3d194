/**
  JSON text as Python's json module writes and reads it (RFC 8259), restricted to the values
  a context can hold: no floats, and object keys that are strings.

  A Python str is a sequence of code points, lone surrogates included. Texts are printed in
  front of a given remainder, so that a scanner that consumes what a printer wrote can be
  stated without splitting sequences.
*/
module Json {
  import opened Wrappers

  type CodePoint = n: int | 0 <= n < 0x11_0000
  type Text = seq<CodePoint>

  const QUOTE: CodePoint := 34
  const BACKSLASH: CodePoint := 92
  const COMMA: CodePoint := 44
  const COLON: CodePoint := 58
  const SPACE: CodePoint := 32
  const OPEN_BRACKET: CodePoint := 91
  const CLOSE_BRACKET: CodePoint := 93
  const OPEN_BRACE: CodePoint := 123
  const CLOSE_BRACE: CodePoint := 125
  const MINUS: CodePoint := 45
  const LETTER_U: CodePoint := 117
  const TRUE_TEXT: Text := [116, 114, 117, 101]
  const FALSE_TEXT: Text := [102, 97, 108, 115, 101]
  const NULL_TEXT: Text := [110, 117, 108, 108]

  /** A JSON value; an object keeps its fields in insertion order, as a Python dict does. */
  datatype Json =
    | Null
    | Bool(b: bool)
    | Num(n: int)
    | Str(s: Text)
    | Arr(items: seq<Json>)
    | Obj(fields: seq<Field>)

  datatype Field = Field(key: Text, value: Json)

  // ---------- Printing: json.dumps with its default separators and ensure_ascii ----------

  function HexDigit(d: int): (c: CodePoint)
    requires 0 <= d < 16
    ensures IsDigit(c) || 97 <= c <= 102
  {
    if d < 10 then 48 + d else 87 + d
  }

  /** The six characters of a \uXXXX escape. */
  function PrintUnit(u: int, rest: Text): Text
    requires 0 <= u < 0x1_0000
  {
    [BACKSLASH, LETTER_U, HexDigit(u / 16 / 16 / 16), HexDigit(u / 16 / 16 % 16),
     HexDigit(u / 16 % 16), HexDigit(u % 16)] + rest
  }

  /** The letter after the backslash in a two-character escape. */
  function ShortEscape(c: CodePoint): Option<CodePoint> {
    if c == QUOTE || c == BACKSLASH then Some(c)
    else if c == 8 then Some(98)
    else if c == 9 then Some(116)
    else if c == 10 then Some(110)
    else if c == 12 then Some(102)
    else if c == 13 then Some(114)
    else None
  }

  function PrintChar(c: CodePoint, rest: Text): Text {
    if ShortEscape(c).Some? then [BACKSLASH, ShortEscape(c).value] + rest
    else if 32 <= c <= 126 then [c] + rest
    else if c < 0x1_0000 then PrintUnit(c, rest)
    else PrintUnit(0xD800 + (c - 0x1_0000) / 0x400, PrintUnit(0xDC00 + (c - 0x1_0000) % 0x400, rest))
  }

  function PrintChars(s: Text, rest: Text): Text {
    if s == [] then rest else PrintChar(s[0], PrintChars(s[1..], rest))
  }

  function PrintText(s: Text, rest: Text): Text {
    [QUOTE] + PrintChars(s, [QUOTE] + rest)
  }

  function PrintNat(n: nat, rest: Text): Text {
    if n < 10 then [48 + n] + rest else PrintNat(n / 10, [48 + n % 10] + rest)
  }

  function PrintInt(n: int, rest: Text): Text {
    if n < 0 then [MINUS] + PrintNat(-n, rest) else PrintNat(n, rest)
  }

  function Print(v: Json, rest: Text): Text
    decreases v, 1
  {
    match v
    case Null => NULL_TEXT + rest
    case Bool(b) => (if b then TRUE_TEXT else FALSE_TEXT) + rest
    case Num(n) => PrintInt(n, rest)
    case Str(s) => PrintText(s, rest)
    case Arr(items) =>
      [OPEN_BRACKET] + (if items == [] then [CLOSE_BRACKET] + rest else PrintItems(items, [CLOSE_BRACKET] + rest))
    case Obj(fields) =>
      [OPEN_BRACE] + (if fields == [] then [CLOSE_BRACE] + rest else PrintFields(fields, [CLOSE_BRACE] + rest))
  }

  function PrintItems(items: seq<Json>, rest: Text): Text
    requires items != []
    decreases items, 0
  {
    if |items| == 1 then Print(items[0], rest)
    else Print(items[0], [COMMA, SPACE] + PrintItems(items[1..], rest))
  }

  function PrintFields(fields: seq<Field>, rest: Text): Text
    requires fields != []
    decreases fields, 0
  {
    var value := Print(fields[0].value,
      if |fields| == 1 then rest else [COMMA, SPACE] + PrintFields(fields[1..], rest));
    PrintText(fields[0].key, [COLON, SPACE] + value)
  }

  function Dumps(v: Json): Text {
    Print(v, [])
  }

  // ---------- Reading: json.loads ----------

  datatype Scan<T> = Fail | Got(value: T, rest: Text)

  function Prepend(c: CodePoint, tail: Scan<Text>): Scan<Text> {
    match tail
    case Fail => Fail
    case Got(s, rest) => Got([c] + s, rest)
  }

  function HexValue(c: CodePoint): (r: Option<int>)
    ensures r.Some? ==> 0 <= r.value < 16
  {
    if 48 <= c <= 57 then Some(c - 48)
    else if 97 <= c <= 102 then Some(c - 87)
    else if 65 <= c <= 70 then Some(c - 55)
    else None
  }

  function ScanUnit(s: Text): (u: Option<int>)
    ensures u.Some? ==> |s| >= 4 && 0 <= u.value < 0x1_0000
  {
    if |s| < 4 then None
    else if HexValue(s[0]).None? || HexValue(s[1]).None? || HexValue(s[2]).None? || HexValue(s[3]).None? then None
    else Some(((HexValue(s[0]).value * 16 + HexValue(s[1]).value) * 16 + HexValue(s[2]).value) * 16
              + HexValue(s[3]).value)
  }

  function ShortUnescape(c: CodePoint): Option<CodePoint> {
    if c == QUOTE || c == BACKSLASH || c == 47 then Some(c)
    else if c == 98 then Some(8)
    else if c == 102 then Some(12)
    else if c == 110 then Some(10)
    else if c == 114 then Some(13)
    else if c == 116 then Some(9)
    else None
  }

  predicate IsHigh(u: int) { 0xD800 <= u < 0xDC00 }
  predicate IsLow(u: int) { 0xDC00 <= u < 0xE000 }

  function Join(high: int, low: int): CodePoint
    requires IsHigh(high) && IsLow(low)
  {
    0x1_0000 + (high - 0xD800) * 0x400 + (low - 0xDC00)
  }

  /** The body of a string literal, up to and past its closing quote. */
  function ScanChars(s: Text): (r: Scan<Text>)
    ensures r.Got? ==> |r.rest| < |s|
    decreases |s|
  {
    if s == [] || s[0] < 32 then Fail
    else if s[0] == QUOTE then Got([], s[1..])
    else if s[0] != BACKSLASH then Prepend(s[0], ScanChars(s[1..]))
    else if |s| < 2 then Fail
    else if s[1] != LETTER_U then
      match ShortUnescape(s[1])
      case None => Fail
      case Some(c) => Prepend(c, ScanChars(s[2..]))
    else
      match ScanUnit(s[2..])
      case None => Fail
      case Some(u) =>
        if IsHigh(u) && |s| >= 8 && s[6] == BACKSLASH && s[7] == LETTER_U then
          match ScanUnit(s[8..])
          case None => Fail
          case Some(l) =>
            if IsLow(l) then Prepend(Join(u, l), ScanChars(s[12..]))
            else Prepend(u, ScanChars(s[6..]))
        else Prepend(u, ScanChars(s[6..]))
  }

  predicate IsDigit(c: CodePoint) { 48 <= c <= 57 }

  function ScanDigits(n: nat, s: Text): (r: Scan<nat>)
    ensures r.Got? && |r.rest| <= |s|
    decreases |s|
  {
    if s != [] && IsDigit(s[0]) then ScanDigits(10 * n + (s[0] - 48), s[1..]) else Got(n, s)
  }

  function ScanNat(s: Text): (r: Scan<nat>)
    ensures r.Got? ==> |r.rest| < |s|
  {
    if s == [] || !IsDigit(s[0]) then Fail
    else if s[0] == 48 then Got(0, s[1..])
    else ScanDigits(s[0] - 48, s[1..])
  }

  function ScanInt(s: Text): (r: Scan<Json>)
    ensures r.Got? ==> |r.rest| < |s|
  {
    if s != [] && s[0] == MINUS then
      match ScanNat(s[1..])
      case Fail => Fail
      case Got(n, rest) => Got(Num(0 - n as int), rest)
    else
      match ScanNat(s)
      case Fail => Fail
      case Got(n, rest) => Got(Num(n), rest)
  }

  function SkipSpace(s: Text): (r: Text)
    ensures |r| <= |s|
    decreases |s|
  {
    if s != [] && (s[0] == SPACE || s[0] == 9 || s[0] == 10 || s[0] == 13) then SkipSpace(s[1..]) else s
  }

  /** Setting a key of a dict: the position of an existing key is kept. */
  function DictSet(fields: seq<Field>, key: Text, value: Json): seq<Field> {
    if fields == [] then [Field(key, value)]
    else if fields[0].key == key then [Field(key, value)] + fields[1..]
    else [fields[0]] + DictSet(fields[1..], key, value)
  }

  function ScanValue(s: Text): (r: Scan<Json>)
    ensures r.Got? ==> |r.rest| < |s|
    decreases |s|, 1
  {
    if s == [] then Fail
    else if s[0] == QUOTE then
      match ScanChars(s[1..])
      case Fail => Fail
      case Got(t, rest) => Got(Str(t), rest)
    else if s[0] == OPEN_BRACE then
      var inner := SkipSpace(s[1..]);
      if inner != [] && inner[0] == CLOSE_BRACE then Got(Obj([]), inner[1..]) else ScanFields(inner, [])
    else if s[0] == OPEN_BRACKET then
      var inner := SkipSpace(s[1..]);
      if inner != [] && inner[0] == CLOSE_BRACKET then Got(Arr([]), inner[1..]) else ScanItems(inner, [])
    else if NULL_TEXT <= s then Got(Null, s[4..])
    else if TRUE_TEXT <= s then Got(Bool(true), s[4..])
    else if FALSE_TEXT <= s then Got(Bool(false), s[5..])
    else ScanInt(s)
  }

  function ScanItems(s: Text, items: seq<Json>): (r: Scan<Json>)
    ensures r.Got? ==> |r.rest| < |s|
    decreases |s|, 2
  {
    match ScanValue(s)
    case Fail => Fail
    case Got(v, rest) =>
      var next := SkipSpace(rest);
      if next == [] then Fail
      else if next[0] == CLOSE_BRACKET then Got(Arr(items + [v]), next[1..])
      else if next[0] == COMMA then ScanItems(SkipSpace(next[1..]), items + [v])
      else Fail
  }

  function ScanFields(s: Text, fields: seq<Field>): (r: Scan<Json>)
    ensures r.Got? ==> |r.rest| < |s|
    decreases |s|, 2
  {
    if s == [] || s[0] != QUOTE then Fail
    else
      match ScanChars(s[1..])
      case Fail => Fail
      case Got(key, afterKey) =>
        var colon := SkipSpace(afterKey);
        if colon == [] || colon[0] != COLON then Fail
        else
          match ScanValue(SkipSpace(colon[1..]))
          case Fail => Fail
          case Got(v, rest) =>
            var next := SkipSpace(rest);
            if next == [] then Fail
            else if next[0] == CLOSE_BRACE then Got(Obj(DictSet(fields, key, v)), next[1..])
            else if next[0] == COMMA then ScanFields(SkipSpace(next[1..]), DictSet(fields, key, v))
            else Fail
  }

  function Loads(s: Text): Option<Json> {
    match ScanValue(SkipSpace(s))
    case Fail => None
    case Got(v, rest) => if SkipSpace(rest) == [] then Some(v) else None
  }

  // ---------- What a printed value reads back as ----------

  /** An adjacent high and low surrogate are written as the escapes of one astral character. */
  function Merge(s: Text): Text {
    if s == [] then []
    else if |s| >= 2 && IsHigh(s[0]) && IsLow(s[1]) then [Join(s[0], s[1])] + Merge(s[2..])
    else [s[0]] + Merge(s[1..])
  }

  function Load(v: Json): Json
    decreases v, 1
  {
    match v
    case Str(s) => Str(Merge(s))
    case Arr(items) => Arr(LoadItems(items, []))
    case Obj(fields) => Obj(LoadFields(fields, []))
    case _ => v
  }

  function LoadItems(items: seq<Json>, acc: seq<Json>): seq<Json>
    decreases items, 0
  {
    if items == [] then acc else LoadItems(items[1..], acc + [Load(items[0])])
  }

  function LoadFields(fields: seq<Field>, acc: seq<Field>): seq<Field>
    decreases fields, 0
  {
    if fields == [] then acc
    else LoadFields(fields[1..], DictSet(acc, Merge(fields[0].key), Load(fields[0].value)))
  }

  lemma DigitRoundTrip(d: int)
    requires 0 <= d < 16
    ensures HexValue(HexDigit(d)) == Some(d)
  {
  }

  lemma UnitRoundTrip(u: int, rest: Text)
    requires 0 <= u < 0x1_0000
    ensures var p := PrintUnit(u, rest);
            |p| == 6 + |rest| && p[0] == BACKSLASH && p[1] == LETTER_U && p[6..] == rest && ScanUnit(p[2..]) == Some(u)
  {
    var p := PrintUnit(u, rest);
    DigitRoundTrip(u / 16 / 16 / 16);
    DigitRoundTrip(u / 16 / 16 % 16);
    DigitRoundTrip(u / 16 % 16);
    DigitRoundTrip(u % 16);
    assert |p[2..]| >= 4 && p[2..][0] == p[2] && p[2..][1] == p[3] && p[2..][2] == p[4] && p[2..][3] == p[5];
  }

  lemma PlainUnit(u: int, rest: Text)
    requires 0 <= u < 0x1_0000
    requires IsHigh(u) && |rest| >= 2 && rest[0] == BACKSLASH && rest[1] == LETTER_U ==>
               ScanUnit(rest[2..]).Some? && !IsLow(ScanUnit(rest[2..]).value)
    ensures ScanChars(PrintUnit(u, rest)) == Prepend(u, ScanChars(rest))
  {
    var p := PrintUnit(u, rest);
    UnitRoundTrip(u, rest);
    if |rest| >= 2 {
      assert p[6] == rest[0] && p[7] == rest[1];
      assert p[8..] == rest[2..];
    }
  }

  lemma PairedUnits(h: int, l: int, rest: Text)
    requires IsHigh(h) && IsLow(l)
    ensures ScanChars(PrintUnit(h, PrintUnit(l, rest))) == Prepend(Join(h, l), ScanChars(rest))
  {
    var low := PrintUnit(l, rest);
    var p := PrintUnit(h, low);
    UnitRoundTrip(h, low);
    UnitRoundTrip(l, rest);
    assert p[6] == low[0] && p[7] == low[1];
    assert p[8..] == low[2..];
    assert p[12..] == low[6..];
  }

  /** How a printed character starts, which decides whether the scanner joins units. */
  lemma FirstUnitOfChar(c: CodePoint, rest: Text)
    requires !IsLow(c)
    ensures var p := PrintChar(c, rest);
            |p| >= 2 && p[0] == BACKSLASH && p[1] == LETTER_U ==>
              ScanUnit(p[2..]).Some? && !IsLow(ScanUnit(p[2..]).value)
  {
    var p := PrintChar(c, rest);
    if ShortEscape(c).Some? {
      assert p[1] != LETTER_U;
    } else if 32 <= c <= 126 {
      assert p[0] != BACKSLASH;
    } else if c < 0x1_0000 {
      UnitRoundTrip(c, rest);
    } else {
      AstralSplit(c);
      UnitRoundTrip(0xD800 + (c - 0x1_0000) / 0x400, PrintUnit(0xDC00 + (c - 0x1_0000) % 0x400, rest));
    }
  }

  lemma AstralSplit(c: CodePoint)
    requires c >= 0x1_0000
    ensures var h, l := 0xD800 + (c - 0x1_0000) / 0x400, 0xDC00 + (c - 0x1_0000) % 0x400;
            IsHigh(h) && IsLow(l) && Join(h, l) == c
  {
  }

  lemma ShortReadBack(c: CodePoint, rest: Text)
    requires ShortEscape(c).Some?
    ensures ScanChars([BACKSLASH, ShortEscape(c).value] + rest) == Prepend(c, ScanChars(rest))
  {
  }

  lemma PlainReadBack(c: CodePoint, rest: Text)
    requires ShortEscape(c).None? && 32 <= c <= 126
    ensures ScanChars([c] + rest) == Prepend(c, ScanChars(rest))
  {
  }

  lemma CharReadBack(c: CodePoint, rest: Text)
    requires IsHigh(c) && |rest| >= 2 && rest[0] == BACKSLASH && rest[1] == LETTER_U ==>
               ScanUnit(rest[2..]).Some? && !IsLow(ScanUnit(rest[2..]).value)
    ensures ScanChars(PrintChar(c, rest)) == Prepend(c, ScanChars(rest))
  {
    if ShortEscape(c).Some? {
      ShortReadBack(c, rest);
    } else if 32 <= c <= 126 {
      PlainReadBack(c, rest);
    } else if c < 0x1_0000 {
      PlainUnit(c, rest);
    } else {
      AstralSplit(c);
      PairedUnits(0xD800 + (c - 0x1_0000) / 0x400, 0xDC00 + (c - 0x1_0000) % 0x400, rest);
    }
  }

  lemma PairReadBack(s: Text, end: Text)
    requires |s| >= 2 && IsHigh(s[0]) && IsLow(s[1])
    ensures ScanChars(PrintChars(s, end)) == Prepend(Join(s[0], s[1]), ScanChars(PrintChars(s[2..], end)))
  {
    var tail := PrintChars(s[2..], end);
    assert s[1..][1..] == s[2..];
    assert PrintChars(s[1..], end) == PrintUnit(s[1], tail);
    PairedUnits(s[0], s[1], tail);
  }

  lemma SingleReadBack(s: Text, end: Text)
    requires s != [] && !(|s| >= 2 && IsHigh(s[0]) && IsLow(s[1])) && end != [] && end[0] == QUOTE
    ensures ScanChars(PrintChars(s, end)) == Prepend(s[0], ScanChars(PrintChars(s[1..], end)))
  {
    if |s| > 1 && IsHigh(s[0]) { FirstUnitOfChar(s[1], PrintChars(s[1..][1..], end)); }
    CharReadBack(s[0], PrintChars(s[1..], end));
  }

  lemma {:induction false} CharsReadBack(s: Text, rest: Text)
    ensures ScanChars(PrintChars(s, [QUOTE] + rest)) == Got(Merge(s), rest)
    decreases |s|
  {
    var end := [QUOTE] + rest;
    if s == [] {
      assert end[1..] == rest;
    } else if |s| >= 2 && IsHigh(s[0]) && IsLow(s[1]) {
      PairReadBack(s, end);
      CharsReadBack(s[2..], rest);
    } else {
      SingleReadBack(s, end);
      CharsReadBack(s[1..], rest);
    }
  }

  lemma {:induction false} DigitsReadBack(n: nat, rest: Text)
    ensures var p := PrintNat(n, rest);
            p != [] && IsDigit(p[0]) && (n > 0 ==> p[0] != 48) && (n == 0 ==> p == [48] + rest) &&
            ScanDigits(p[0] - 48, p[1..]) == ScanDigits(n, rest)
    decreases n
  {
    if n >= 10 {
      var tail := [48 + n % 10] + rest;
      DigitsReadBack(n / 10, tail);
      assert tail[1..] == rest;
    }
  }

  predicate EndsNumber(rest: Text) { rest == [] || !IsDigit(rest[0]) }

  lemma IntReadBack(n: int, rest: Text)
    requires EndsNumber(rest)
    ensures var p := PrintInt(n, rest);
            p != [] && (p[0] == MINUS || IsDigit(p[0])) && ScanInt(p) == Got(Num(n), rest)
  {
    var m := if n < 0 then -n else n;
    DigitsReadBack(m, rest);
    var p := PrintNat(m, rest);
    assert ScanDigits(m, rest) == Got(m, rest);
    if n < 0 {
      assert ([MINUS] + p)[1..] == p;
    }
  }

  /** No printed value begins with white space, and it begins like what it is. */
  lemma PrintStart(v: Json, rest: Text)
    ensures var p := Print(v, rest);
            p != [] && SkipSpace(p) == p && p[0] != CLOSE_BRACKET && p[0] != CLOSE_BRACE
  {
    match v
    case Num(n) => DigitsReadBack(if n < 0 then -n else n, rest);
    case _ =>
  }

  lemma {:induction false} ValueReadBack(v: Json, rest: Text)
    requires EndsNumber(rest)
    ensures ScanValue(Print(v, rest)) == Got(Load(v), rest)
    decreases v, 1
  {
    var p := Print(v, rest);
    match v {
      case Null => assert p[4..] == rest;
      case Bool(b) => assert p[(if b then 4 else 5)..] == rest;
      case Num(n) => IntReadBack(n, rest);
      case Str(s) => CharsReadBack(s, rest);
      case Arr(items) =>
        if items != [] {
          PrintItemsStart(items, [CLOSE_BRACKET] + rest);
          ItemsReadBack(items, [], rest);
        }
      case Obj(fields) =>
        if fields != [] {
          PrintFieldsStart(fields, [CLOSE_BRACE] + rest);
          FieldsReadBack(fields, [], rest);
        }
    }
  }

  lemma PrintItemsStart(items: seq<Json>, rest: Text)
    requires items != []
    ensures var p := PrintItems(items, rest);
            p != [] && SkipSpace(p) == p && p[0] != CLOSE_BRACKET && p[0] != CLOSE_BRACE
  {
    PrintStart(items[0], if |items| == 1 then rest else [COMMA, SPACE] + PrintItems(items[1..], rest));
  }

  lemma {:induction false} ItemsReadBack(items: seq<Json>, acc: seq<Json>, rest: Text)
    requires items != []
    ensures ScanItems(PrintItems(items, [CLOSE_BRACKET] + rest), acc) == Got(Arr(LoadItems(items, acc)), rest)
    decreases items, 0
  {
    var end := [CLOSE_BRACKET] + rest;
    if |items| == 1 {
      ValueReadBack(items[0], end);
      assert items[1..] == [];
    } else {
      var more := PrintItems(items[1..], end);
      ValueReadBack(items[0], [COMMA, SPACE] + more);
      AfterComma(more);
      PrintItemsStart(items[1..], end);
      ItemsReadBack(items[1..], acc + [Load(items[0])], rest);
    }
  }

  lemma AfterComma(more: Text)
    ensures var t := [COMMA, SPACE] + more;
            SkipSpace(t) == t && SkipSpace(t[1..]) == SkipSpace(more)
  {
  }

  /** One field of an object, given what its key and its value read back as. */
  lemma FieldScan(body: Text, key: Text, value: Text, v: Json, after: Text, acc: seq<Field>)
    requires ScanChars(body) == Got(key, [COLON, SPACE] + value)
    requires SkipSpace(value) == value && ScanValue(value) == Got(v, after)
    ensures var fields := DictSet(acc, key, v);
            && (after != [] && after[0] == CLOSE_BRACE ==>
                  ScanFields([QUOTE] + body, acc) == Got(Obj(fields), after[1..]))
            && (after != [] && after[0] == COMMA ==>
                  ScanFields([QUOTE] + body, acc) == ScanFields(SkipSpace(after[1..]), fields))
  {
    var colon := [COLON, SPACE] + value;
    assert ([QUOTE] + body)[1..] == body;
    assert SkipSpace(colon) == colon && colon[1..] == [SPACE] + value && ([SPACE] + value)[1..] == value;
    assert SkipSpace([SPACE] + value) == value;
    assert after != [] && (after[0] == CLOSE_BRACE || after[0] == COMMA) ==> SkipSpace(after) == after;
  }

  lemma {:induction false} FieldsReadBack(fields: seq<Field>, acc: seq<Field>, rest: Text)
    requires fields != []
    ensures ScanFields(PrintFields(fields, [CLOSE_BRACE] + rest), acc) == Got(Obj(LoadFields(fields, acc)), rest)
    decreases fields, 0
  {
    var end := [CLOSE_BRACE] + rest;
    var f := fields[0];
    var after := if |fields| == 1 then end else [COMMA, SPACE] + PrintFields(fields[1..], end);
    var value := Print(f.value, after);
    CharsReadBack(f.key, [COLON, SPACE] + value);
    PrintStart(f.value, after);
    ValueReadBack(f.value, after);
    FieldScan(PrintChars(f.key, [QUOTE] + ([COLON, SPACE] + value)), Merge(f.key), value, Load(f.value), after, acc);
    if |fields| == 1 {
      assert fields[1..] == [];
    } else {
      AfterComma(PrintFields(fields[1..], end));
      PrintFieldsStart(fields[1..], end);
      FieldsReadBack(fields[1..], DictSet(acc, Merge(f.key), Load(f.value)), rest);
    }
  }

  lemma PrintFieldsStart(fields: seq<Field>, rest: Text)
    requires fields != []
    ensures var p := PrintFields(fields, rest); SkipSpace(p) == p && p != [] && p[0] != CLOSE_BRACE
  {
  }

  /** Every value reads back as its Load, whatever texts it holds. */
  lemma ReadBack(v: Json)
    ensures Loads(Dumps(v)) == Some(Load(v))
  {
    PrintStart(v, []);
    ValueReadBack(v, []);
  }

  // ---------- ensure_ascii ----------

  predicate Ascii(s: Text) {
    forall i :: 0 <= i < |s| ==> 32 <= s[i] <= 126
  }

  lemma UnitIsAscii(u: int, rest: Text)
    requires 0 <= u < 0x1_0000 && Ascii(rest)
    ensures Ascii(PrintUnit(u, rest))
  {
  }

  lemma CharIsAscii(c: CodePoint, rest: Text)
    requires Ascii(rest)
    ensures Ascii(PrintChar(c, rest))
  {
    if c >= 0x1_0000 {
      AstralSplit(c);
      UnitIsAscii(0xDC00 + (c - 0x1_0000) % 0x400, rest);
      UnitIsAscii(0xD800 + (c - 0x1_0000) / 0x400, PrintUnit(0xDC00 + (c - 0x1_0000) % 0x400, rest));
    } else if ShortEscape(c).None? && !(32 <= c <= 126) {
      UnitIsAscii(c, rest);
    }
  }

  lemma {:induction false} CharsAreAscii(s: Text, rest: Text)
    requires Ascii(rest)
    ensures Ascii(PrintChars(s, rest))
    decreases |s|
  {
    if s != [] {
      CharsAreAscii(s[1..], rest);
      CharIsAscii(s[0], PrintChars(s[1..], rest));
    }
  }

  lemma {:induction false} NatIsAscii(n: nat, rest: Text)
    requires Ascii(rest)
    ensures Ascii(PrintNat(n, rest))
    decreases n
  {
    if n >= 10 { NatIsAscii(n / 10, [48 + n % 10] + rest); }
  }

  /** Whatever texts a value holds, what is printed is visible ASCII. */
  lemma {:induction false} PrintIsAscii(v: Json, rest: Text)
    requires Ascii(rest)
    ensures Ascii(Print(v, rest))
    decreases v, 1
  {
    match v {
      case Num(n) => NatIsAscii(if n < 0 then -n else n, rest);
      case Str(s) => CharsAreAscii(s, [QUOTE] + rest);
      case Arr(items) => if items != [] { ItemsAreAscii(items, [CLOSE_BRACKET] + rest); }
      case Obj(fields) => if fields != [] { FieldsAreAscii(fields, [CLOSE_BRACE] + rest); }
      case _ =>
    }
  }

  lemma {:induction false} ItemsAreAscii(items: seq<Json>, rest: Text)
    requires items != [] && Ascii(rest)
    ensures Ascii(PrintItems(items, rest))
    decreases items, 0
  {
    if |items| > 1 { ItemsAreAscii(items[1..], rest); }
    PrintIsAscii(items[0], if |items| == 1 then rest else [COMMA, SPACE] + PrintItems(items[1..], rest));
  }

  lemma {:induction false} FieldsAreAscii(fields: seq<Field>, rest: Text)
    requires fields != [] && Ascii(rest)
    ensures Ascii(PrintFields(fields, rest))
    decreases fields, 0
  {
    if |fields| > 1 { FieldsAreAscii(fields[1..], rest); }
    var after := if |fields| == 1 then rest else [COMMA, SPACE] + PrintFields(fields[1..], rest);
    PrintIsAscii(fields[0].value, after);
    CharsAreAscii(fields[0].key, [QUOTE] + ([COLON, SPACE] + Print(fields[0].value, after)));
  }
}
