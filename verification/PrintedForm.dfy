/**
  The text of a value, written out by joining as json.dumps does, and when two values print alike:
  a printed text fixes its value up to astral characters, which ensure_ascii writes like the two
  surrogates that stand for them.
*/
module PrintedForm {
  import opened Json

  // ---------- The text of a value, written out by joining ----------

  function Joined(texts: seq<Text>, separator: Text): Text {
    if texts == [] then []
    else if |texts| == 1 then texts[0]
    else texts[0] + (separator + Joined(texts[1..], separator))
  }

  function Quoted(s: Text): Text {
    PrintText(s, [])
  }

  function Format(v: Json): Text
    decreases v
  {
    match v
    case Null => NULL_TEXT
    case Bool(b) => if b then TRUE_TEXT else FALSE_TEXT
    case Num(n) => PrintInt(n, [])
    case Str(s) => Quoted(s)
    case Arr(items) => [OPEN_BRACKET] + (Joined(FormatItems(items), [COMMA, SPACE]) + [CLOSE_BRACKET])
    case Obj(fields) => [OPEN_BRACE] + (Joined(FormatFields(fields), [COMMA, SPACE]) + [CLOSE_BRACE])
  }

  function FormatItems(items: seq<Json>): (r: seq<Text>)
    ensures |r| == |items| && forall i :: 0 <= i < |r| ==> r[i] == Format(items[i])
    decreases items
  {
    seq(|items|, i requires 0 <= i < |items| => Format(items[i]))
  }

  function FormatFields(fields: seq<Field>): (r: seq<Text>)
    ensures |r| == |fields|
    ensures forall i :: 0 <= i < |r| ==> r[i] == Quoted(fields[i].key) + ([COLON, SPACE] + Format(fields[i].value))
    decreases fields
  {
    seq(|fields|, i requires 0 <= i < |fields| => Quoted(fields[i].key) + ([COLON, SPACE] + Format(fields[i].value)))
  }

  lemma Regroup(a: Text, b: Text, c: Text)
    ensures (a + b) + c == a + (b + c)
  {
  }

  lemma CharInFront(c: CodePoint, s: Text, rest: Text)
    ensures PrintChar(c, s + rest) == PrintChar(c, s) + rest
  {
  }

  /** How long a character prints: itself, a two-character escape, or one or two six-character ones. */
  lemma CharWidth(c: CodePoint, rest: Text)
    ensures |PrintChar(c, rest)| - |rest| ==
            if c in {8, 9, 10, 12, 13, QUOTE, BACKSLASH} then 2
            else if 32 <= c < 127 then 1
            else if c < 0x1_0000 then 6
            else 12
  {
  }

  lemma {:induction false} CharsInFront(s: Text, end: Text, rest: Text)
    ensures PrintChars(s, end + rest) == PrintChars(s, end) + rest
    decreases |s|
  {
    if s != [] {
      CharsInFront(s[1..], end, rest);
      CharInFront(s[0], PrintChars(s[1..], end), rest);
    }
  }

  lemma TextInFront(s: Text, rest: Text)
    ensures PrintText(s, rest) == Quoted(s) + rest
  {
    assert [QUOTE] + [] == [QUOTE];
    CharsInFront(s, [QUOTE], rest);
    Regroup([QUOTE], PrintChars(s, [QUOTE]), rest);
  }

  lemma {:induction false} NatInFront(n: nat, end: Text, rest: Text)
    ensures PrintNat(n, end + rest) == PrintNat(n, end) + rest
    decreases n
  {
    if n < 10 {
      Regroup([48 + n], end, rest);
    } else {
      NatInFront(n / 10, [48 + n % 10] + end, rest);
      Regroup([48 + n % 10], end, rest);
    }
  }

  lemma IntInFront(n: int, rest: Text)
    ensures PrintInt(n, rest) == PrintInt(n, []) + rest
  {
    var m := if n < 0 then -n else n;
    NatInFront(m, [], rest);
    assert [] + rest == rest;
    Regroup([MINUS], PrintNat(m, []), rest);
  }

  /** The text of a value: a list or a dict is its parts, joined by a comma and a space, in brackets. */
  lemma {:induction false} PrintIsFormat(v: Json, rest: Text)
    ensures Print(v, rest) == Format(v) + rest
    decreases v, 1
  {
    match v {
      case Num(n) => IntInFront(n, rest);
      case Str(s) => TextInFront(s, rest);
      case Arr(items) =>
        var inner := Joined(FormatItems(items), [COMMA, SPACE]);
        Regroup([OPEN_BRACKET], inner + [CLOSE_BRACKET], rest);
        Regroup(inner, [CLOSE_BRACKET], rest);
        if items == [] { assert [] + [CLOSE_BRACKET] == [CLOSE_BRACKET]; }
        else { ItemsAreJoined(items, [CLOSE_BRACKET] + rest); }
      case Obj(fields) =>
        var inner := Joined(FormatFields(fields), [COMMA, SPACE]);
        Regroup([OPEN_BRACE], inner + [CLOSE_BRACE], rest);
        Regroup(inner, [CLOSE_BRACE], rest);
        if fields == [] { assert [] + [CLOSE_BRACE] == [CLOSE_BRACE]; }
        else { FieldsAreJoined(fields, [CLOSE_BRACE] + rest); }
      case _ =>
    }
  }

  lemma {:induction false} ItemsAreJoined(items: seq<Json>, rest: Text)
    requires items != []
    ensures PrintItems(items, rest) == Joined(FormatItems(items), [COMMA, SPACE]) + rest
    decreases items, 0
  {
    if |items| == 1 {
      PrintIsFormat(items[0], rest);
    } else {
      var more := Joined(FormatItems(items[1..]), [COMMA, SPACE]);
      assert FormatItems(items)[1..] == FormatItems(items[1..]);
      ItemsAreJoined(items[1..], rest);
      PrintIsFormat(items[0], [COMMA, SPACE] + (more + rest));
      Regroup(Format(items[0]), [COMMA, SPACE] + more, rest);
      Regroup([COMMA, SPACE], more, rest);
    }
  }

  lemma {:induction false} FieldsAreJoined(fields: seq<Field>, rest: Text)
    requires fields != []
    ensures PrintFields(fields, rest) == Joined(FormatFields(fields), [COMMA, SPACE]) + rest
    decreases fields, 0
  {
    var f := fields[0];
    if |fields| == 1 {
      FieldIsJoined(f, rest);
    } else {
      var more := Joined(FormatFields(fields[1..]), [COMMA, SPACE]);
      assert FormatFields(fields)[1..] == FormatFields(fields[1..]);
      FieldsAreJoined(fields[1..], rest);
      FieldIsJoined(f, [COMMA, SPACE] + (more + rest));
      Regroup(FormatFields(fields)[0], [COMMA, SPACE] + more, rest);
      Regroup([COMMA, SPACE], more, rest);
    }
  }

  lemma {:induction false} FieldIsJoined(f: Field, rest: Text)
    ensures PrintText(f.key, [COLON, SPACE] + Print(f.value, rest)) ==
            (Quoted(f.key) + ([COLON, SPACE] + Format(f.value))) + rest
    decreases f, 2
  {
    PrintIsFormat(f.value, rest);
    TextInFront(f.key, [COLON, SPACE] + Print(f.value, rest));
    Regroup(Quoted(f.key), [COLON, SPACE] + Format(f.value), rest);
    Regroup([COLON, SPACE], Format(f.value), rest);
  }

  // ---------- Astral characters as two surrogates ----------

  /** No astral characters. */
  predicate Units(s: Text) {
    forall i :: 0 <= i < |s| ==> s[i] < 0x1_0000
  }

  function SplitChar(c: CodePoint): (units: Text)
    ensures Units(units)
  {
    if c < 0x1_0000 then [c] else [0xD800 + (c - 0x1_0000) / 0x400, 0xDC00 + (c - 0x1_0000) % 0x400]
  }

  /** The text with every astral character as its two surrogates. */
  function SplitText(s: Text): (units: Text)
    ensures Units(units)
  {
    if s == [] then [] else SplitChar(s[0]) + SplitText(s[1..])
  }

  function Split(v: Json): Json
    decreases v
  {
    match v
    case Str(s) => Str(SplitText(s))
    case Arr(items) => Arr(SplitItems(items))
    case Obj(fields) => Obj(SplitFields(fields))
    case _ => v
  }

  function SplitItems(items: seq<Json>): (r: seq<Json>)
    ensures |r| == |items| && forall i :: 0 <= i < |r| ==> r[i] == Split(items[i])
    decreases items
  {
    seq(|items|, i requires 0 <= i < |items| => Split(items[i]))
  }

  function SplitFields(fields: seq<Field>): (r: seq<Field>)
    ensures |r| == |fields|
    ensures forall i :: 0 <= i < |r| ==> r[i] == Field(SplitText(fields[i].key), Split(fields[i].value))
    decreases fields
  {
    seq(|fields|, i requires 0 <= i < |fields| => Field(SplitText(fields[i].key), Split(fields[i].value)))
  }

  // ---------- Splitting does not show in print ----------

  lemma CharPrintsSplit(c: CodePoint, s: Text, rest: Text)
    ensures PrintChars(SplitChar(c) + s, rest) == PrintChar(c, PrintChars(s, rest))
  {
    var units := SplitChar(c) + s;
    if c < 0x1_0000 {
      assert units[0] == c && units[1..] == s;
    } else {
      var h, l := 0xD800 + (c - 0x1_0000) / 0x400, 0xDC00 + (c - 0x1_0000) % 0x400;
      assert units[0] == h && units[1..] == [l] + s;
      assert ([l] + s)[1..] == s;
      assert PrintChars([l] + s, rest) == PrintUnit(l, PrintChars(s, rest));
    }
  }

  lemma {:induction false} TextPrintsSplit(s: Text, rest: Text)
    ensures PrintChars(SplitText(s), rest) == PrintChars(s, rest)
    decreases |s|
  {
    if s != [] {
      CharPrintsSplit(s[0], SplitText(s[1..]), rest);
      TextPrintsSplit(s[1..], rest);
    }
  }

  lemma {:induction false} PrintsSplit(v: Json, rest: Text)
    ensures Print(Split(v), rest) == Print(v, rest)
    decreases v, 1
  {
    match v {
      case Str(s) => TextPrintsSplit(s, [QUOTE] + rest);
      case Arr(items) => if items != [] { ItemsPrintSplit(items, [CLOSE_BRACKET] + rest); }
      case Obj(fields) => if fields != [] { FieldsPrintSplit(fields, [CLOSE_BRACE] + rest); }
      case _ =>
    }
  }

  lemma {:induction false} ItemsPrintSplit(items: seq<Json>, rest: Text)
    requires items != []
    ensures PrintItems(SplitItems(items), rest) == PrintItems(items, rest)
    decreases items, 0
  {
    if |items| == 1 {
      PrintsSplit(items[0], rest);
    } else {
      assert SplitItems(items)[1..] == SplitItems(items[1..]);
      ItemsPrintSplit(items[1..], rest);
      PrintsSplit(items[0], [COMMA, SPACE] + PrintItems(items[1..], rest));
    }
  }

  lemma {:induction false} FieldsPrintSplit(fields: seq<Field>, rest: Text)
    requires fields != []
    ensures PrintFields(SplitFields(fields), rest) == PrintFields(fields, rest)
    decreases fields, 0
  {
    var after := rest;
    if |fields| > 1 {
      assert SplitFields(fields)[1..] == SplitFields(fields[1..]);
      FieldsPrintSplit(fields[1..], rest);
      after := [COMMA, SPACE] + PrintFields(fields[1..], rest);
    }
    PrintsSplit(fields[0].value, after);
    TextPrintsSplit(fields[0].key, [QUOTE] + ([COLON, SPACE] + Print(fields[0].value, after)));
  }

  // ---------- A printed text fixes the split form ----------

  lemma UnitFixed(u: int, w: int, p: Text, q: Text)
    requires 0 <= u < 0x1_0000 && 0 <= w < 0x1_0000 && PrintUnit(u, p) == PrintUnit(w, q)
    ensures u == w && p == q
  {
    UnitRoundTrip(u, p);
    UnitRoundTrip(w, q);
  }

  lemma CharFixed(c: CodePoint, d: CodePoint, p: Text, q: Text)
    requires c < 0x1_0000 && d < 0x1_0000 && PrintChar(c, p) == PrintChar(d, q)
    ensures c == d && p == q
  {
    var a, b := PrintChar(c, p), PrintChar(d, q);
    assert ShortEscape(d).Some? ==> b[1] == ShortEscape(d).value;
    assert ShortEscape(d).None? && 32 <= d <= 126 ==> b[0] == d;
    if ShortEscape(c).Some? {
      assert a[2..] == p && a[0] == BACKSLASH && a[1] == ShortEscape(c).value;
      if ShortEscape(d).Some? { assert b[2..] == q; }
    } else if 32 <= c <= 126 {
      assert a[1..] == p && a[0] == c;
      if 32 <= d <= 126 && ShortEscape(d).None? { assert b[1..] == q; }
    } else if ShortEscape(d).None? && !(32 <= d <= 126) {
      UnitFixed(c, d, p, q);
    }
  }

  lemma {:induction false} UnitsFixed(s: Text, t: Text, p: Text, q: Text)
    requires Units(s) && Units(t) && PrintChars(s, [QUOTE] + p) == PrintChars(t, [QUOTE] + q)
    ensures s == t && p == q
    decreases |s|
  {
    if s == [] && t == [] {
      assert ([QUOTE] + p)[1..] == p && ([QUOTE] + q)[1..] == q;
    } else if s != [] && t != [] {
      CharFixed(s[0], t[0], PrintChars(s[1..], [QUOTE] + p), PrintChars(t[1..], [QUOTE] + q));
      UnitsFixed(s[1..], t[1..], p, q);
      assert s == [s[0]] + s[1..] && t == [t[0]] + t[1..];
    } else if s == [] {
      assert PrintChar(t[0], PrintChars(t[1..], [QUOTE] + q))[0] != QUOTE;
    } else {
      assert PrintChar(s[0], PrintChars(s[1..], [QUOTE] + p))[0] != QUOTE;
    }
  }

  lemma CharsFixed(s: Text, t: Text, p: Text, q: Text)
    requires PrintChars(s, [QUOTE] + p) == PrintChars(t, [QUOTE] + q)
    ensures SplitText(s) == SplitText(t) && p == q
  {
    TextPrintsSplit(s, [QUOTE] + p);
    TextPrintsSplit(t, [QUOTE] + q);
    UnitsFixed(SplitText(s), SplitText(t), p, q);
  }

  lemma TextFixed(s: Text, t: Text, p: Text, q: Text)
    requires PrintText(s, p) == PrintText(t, q)
    ensures SplitText(s) == SplitText(t) && p == q
  {
    var a, b := PrintChars(s, [QUOTE] + p), PrintChars(t, [QUOTE] + q);
    assert a == b by { assert ([QUOTE] + a)[1..] == a && ([QUOTE] + b)[1..] == b; }
    CharsFixed(s, t, p, q);
  }

  /** The first character of a printed value says which kind of value it is. */
  function KindOf(v: Json): int {
    match v
    case Null => 0
    case Bool(b) => if b then 1 else 2
    case Num(_) => 3
    case Str(_) => 4
    case Arr(_) => 5
    case Obj(_) => 6
  }

  function KindAt(c: CodePoint): int {
    if c == NULL_TEXT[0] then 0
    else if c == TRUE_TEXT[0] then 1
    else if c == FALSE_TEXT[0] then 2
    else if c == QUOTE then 4
    else if c == OPEN_BRACKET then 5
    else if c == OPEN_BRACE then 6
    else 3
  }

  lemma FirstFixesKind(v: Json, rest: Text)
    ensures Print(v, rest) != [] && KindAt(Print(v, rest)[0]) == KindOf(v)
  {
    match v
    case Num(n) => DigitsReadBack(if n < 0 then -n else n, rest);
    case _ =>
  }

  /** Values in front of a remainder that print alike have one split form and one remainder. */
  lemma {:induction false} ValueFixed(v: Json, w: Json, p: Text, q: Text)
    requires EndsNumber(p) && EndsNumber(q) && Print(v, p) == Print(w, q)
    ensures Split(v) == Split(w) && p == q
    decreases v, 1
  {
    FirstFixesKind(v, p);
    FirstFixesKind(w, q);
    var a, b := Print(v, p), Print(w, q);
    match v {
      case Null => assert a[4..] == p && b[4..] == q;
      case Bool(x) => assert a[(if x then 4 else 5)..] == p && b[(if x then 4 else 5)..] == q;
      case Num(n) =>
        IntReadBack(n, p);
        IntReadBack(w.n, q);
      case Str(s) => TextFixed(s, w.s, p, q);
      case Arr(items) =>
        ListFixed(items, w.items, p, q);
      case Obj(fields) =>
        ObjectFixed(fields, w.fields, p, q);
    }
  }

  lemma {:induction false} ListFixed(items: seq<Json>, others: seq<Json>, p: Text, q: Text)
    requires Print(Arr(items), p) == Print(Arr(others), q)
    ensures SplitItems(items) == SplitItems(others) && p == q
    decreases items, 1
  {
    var a, b := Print(Arr(items), p)[1..], Print(Arr(others), q)[1..];
    if items != [] {
      PrintItemsStart(items, [CLOSE_BRACKET] + p);
      assert a == PrintItems(items, [CLOSE_BRACKET] + p);
    } else {
      assert a == [CLOSE_BRACKET] + p && a[1..] == p;
    }
    if others != [] {
      PrintItemsStart(others, [CLOSE_BRACKET] + q);
      assert b == PrintItems(others, [CLOSE_BRACKET] + q);
    } else {
      assert b == [CLOSE_BRACKET] + q && b[1..] == q;
    }
    if items != [] && others != [] { ItemsFixed(items, others, p, q); }
  }

  function AfterItem(items: seq<Json>, rest: Text): Text
    requires items != []
  {
    if |items| == 1 then [CLOSE_BRACKET] + rest else [COMMA, SPACE] + PrintItems(items[1..], [CLOSE_BRACKET] + rest)
  }

  lemma {:induction false} ItemsFixed(items: seq<Json>, others: seq<Json>, p: Text, q: Text)
    requires items != [] && others != []
    requires PrintItems(items, [CLOSE_BRACKET] + p) == PrintItems(others, [CLOSE_BRACKET] + q)
    ensures SplitItems(items) == SplitItems(others) && p == q
    decreases items, 0
  {
    var a, b := AfterItem(items, p), AfterItem(others, q);
    ValueFixed(items[0], others[0], a, b);
    if |items| == 1 {
      assert a[1..] == p && b[0] == CLOSE_BRACKET && b[1..] == q;
    } else {
      assert a[0] == COMMA && |others| > 1;
      assert a[2..] == PrintItems(items[1..], [CLOSE_BRACKET] + p);
      assert b[2..] == PrintItems(others[1..], [CLOSE_BRACKET] + q);
      ItemsFixed(items[1..], others[1..], p, q);
      assert SplitItems(items) == [Split(items[0])] + SplitItems(items[1..]);
      assert SplitItems(others) == [Split(others[0])] + SplitItems(others[1..]);
    }
  }

  lemma {:induction false} ObjectFixed(fields: seq<Field>, others: seq<Field>, p: Text, q: Text)
    requires Print(Obj(fields), p) == Print(Obj(others), q)
    ensures SplitFields(fields) == SplitFields(others) && p == q
    decreases fields, 1
  {
    var a, b := Print(Obj(fields), p)[1..], Print(Obj(others), q)[1..];
    if fields != [] {
      PrintFieldsStart(fields, [CLOSE_BRACE] + p);
      assert a == PrintFields(fields, [CLOSE_BRACE] + p);
    } else {
      assert a == [CLOSE_BRACE] + p && a[1..] == p;
    }
    if others != [] {
      PrintFieldsStart(others, [CLOSE_BRACE] + q);
      assert b == PrintFields(others, [CLOSE_BRACE] + q);
    } else {
      assert b == [CLOSE_BRACE] + q && b[1..] == q;
    }
    if fields != [] && others != [] { FieldsFixed(fields, others, p, q); }
  }

  function AfterField(fields: seq<Field>, rest: Text): Text
    requires fields != []
  {
    if |fields| == 1 then [CLOSE_BRACE] + rest else [COMMA, SPACE] + PrintFields(fields[1..], [CLOSE_BRACE] + rest)
  }

  lemma {:induction false} FieldsFixed(fields: seq<Field>, others: seq<Field>, p: Text, q: Text)
    requires fields != [] && others != []
    requires PrintFields(fields, [CLOSE_BRACE] + p) == PrintFields(others, [CLOSE_BRACE] + q)
    ensures SplitFields(fields) == SplitFields(others) && p == q
    decreases fields, 0
  {
    var a, b := AfterField(fields, p), AfterField(others, q);
    var x, y := Print(fields[0].value, a), Print(others[0].value, b);
    TextFixed(fields[0].key, others[0].key, [COLON, SPACE] + x, [COLON, SPACE] + y);
    assert ([COLON, SPACE] + x)[2..] == x && ([COLON, SPACE] + y)[2..] == y;
    ValueFixed(fields[0].value, others[0].value, a, b);
    if |fields| == 1 {
      assert a[1..] == p && b[0] == CLOSE_BRACE && b[1..] == q;
    } else {
      assert a[0] == COMMA && |others| > 1;
      assert a[2..] == PrintFields(fields[1..], [CLOSE_BRACE] + p);
      assert b[2..] == PrintFields(others[1..], [CLOSE_BRACE] + q);
      FieldsFixed(fields[1..], others[1..], p, q);
      assert SplitFields(fields) == [SplitFields(fields)[0]] + SplitFields(fields[1..]);
      assert SplitFields(others) == [SplitFields(others)[0]] + SplitFields(others[1..]);
    }
  }

  /** Two values print alike exactly when they differ in nothing but how astral characters are written. */
  lemma PrintedAlike(v: Json, w: Json)
    ensures Dumps(v) == Dumps(w) <==> Split(v) == Split(w)
  {
    PrintsSplit(v, []);
    PrintsSplit(w, []);
    if Dumps(v) == Dumps(w) { ValueFixed(v, w, [], []); }
  }
}
