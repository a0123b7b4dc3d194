/**
  The context key of the signal stores: json.dumps(ctx or {}, sort_keys=True), and what it
  takes for that text to identify a context.
*/
module ContextKey {
  import opened Wrappers
  import opened Json
  import opened PrintedForm

  /** Python's order on strings: lexicographic by code point. */
  predicate Less(a: Text, b: Text) {
    b != [] && (a == [] || a[0] < b[0] || (a[0] == b[0] && Less(a[1..], b[1..])))
  }

  function Insert(f: Field, fields: seq<Field>): seq<Field> {
    if fields == [] || Less(f.key, fields[0].key) then [f] + fields else [fields[0]] + Insert(f, fields[1..])
  }

  function Sort(fields: seq<Field>): seq<Field> {
    if fields == [] then [] else Insert(fields[0], Sort(fields[1..]))
  }

  /** sort_keys applies at every nesting level. */
  function SortKeys(v: Json): Json
    decreases v
  {
    match v
    case Arr(items) => Arr(seq(|items|, i requires 0 <= i < |items| => SortKeys(items[i])))
    case Obj(fields) => Obj(Sort(SortValues(fields)))
    case _ => v
  }

  function SortValues(fields: seq<Field>): (r: seq<Field>)
    ensures |r| == |fields|
    ensures forall i :: 0 <= i < |r| ==> r[i] == Field(fields[i].key, SortKeys(fields[i].value))
    decreases fields
  {
    seq(|fields|, i requires 0 <= i < |fields| => Field(fields[i].key, SortKeys(fields[i].value)))
  }

  predicate DistinctKeys(fields: seq<Field>) {
    forall i, j :: 0 <= i < j < |fields| ==> fields[i].key != fields[j].key
  }

  /** What every Python dict satisfies: no object holds a key twice. */
  predicate WellKeyed(v: Json)
    decreases v
  {
    match v
    case Arr(items) => forall i :: 0 <= i < |items| ==> WellKeyed(items[i])
    case Obj(fields) => DistinctKeys(fields) && forall i :: 0 <= i < |fields| ==> WellKeyed(fields[i].value)
    case _ => true
  }

  predicate IsContext(v: Json) {
    (v.Null? || v.Obj?) && WellKeyed(v)
  }

  /** A context argument: None (written Null here) or a dict. */
  type Context = v: Json | IsContext(v) witness Null

  /** ctx or {} */
  function OrEmpty(ctx: Context): Context {
    if ctx.Null? then Obj([]) else ctx
  }

  function CtxKey(ctx: Context): Text {
    Dumps(SortKeys(OrEmpty(ctx)))
  }

  // ---------- The meaning of a value: objects without an order ----------

  datatype Value =
    | VNull
    | VBool(b: bool)
    | VNum(n: int)
    | VStr(s: Text)
    | VArr(items: seq<Value>)
    | VObj(fields: map<Text, Value>)

  function Meaning(v: Json): Value
    decreases v, 1
  {
    match v
    case Null => VNull
    case Bool(b) => VBool(b)
    case Num(n) => VNum(n)
    case Str(s) => VStr(s)
    case Arr(items) => VArr(seq(|items|, i requires 0 <= i < |items| => Meaning(items[i])))
    case Obj(fields) => VObj(FieldMap(fields))
  }

  /** A dict built by setting the fields in order: the last of two equal keys wins. */
  function FieldMap(fields: seq<Field>): map<Text, Value>
    decreases fields, 0
  {
    if fields == [] then map[]
    else
      var last := |fields| - 1;
      FieldMap(fields[..last])[fields[last].key := Meaning(fields[last].value)]
  }

  /** No text holds a high surrogate directly followed by a low one. */
  predicate Unpaired(s: Text) {
    forall i :: 0 <= i < |s| - 1 ==> !(IsHigh(s[i]) && IsLow(s[i + 1]))
  }

  /** No text of the value, object keys included, holds a surrogate pair in two code points. */
  predicate Clean(v: Json)
    decreases v
  {
    match v
    case Str(s) => Unpaired(s)
    case Arr(items) => forall i :: 0 <= i < |items| ==> Clean(items[i])
    case Obj(fields) => forall i :: 0 <= i < |fields| ==> Unpaired(fields[i].key) && Clean(fields[i].value)
    case _ => true
  }

  // ---------- Sorting ----------

  lemma {:induction false} LessTotal(a: Text, b: Text)
    ensures a == b || Less(a, b) || Less(b, a)
    ensures !Less(a, a)
    ensures !(Less(a, b) && Less(b, a))
    decreases |a|
  {
    if a != [] {
      LessTotal(a[1..], a[1..]);
      if b != [] {
        LessTotal(a[1..], b[1..]);
        if a[0] == b[0] && a[1..] == b[1..] {
          assert a == [a[0]] + a[1..] == b;
        }
      }
    }
  }

  lemma {:induction false} LessTransitive(a: Text, b: Text, c: Text)
    requires Less(a, b) && Less(b, c)
    ensures Less(a, c)
    decreases |b|
  {
    if a != [] && a[0] == b[0] == c[0] {
      LessTransitive(a[1..], b[1..], c[1..]);
    }
  }

  /** a and b are the same up to position k, where a ends or has the smaller code point. */
  predicate DiffersAt(a: Text, b: Text, k: nat) {
    k <= |a| && k < |b| && a[..k] == b[..k] && (k == |a| || a[k] < b[k])
  }

  /** The order of strings by code point: a prefix first, otherwise by the first difference. */
  ghost predicate Precedes(a: Text, b: Text) {
    exists k: nat :: DiffersAt(a, b, k)
  }

  lemma {:induction false} LessMeans(a: Text, b: Text)
    ensures Less(a, b) <==> Precedes(a, b)
    decreases |a|
  {
    if b == [] {
    } else if a == [] {
      assert DiffersAt(a, b, 0);
    } else if a[0] != b[0] {
      if a[0] < b[0] { assert DiffersAt(a, b, 0); }
      forall k: nat | k > 0 && k <= |a| && k < |b| ensures a[..k] != b[..k] { assert a[..k][0] != b[..k][0]; }
    } else {
      LessMeans(a[1..], b[1..]);
      assert a == [a[0]] + a[1..] && b == [b[0]] + b[1..];
      if k: nat :| DiffersAt(a[1..], b[1..], k) {
        assert a[..k + 1] == [a[0]] + a[1..][..k] && b[..k + 1] == [b[0]] + b[1..][..k];
        assert DiffersAt(a, b, k + 1);
      }
      if k: nat :| DiffersAt(a, b, k) {
        assert k > 0;
        assert a[1..][..k - 1] == a[..k][1..] && b[1..][..k - 1] == b[..k][1..];
        assert DiffersAt(a[1..], b[1..], k - 1);
      }
    }
  }

  predicate Sorted(fields: seq<Field>) {
    forall i, j :: 0 <= i < j < |fields| ==> Less(fields[i].key, fields[j].key)
  }

  lemma {:induction false} InsertMembers(f: Field, fields: seq<Field>)
    ensures multiset(Insert(f, fields)) == multiset(fields) + multiset{f}
    ensures |Insert(f, fields)| == |fields| + 1
    decreases |fields|
  {
    if fields != [] && !Less(f.key, fields[0].key) {
      InsertMembers(f, fields[1..]);
      assert fields == [fields[0]] + fields[1..];
    }
  }

  lemma {:induction false} SortMembers(fields: seq<Field>)
    ensures multiset(Sort(fields)) == multiset(fields)
    decreases |fields|
  {
    if fields != [] {
      SortMembers(fields[1..]);
      InsertMembers(fields[0], Sort(fields[1..]));
      assert fields == [fields[0]] + fields[1..];
    }
  }

  lemma SameMembers(fields: seq<Field>)
    ensures forall f :: f in Sort(fields) <==> f in fields
    ensures |Sort(fields)| == |fields|
  {
    SortMembers(fields);
    assert |multiset(Sort(fields))| == |multiset(fields)|;
    forall f ensures f in Sort(fields) <==> f in fields {
      assert f in Sort(fields) <==> f in multiset(Sort(fields));
      assert f in fields <==> f in multiset(fields);
    }
  }

  lemma {:induction false} InsertSorted(f: Field, fields: seq<Field>)
    requires Sorted(fields)
    requires forall g :: g in fields ==> g.key != f.key
    ensures Sorted(Insert(f, fields))
    decreases |fields|
  {
    if fields == [] {
    } else if Less(f.key, fields[0].key) {
      forall j | 0 <= j < |fields| ensures Less(f.key, fields[j].key) {
        if j > 0 { LessTransitive(f.key, fields[0].key, fields[j].key); }
      }
    } else {
      LessTotal(f.key, fields[0].key);
      var rest := Insert(f, fields[1..]);
      InsertSorted(f, fields[1..]);
      InsertMembers(f, fields[1..]);
      forall j | 0 <= j < |rest| ensures Less(fields[0].key, rest[j].key) {
        assert rest[j] in multiset(rest);
        assert rest[j] == f || rest[j] in multiset(fields[1..]);
      }
    }
  }

  lemma {:induction false} SortSorts(fields: seq<Field>)
    requires DistinctKeys(fields)
    ensures Sorted(Sort(fields))
    decreases |fields|
  {
    if fields != [] {
      SortSorts(fields[1..]);
      SameMembers(fields[1..]);
      InsertSorted(fields[0], Sort(fields[1..]));
    }
  }

  lemma {:induction false} SortedUnique(a: seq<Field>, b: seq<Field>)
    requires Sorted(a) && Sorted(b)
    requires forall f :: f in a <==> f in b
    ensures a == b
    decreases |a|
  {
    if b != [] { assert b[0] in a; }
    if a != [] {
      assert a[0] in b;
      var i :| 0 <= i < |b| && b[i] == a[0];
      assert b[0] in a;
      var j :| 0 <= j < |a| && a[j] == b[0];
      LessTotal(a[0].key, b[0].key);
      assert a[0] == b[0];
      LessTotal(a[0].key, a[0].key);
      forall f ensures f in a[1..] <==> f in b[1..] {
        if f in a[1..] { assert f in a && f != a[0]; assert f in b; }
        if f in b[1..] { assert f in b && f != b[0]; assert f in a; }
      }
      SortedUnique(a[1..], b[1..]);
      assert a == [a[0]] + a[1..] && b == [b[0]] + b[1..];
    }
  }

  /** In every object of the value the keys ascend by code point. */
  ghost predicate KeysAscend(v: Json)
    decreases v
  {
    match v
    case Arr(items) => forall i :: 0 <= i < |items| ==> KeysAscend(items[i])
    case Obj(fields) =>
      && (forall i, j :: 0 <= i < j < |fields| ==> Precedes(fields[i].key, fields[j].key))
      && forall i :: 0 <= i < |fields| ==> KeysAscend(fields[i].value)
    case _ => true
  }

  /** sort_keys puts the keys of every object, nested ones included, in the order of their code points. */
  lemma {:induction false} SortedKeysAscend(v: Json)
    requires WellKeyed(v)
    ensures KeysAscend(SortKeys(v))
    decreases v
  {
    match v {
      case Arr(items) =>
        forall i | 0 <= i < |items| ensures KeysAscend(SortKeys(items[i])) { SortedKeysAscend(items[i]); }
        assert forall i :: 0 <= i < |items| ==> SortKeys(v).items[i] == SortKeys(items[i]);
      case Obj(fields) =>
        var values := SortValues(fields);
        var sorted := Sort(values);
        SortSorts(values);
        SameMembers(values);
        forall i | 0 <= i < |fields| ensures KeysAscend(values[i].value) { SortedKeysAscend(fields[i].value); }
        forall i | 0 <= i < |sorted| ensures KeysAscend(sorted[i].value) { assert sorted[i] in values; }
        forall i, j | 0 <= i < j < |sorted| ensures Precedes(sorted[i].key, sorted[j].key) {
          LessMeans(sorted[i].key, sorted[j].key);
        }
      case _ =>
    }
  }

  // ---------- Meaning and sorting ----------

  lemma {:induction false} FieldMapMembers(fields: seq<Field>)
    requires DistinctKeys(fields)
    ensures forall f :: f in fields ==> f.key in FieldMap(fields) && FieldMap(fields)[f.key] == Meaning(f.value)
    ensures forall k :: k in FieldMap(fields) ==> exists f :: f in fields && f.key == k
    decreases |fields|
  {
    if fields != [] {
      var last := |fields| - 1;
      FieldMapMembers(fields[..last]);
      assert fields == fields[..last] + [fields[last]];
    }
  }

  lemma SortedDistinct(fields: seq<Field>)
    requires Sorted(fields)
    ensures DistinctKeys(fields)
  {
    forall i, j | 0 <= i < j < |fields| ensures fields[i].key != fields[j].key {
      LessTotal(fields[i].key, fields[j].key);
    }
  }

  lemma {:induction false} SameFieldMap(fields: seq<Field>, values: seq<Field>)
    requires |values| == |fields|
    requires forall i :: 0 <= i < |fields| ==>
               values[i].key == fields[i].key && Meaning(values[i].value) == Meaning(fields[i].value)
    ensures FieldMap(values) == FieldMap(fields)
    decreases |fields|
  {
    if fields != [] {
      SameFieldMap(fields[..|fields| - 1], values[..|fields| - 1]);
    }
  }

  lemma PermutedFieldMap(a: seq<Field>, b: seq<Field>)
    requires DistinctKeys(a) && DistinctKeys(b)
    requires forall f :: f in a <==> f in b
    ensures FieldMap(a) == FieldMap(b)
  {
    FieldMapMembers(a);
    FieldMapMembers(b);
    assert FieldMap(a).Keys == FieldMap(b).Keys;
  }

  lemma {:induction false} SortKeepsMeaning(v: Json)
    requires WellKeyed(v)
    ensures Meaning(SortKeys(v)) == Meaning(v) && WellKeyed(SortKeys(v))
    decreases v
  {
    match v {
      case Arr(items) =>
        forall i | 0 <= i < |items|
          ensures Meaning(SortKeys(items[i])) == Meaning(items[i]) && WellKeyed(SortKeys(items[i]))
        {
          SortKeepsMeaning(items[i]);
        }
      case Obj(fields) =>
        forall i | 0 <= i < |fields|
          ensures Meaning(SortKeys(fields[i].value)) == Meaning(fields[i].value) && WellKeyed(SortKeys(fields[i].value))
        {
          SortKeepsMeaning(fields[i].value);
        }
        SortKeepsFields(fields);
      case _ =>
    }
  }

  lemma SortKeepsFields(fields: seq<Field>)
    requires DistinctKeys(fields)
    requires forall i :: 0 <= i < |fields| ==>
               Meaning(SortKeys(fields[i].value)) == Meaning(fields[i].value) && WellKeyed(SortKeys(fields[i].value))
    ensures FieldMap(Sort(SortValues(fields))) == FieldMap(fields) && WellKeyed(Obj(Sort(SortValues(fields))))
  {
    var values := SortValues(fields);
    var sorted := Sort(values);
    SameFieldMap(fields, values);
    SortSorts(values);
    SameMembers(values);
    SortedDistinct(sorted);
    PermutedFieldMap(sorted, values);
    forall i | 0 <= i < |sorted| ensures WellKeyed(sorted[i].value) {
      assert sorted[i] in values;
    }
  }

  lemma SameSort(a: seq<Field>, b: seq<Field>)
    requires DistinctKeys(a) && DistinctKeys(b)
    requires forall f :: f in a <==> f in b
    ensures Sort(a) == Sort(b)
  {
    SortSorts(a);
    SortSorts(b);
    SameMembers(a);
    SameMembers(b);
    SortedUnique(Sort(a), Sort(b));
  }

  lemma SameKey(a: seq<Field>, b: seq<Field>, i: nat) returns (j: nat)
    requires DistinctKeys(a) && DistinctKeys(b) && FieldMap(a) == FieldMap(b)
    requires i < |a|
    ensures j < |b| && b[j].key == a[i].key && Meaning(b[j].value) == Meaning(a[i].value)
  {
    FieldMapMembers(a);
    FieldMapMembers(b);
    assert a[i] in a;
    var g :| g in b && g.key == a[i].key;
    j :| 0 <= j < |b| && b[j] == g;
  }

  /** Values with one meaning have one sorted form. */
  lemma {:induction false} MeaningFixesSorted(v: Json, w: Json)
    requires WellKeyed(v) && WellKeyed(w) && Meaning(v) == Meaning(w)
    ensures SortKeys(v) == SortKeys(w)
    decreases v, 1
  {
    match v {
      case Arr(items) =>
        forall i | 0 <= i < |items| ensures SortKeys(items[i]) == SortKeys(w.items[i]) {
          assert Meaning(items[i]) == Meaning(v).items[i];
          assert Meaning(w.items[i]) == Meaning(w).items[i];
          MeaningFixesSorted(items[i], w.items[i]);
        }
      case Obj(fields) =>
        var a, b := SortValues(fields), SortValues(w.fields);
        forall f | f in a ensures f in b {
          var i :| 0 <= i < |a| && a[i] == f;
          var j := SameKey(fields, w.fields, i);
          MeaningFixesField(v, w, i, j);
        }
        forall f | f in b ensures f in a {
          var j :| 0 <= j < |b| && b[j] == f;
          var i := SameKey(w.fields, fields, j);
          MeaningFixesField(v, w, i, j);
        }
        SameSort(a, b);
      case _ =>
    }
  }

  lemma {:induction false} MeaningFixesField(v: Json, w: Json, i: nat, j: nat)
    requires v.Obj? && w.Obj? && WellKeyed(v) && WellKeyed(w) && i < |v.fields| && j < |w.fields|
    requires v.fields[i].key == w.fields[j].key && Meaning(v.fields[i].value) == Meaning(w.fields[j].value)
    ensures SortValues(v.fields)[i] == SortValues(w.fields)[j]
    decreases v, 0
  {
    MeaningFixesSorted(v.fields[i].value, w.fields[j].value);
  }

  // ---------- Reading a key back ----------

  lemma {:induction false} MergeShrinks(s: Text)
    ensures |Merge(s)| <= |s|
    ensures Merge(s) == s <==> Unpaired(s)
    decreases |s|
  {
    if s == [] {
    } else if |s| >= 2 && IsHigh(s[0]) && IsLow(s[1]) {
      MergeShrinks(s[2..]);
      assert |Merge(s)| < |s|;
    } else {
      MergeShrinks(s[1..]);
      assert s == [s[0]] + s[1..];
      assert ([s[0]] + Merge(s[1..]))[1..] == Merge(s[1..]);
      if Unpaired(s[1..]) {
        forall i | 0 <= i < |s| - 1 ensures !(IsHigh(s[i]) && IsLow(s[i + 1])) {
          if i > 0 { assert s[1..][i - 1] == s[i] && s[1..][i] == s[i + 1]; }
        }
      }
      if Unpaired(s) {
        forall i | 0 <= i < |s[1..]| - 1 ensures !(IsHigh(s[1..][i]) && IsLow(s[1..][i + 1])) {
          assert s[1..][i] == s[i + 1] && s[1..][i + 1] == s[i + 2];
        }
      }
    }
  }

  lemma {:induction false} LoadItemsAt(items: seq<Json>, acc: seq<Json>)
    ensures LoadItems(items, acc) == acc + seq(|items|, i requires 0 <= i < |items| => Load(items[i]))
    decreases |items|
  {
    if items != [] {
      LoadItemsAt(items[1..], acc + [Load(items[0])]);
    }
  }

  lemma {:induction false} DictSetAppends(fields: seq<Field>, key: Text, value: Json)
    ensures |fields| <= |DictSet(fields, key, value)| <= |fields| + 1
    ensures |DictSet(fields, key, value)| == |fields| + 1 <==> (forall f :: f in fields ==> f.key != key)
    ensures (forall f :: f in fields ==> f.key != key) ==> DictSet(fields, key, value) == fields + [Field(key, value)]
    decreases |fields|
  {
    if fields != [] {
      DictSetAppends(fields[1..], key, value);
      assert fields == [fields[0]] + fields[1..];
    }
  }

  function LoadedFields(fields: seq<Field>): (r: seq<Field>)
    ensures |r| == |fields|
    ensures forall i :: 0 <= i < |r| ==> r[i] == Field(Merge(fields[i].key), Load(fields[i].value))
  {
    seq(|fields|, i requires 0 <= i < |fields| => Field(Merge(fields[i].key), Load(fields[i].value)))
  }

  function SetAll(fields: seq<Field>, acc: seq<Field>): seq<Field> {
    if fields == [] then acc else SetAll(fields[1..], DictSet(acc, fields[0].key, fields[0].value))
  }

  lemma {:induction false} LoadFieldsSets(fields: seq<Field>, acc: seq<Field>)
    ensures LoadFields(fields, acc) == SetAll(LoadedFields(fields), acc)
    decreases |fields|
  {
    if fields != [] {
      var f := Field(Merge(fields[0].key), Load(fields[0].value));
      assert LoadedFields(fields) == [f] + LoadedFields(fields[1..]);
      LoadFieldsSets(fields[1..], DictSet(acc, f.key, f.value));
    }
  }

  lemma {:induction false} DictSetKeepsDistinct(fields: seq<Field>, key: Text, value: Json)
    requires DistinctKeys(fields)
    ensures DistinctKeys(DictSet(fields, key, value))
    ensures forall f :: f in DictSet(fields, key, value) ==> f == Field(key, value) || (f in fields && f.key != key)
    decreases |fields|
  {
    if fields != [] {
      DictSetKeepsDistinct(fields[1..], key, value);
      if fields[0].key != key {
        var rest := DictSet(fields[1..], key, value);
        forall j | 0 <= j < |rest| ensures rest[j].key != fields[0].key {
          assert rest[j] in rest;
        }
      }
    }
  }

  lemma DictSetGrows(fields: seq<Field>, key: Text, value: Json)
    requires DistinctKeys(fields)
    ensures var r := DictSet(fields, key, value);
            DistinctKeys(r) && |r| <= |fields| + 1 && (|r| == |fields| + 1 ==> r == fields + [Field(key, value)])
  {
    DictSetAppends(fields, key, value);
    DictSetKeepsDistinct(fields, key, value);
  }

  /** Setting fields one by one loses one exactly when two of the keys coincide. */
  lemma {:induction false} SetAllLength(fields: seq<Field>, acc: seq<Field>)
    requires DistinctKeys(acc)
    ensures |SetAll(fields, acc)| <= |acc| + |fields|
    ensures |SetAll(fields, acc)| == |acc| + |fields| ==> DistinctKeys(acc + fields)
    decreases |fields|
  {
    if fields == [] {
      assert acc + fields == acc;
    } else {
      DictSetGrows(acc, fields[0].key, fields[0].value);
      SetAllLength(fields[1..], DictSet(acc, fields[0].key, fields[0].value));
      assert acc + [fields[0]] + fields[1..] == acc + fields;
    }
  }

  lemma {:induction false} SetAllDistinct(fields: seq<Field>, acc: seq<Field>)
    requires DistinctKeys(acc + fields)
    ensures SetAll(fields, acc) == acc + fields
    decreases |fields|
  {
    if fields == [] {
      assert acc + fields == acc;
    } else {
      forall f | f in acc ensures f.key != fields[0].key {
        var i :| 0 <= i < |acc| && acc[i] == f;
        assert (acc + fields)[i].key != (acc + fields)[|acc|].key;
      }
      DictSetAppends(acc, fields[0].key, fields[0].value);
      assert acc + [fields[0]] + fields[1..] == acc + fields;
      SetAllDistinct(fields[1..], acc + [fields[0]]);
    }
  }

  /** Reading back what was printed changes nothing exactly on clean values. */
  lemma {:induction false} LoadFixes(v: Json)
    requires WellKeyed(v)
    ensures Load(v) == v <==> Clean(v)
    decreases v
  {
    match v {
      case Str(s) => MergeShrinks(s);
      case Arr(items) =>
        LoadItemsAt(items, []);
        assert Load(v).items == seq(|items|, i requires 0 <= i < |items| => Load(items[i]));
        forall i | 0 <= i < |items| ensures Load(items[i]) == items[i] <==> Clean(items[i]) { LoadFixes(items[i]); }
        if Load(v) == v {
          forall i | 0 <= i < |items| ensures Clean(items[i]) { assert Load(v).items[i] == items[i]; }
        }
      case Obj(fields) =>
        var loaded := LoadedFields(fields);
        LoadFieldsSets(fields, []);
        SetAllLength(loaded, []);
        assert [] + loaded == loaded;
        forall i | 0 <= i < |fields|
          ensures loaded[i] == fields[i] <==> Unpaired(fields[i].key) && Clean(fields[i].value)
        {
          LoadFixes(fields[i].value);
          MergeShrinks(fields[i].key);
        }
        if Clean(v) {
          assert loaded == fields;
        }
        if DistinctKeys(loaded) { SetAllDistinct(loaded, []); }
      case _ =>
    }
  }

  lemma {:induction false} SortKeepsClean(v: Json)
    ensures Clean(SortKeys(v)) <==> Clean(v)
    decreases v
  {
    match v {
      case Arr(items) =>
        forall i | 0 <= i < |items| ensures Clean(SortKeys(items[i])) <==> Clean(items[i]) { SortKeepsClean(items[i]); }
        assert forall i :: 0 <= i < |items| ==> SortKeys(v).items[i] == SortKeys(items[i]);
      case Obj(fields) =>
        var values := SortValues(fields);
        var sorted := Sort(values);
        SameMembers(values);
        forall i | 0 <= i < |fields| ensures Clean(SortKeys(fields[i].value)) <==> Clean(fields[i].value) {
          SortKeepsClean(fields[i].value);
        }
        if Clean(v) {
          forall i | 0 <= i < |sorted| ensures Unpaired(sorted[i].key) && Clean(sorted[i].value) {
            assert sorted[i] in values;
          }
        }
        if Clean(SortKeys(v)) {
          forall i | 0 <= i < |fields| ensures Unpaired(fields[i].key) && Clean(fields[i].value) {
            assert values[i] in sorted;
          }
        }
      case _ =>
    }
  }

  lemma {:induction false} SortIdempotent(v: Json)
    requires WellKeyed(v)
    ensures SortKeys(SortKeys(v)) == SortKeys(v)
  {
    SortKeepsMeaning(v);
    MeaningFixesSorted(SortKeys(v), v);
  }

  lemma {:induction false} SetAllMembers(fields: seq<Field>, acc: seq<Field>)
    requires DistinctKeys(acc)
    ensures DistinctKeys(SetAll(fields, acc))
    ensures forall f :: f in SetAll(fields, acc) ==> f in fields || f in acc
    decreases |fields|
  {
    if fields != [] {
      DictSetKeepsDistinct(acc, fields[0].key, fields[0].value);
      SetAllMembers(fields[1..], DictSet(acc, fields[0].key, fields[0].value));
    }
  }

  lemma {:induction false} LoadWellKeyed(v: Json)
    ensures WellKeyed(Load(v))
    decreases v
  {
    match v {
      case Arr(items) =>
        LoadItemsAt(items, []);
        assert Load(v).items == seq(|items|, i requires 0 <= i < |items| => Load(items[i]));
        forall i | 0 <= i < |items| ensures WellKeyed(Load(items[i])) { LoadWellKeyed(items[i]); }
      case Obj(fields) =>
        var loaded := LoadedFields(fields);
        LoadFieldsSets(fields, []);
        SetAllMembers(loaded, []);
        forall i | 0 <= i < |fields| ensures WellKeyed(Load(fields[i].value)) { LoadWellKeyed(fields[i].value); }
        var r := SetAll(loaded, []);
        forall i | 0 <= i < |r| ensures WellKeyed(r[i].value) { assert r[i] in loaded; }
      case _ =>
    }
  }

  // ---------- The properties of the key ----------

  /** Every key, clean or not, parses, and what it parses to is again a dict. */
  lemma KeyParses(ctx: Context)
    ensures Loads(CtxKey(ctx)) == Some(Load(SortKeys(OrEmpty(ctx))))
    ensures IsContext(Loads(CtxKey(ctx)).value) && Loads(CtxKey(ctx)).value.Obj?
  {
    ReadBack(SortKeys(OrEmpty(ctx)));
    LoadWellKeyed(SortKeys(OrEmpty(ctx)));
  }

  /** json.loads on a stored key; a text that no store wrote reads as the empty context. */
  function ParseKey(key: Text): Context {
    match Loads(key)
    case None => Obj([])
    case Some(v) => if IsContext(v) then v else Obj([])
  }

  /** A text that a store may hold as a context key. */
  ghost predicate IsKey(key: Text) {
    exists ctx: Context :: CtxKey(ctx) == key
  }

  /** On the texts that a store holds, json.loads succeeds and ParseKey is its result. */
  lemma StoredKeyParses(key: Text)
    requires IsKey(key)
    ensures Loads(key) == Some(ParseKey(key)) && ParseKey(key).Obj?
  {
    var ctx: Context :| CtxKey(ctx) == key;
    KeyParses(ctx);
  }

  /**
    Parsing the key gives back the context, with its keys in order, exactly when no text in it
    holds a surrogate pair as two code points.
  */
  lemma KeyRoundTrip(ctx: Context)
    ensures ParseKey(CtxKey(ctx)) == SortKeys(OrEmpty(ctx)) <==> Clean(ctx)
    ensures Clean(ctx) ==> Meaning(ParseKey(CtxKey(ctx))) == Meaning(OrEmpty(ctx))
  {
    var v := OrEmpty(ctx);
    KeyParses(ctx);
    SortKeepsMeaning(v);
    SortKeepsClean(v);
    LoadFixes(SortKeys(v));
  }

  /**
    Two contexts have the same key exactly when, sorted, they differ only in astral characters
    written as two surrogates; clean ones, exactly when they are the same dict in any order.
  */
  lemma KeyIdentifies(a: Context, b: Context)
    ensures CtxKey(a) == CtxKey(b) <==> Split(SortKeys(OrEmpty(a))) == Split(SortKeys(OrEmpty(b)))
    ensures Clean(a) && Clean(b) ==> (CtxKey(a) == CtxKey(b) <==> Meaning(OrEmpty(a)) == Meaning(OrEmpty(b)))
  {
    var v, w := OrEmpty(a), OrEmpty(b);
    PrintedAlike(SortKeys(v), SortKeys(w));
    SortKeepsMeaning(v);
    SortKeepsMeaning(w);
    KeyRoundTrip(a);
    KeyRoundTrip(b);
    if Meaning(v) == Meaning(w) { MeaningFixesSorted(v, w); }
  }

  /** Insertion order never matters, at any nesting level, for clean and unclean contexts alike. */
  lemma KeyIgnoresOrder(a: Context, b: Context)
    requires Meaning(OrEmpty(a)) == Meaning(OrEmpty(b))
    ensures CtxKey(a) == CtxKey(b)
  {
    MeaningFixesSorted(OrEmpty(a), OrEmpty(b));
  }

  /** A split surrogate pair and the astral character it stands for are printed alike. */
  lemma PairPrintsAsAstral(rest: Text)
    ensures PrintText([0xD83D, 0xDE00], rest) == PrintText([0x1_F600], rest)
  {
    var pair: Text, astral: Text, end := [0xD83D, 0xDE00], [0x1_F600], [QUOTE] + rest;
    assert pair[1..] == [0xDE00] && pair[1..][1..] == [] && astral[1..] == [];
    assert PrintChars(pair[1..], end) == PrintUnit(0xDE00, end);
    assert PrintChars(pair, end) == PrintUnit(0xD83D, PrintUnit(0xDE00, end)) == PrintChars(astral, end);
  }

  /** Two different contexts, one of them unclean, that share a key. */
  lemma UncleanKeysCollide() returns (a: Context, b: Context)
    ensures !Clean(a) && Clean(b)
    ensures Meaning(a) != Meaning(b) && CtxKey(a) == CtxKey(b)
  {
    var name: Text, pair: Text, astral: Text := [97], [0xD83D, 0xDE00], [0x1_F600];
    SingleField(name, Str(pair));
    SingleField(name, Str(astral));
    a, b := Obj([Field(name, Str(pair))]), Obj([Field(name, Str(astral))]);
    assert IsHigh(pair[0]) && IsLow(pair[1]) && !Unpaired(pair);
    assert !Clean(a.fields[0].value);
    assert FieldMap(a.fields)[name] == VStr(pair) && FieldMap(b.fields)[name] == VStr(astral);
    PairPrintsAsAstral([CLOSE_BRACE]);
  }

  lemma SingleField(key: Text, value: Json)
    requires WellKeyed(value)
    ensures WellKeyed(Obj([Field(key, value)]))
    ensures SortKeys(Obj([Field(key, value)])) == Obj([Field(key, SortKeys(value))])
    ensures FieldMap([Field(key, value)]) == map[key := Meaning(value)]
    ensures Dumps(Obj([Field(key, value)])) ==
            [OPEN_BRACE] + PrintText(key, [COLON, SPACE] + Print(value, [CLOSE_BRACE]))
  {
    var fields := [Field(key, value)];
    assert SortValues(fields) == [Field(key, SortKeys(value))];
    assert Sort(SortValues(fields)) == SortValues(fields);
    assert fields[..0] == [];
    assert [CLOSE_BRACE] + [] == [CLOSE_BRACE];
    assert Dumps(Obj(fields)) == [OPEN_BRACE] + PrintFields(fields, [CLOSE_BRACE]);
  }

  /** No context and the empty context share the key {}, which the tables have as their default. */
  lemma EmptyKey()
    ensures CtxKey(Null) == CtxKey(Obj([])) == [OPEN_BRACE, CLOSE_BRACE]
  {
    assert SortValues([]) == [];
    assert [CLOSE_BRACE] + [] == [CLOSE_BRACE];
  }
}
