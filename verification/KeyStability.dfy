/**
  The cascade parses a stored context key and prints the result as a key again. Exactly for which
  contexts that text is the stored one.
*/
module KeyStability {
  import opened Json
  import opened PrintedForm
  import opened ContextKey

  /** Joining split surrogate pairs leaves the keys in strictly increasing order. */
  predicate JoinedSorted(fields: seq<Field>) {
    forall i, j :: 0 <= i < j < |fields| ==> Less(Merge(fields[i].key), Merge(fields[j].key))
  }

  /** In every object of the value the keys stay in order when split surrogate pairs are joined. */
  predicate Aligned(v: Json)
    decreases v
  {
    match v
    case Arr(items) => forall i :: 0 <= i < |items| ==> Aligned(items[i])
    case Obj(fields) => JoinedSorted(fields) && forall i :: 0 <= i < |fields| ==> Aligned(fields[i].value)
    case _ => true
  }

  /** The key the cascade computes again from the parsed text of a stored key. */
  function Rekey(key: Text): Text {
    CtxKey(ParseKey(key))
  }

  // ---------- Joined texts ----------

  lemma {:induction false} JoinedIsUnpaired(s: Text)
    ensures Unpaired(Merge(s))
    ensures s != [] ==> Merge(s) != [] && (Merge(s)[0] == s[0] || Merge(s)[0] >= 0x1_0000)
    decreases |s|
  {
    if s == [] {
    } else if |s| >= 2 && IsHigh(s[0]) && IsLow(s[1]) {
      JoinedIsUnpaired(s[2..]);
    } else {
      JoinedIsUnpaired(s[1..]);
    }
  }

  lemma SplitCons(c: CodePoint, s: Text)
    ensures SplitText([c] + s) == SplitChar(c) + SplitText(s)
  {
    assert ([c] + s)[1..] == s;
  }

  lemma SplitPair(h: CodePoint, l: CodePoint, s: Text)
    requires IsHigh(h) && IsLow(l)
    ensures SplitText([Join(h, l)] + s) == SplitText([h] + ([l] + s))
  {
    SplitCons(Join(h, l), s);
    SplitCons(l, s);
    SplitCons(h, [l] + s);
    assert SplitChar(Join(h, l)) == [h, l];
  }

  lemma {:induction false} JoinedSplits(s: Text)
    ensures SplitText(Merge(s)) == SplitText(s)
    decreases |s|
  {
    if s == [] {
    } else if |s| >= 2 && IsHigh(s[0]) && IsLow(s[1]) {
      JoinedSplits(s[2..]);
      SplitPair(s[0], s[1], Merge(s[2..]));
      SplitCons(s[1], Merge(s[2..]));
      SplitCons(s[1], s[2..]);
      SplitCons(s[0], [s[1]] + Merge(s[2..]));
      assert s[1..] == [s[1]] + s[2..];
    } else {
      JoinedSplits(s[1..]);
      SplitCons(s[0], Merge(s[1..]));
    }
  }

  lemma {:induction false} LoadIsClean(v: Json)
    ensures Clean(Load(v))
    decreases v
  {
    match v {
      case Str(s) => JoinedIsUnpaired(s);
      case Arr(items) =>
        LoadItemsAt(items, []);
        assert Load(v).items == seq(|items|, i requires 0 <= i < |items| => Load(items[i]));
        forall i | 0 <= i < |items| ensures Clean(Load(items[i])) { LoadIsClean(items[i]); }
      case Obj(fields) =>
        var loaded := LoadedFields(fields);
        LoadFieldsSets(fields, []);
        SetAllMembers(loaded, []);
        forall i | 0 <= i < |fields| ensures Unpaired(loaded[i].key) && Clean(loaded[i].value) {
          JoinedIsUnpaired(fields[i].key);
          LoadIsClean(fields[i].value);
        }
        var r := SetAll(loaded, []);
        forall i | 0 <= i < |r| ensures Unpaired(r[i].key) && Clean(r[i].value) { assert r[i] in loaded; }
      case _ =>
    }
  }

  // ---------- Aligned values ----------

  lemma SortedStays(fields: seq<Field>)
    requires Sorted(fields)
    ensures Sort(fields) == fields
  {
    SortedDistinct(fields);
    SortSorts(fields);
    SameMembers(fields);
    SortedUnique(Sort(fields), fields);
  }

  /** Reading an aligned value back keeps its order, and all its fields. */
  lemma {:induction false} AlignedReadsBack(v: Json)
    requires Aligned(v)
    ensures SortKeys(Load(v)) == Load(v) && Split(Load(v)) == Split(v)
    decreases v
  {
    match v {
      case Str(s) => JoinedSplits(s);
      case Arr(items) =>
        LoadItemsAt(items, []);
        var loaded := Load(v).items;
        assert loaded == seq(|items|, i requires 0 <= i < |items| => Load(items[i]));
        forall i | 0 <= i < |items| ensures SortKeys(loaded[i]) == loaded[i] && Split(loaded[i]) == Split(items[i]) {
          AlignedReadsBack(items[i]);
        }
        assert SplitItems(loaded) == SplitItems(items);
      case Obj(fields) =>
        var loaded := LoadedFields(fields);
        AlignedFields(fields);
        forall i | 0 <= i < |fields|
          ensures SortKeys(loaded[i].value) == loaded[i].value && Split(loaded[i].value) == Split(fields[i].value)
        {
          AlignedReadsBack(fields[i].value);
        }
        forall i | 0 <= i < |fields| ensures SplitText(loaded[i].key) == SplitText(fields[i].key) {
          JoinedSplits(fields[i].key);
        }
        assert SortValues(loaded) == loaded;
        assert SplitFields(loaded) == SplitFields(fields);
        SortedStays(loaded);
      case _ =>
    }
  }

  lemma AlignedFields(fields: seq<Field>)
    requires JoinedSorted(fields)
    ensures Sorted(LoadedFields(fields)) && Load(Obj(fields)) == Obj(LoadedFields(fields))
  {
    var loaded := LoadedFields(fields);
    assert Sorted(loaded);
    SortedDistinct(loaded);
    LoadFieldsSets(fields, []);
    assert [] + loaded == loaded;
    SetAllDistinct(loaded, []);
  }

  /** Sorting that changes nothing finds the keys in order and the values sorted. */
  lemma SortedAlready(fields: seq<Field>)
    requires DistinctKeys(fields) && Sort(SortValues(fields)) == fields
    ensures Sorted(fields) && forall i :: 0 <= i < |fields| ==> SortKeys(fields[i].value) == fields[i].value
  {
    var values := SortValues(fields);
    SortSorts(values);
    SameMembers(values);
    forall i | 0 <= i < |fields| ensures SortKeys(fields[i].value) == fields[i].value {
      assert values[i] in fields;
      var j :| 0 <= j < |fields| && fields[j] == values[i];
      assert fields[j].key == fields[i].key;
    }
  }

  lemma ObjectReadBack(fields: seq<Field>)
    requires SortKeys(Load(Obj(fields))) == Load(Obj(fields)) && Split(Load(Obj(fields))) == Split(Obj(fields))
    ensures JoinedSorted(fields)
    ensures forall i :: 0 <= i < |fields| ==>
              var w := Load(fields[i].value); SortKeys(w) == w && Split(w) == Split(fields[i].value)
  {
    var loaded := LoadedFields(fields);
    LoadFieldsSets(fields, []);
    SetAllLength(loaded, []);
    assert |SplitFields(Load(Obj(fields)).fields)| == |SplitFields(fields)|;
    assert [] + loaded == loaded;
    SetAllDistinct(loaded, []);
    SortedAlready(loaded);
    forall i | 0 <= i < |fields| ensures Split(loaded[i].value) == Split(fields[i].value) {
      assert SplitFields(loaded)[i] == SplitFields(fields)[i];
    }
    forall i, j | 0 <= i < j < |fields| ensures Less(Merge(fields[i].key), Merge(fields[j].key)) {
      assert Less(loaded[i].key, loaded[j].key);
    }
  }

  /** Only aligned values keep their order and all their fields when they are read back. */
  lemma {:induction false} ReadBackAligned(v: Json)
    requires SortKeys(Load(v)) == Load(v) && Split(Load(v)) == Split(v)
    ensures Aligned(v)
    decreases v
  {
    match v {
      case Arr(items) =>
        LoadItemsAt(items, []);
        var loaded := Load(v).items;
        assert loaded == seq(|items|, i requires 0 <= i < |items| => Load(items[i]));
        forall i | 0 <= i < |items| ensures Aligned(items[i]) {
          assert SortKeys(Load(v)).items[i] == SortKeys(loaded[i]);
          assert SplitItems(loaded)[i] == SplitItems(items)[i];
          ReadBackAligned(items[i]);
        }
      case Obj(fields) =>
        ObjectReadBack(fields);
        forall i | 0 <= i < |fields| ensures Aligned(fields[i].value) { ReadBackAligned(fields[i].value); }
      case _ =>
    }
  }

  // ---------- The cascade's key ----------

  lemma RekeyOf(ctx: Context)
    ensures Rekey(CtxKey(ctx)) == Dumps(SortKeys(Load(SortKeys(OrEmpty(ctx)))))
  {
    KeyParses(ctx);
  }

  /** If the text comes out the same, reading back had left the keys in order. */
  lemma StableLoad(v: Json)
    requires Dumps(SortKeys(Load(v))) == Dumps(v)
    ensures SortKeys(Load(v)) == Load(v)
  {
    var w := Load(v);
    ReadBack(v);
    ReadBack(SortKeys(w));
    LoadWellKeyed(v);
    SortKeepsMeaning(w);
    LoadIsClean(v);
    SortKeepsClean(w);
    LoadFixes(SortKeys(w));
  }

  /**
    The key that the cascade computes for a stored row is the stored one exactly when joining split
    surrogate pairs leaves the keys of every object in order; clean contexts are among these.
  */
  lemma RekeyIsStable(ctx: Context)
    ensures Rekey(CtxKey(ctx)) == CtxKey(ctx) <==> Aligned(SortKeys(OrEmpty(ctx)))
    ensures Clean(ctx) ==> Rekey(CtxKey(ctx)) == CtxKey(ctx)
  {
    var v := SortKeys(OrEmpty(ctx));
    RekeyOf(ctx);
    PrintedAlike(Load(v), v);
    if Aligned(v) { AlignedReadsBack(v); }
    if Rekey(CtxKey(ctx)) == CtxKey(ctx) {
      StableLoad(v);
      ReadBackAligned(v);
    }
    if Clean(ctx) {
      KeyRoundTrip(ctx);
      SortIdempotent(OrEmpty(ctx));
    }
  }

  /** Whatever key is parsed and printed again, the result is the key of an aligned context. */
  lemma RekeyedIsAligned(key: Text, ctx: Context)
    requires IsKey(key) && Rekey(key) == CtxKey(ctx)
    ensures Aligned(SortKeys(OrEmpty(ctx)))
  {
    var stored: Context :| CtxKey(stored) == key;
    KeyParses(stored);
    LoadIsClean(SortKeys(OrEmpty(stored)));
    RekeyIsStable(ParseKey(key));
    RekeyIsStable(ctx);
  }

  /** A dict whose key the cascade does not find again: joined, its first key sorts after its second. */
  lemma RekeyMisses() returns (ctx: Context)
    ensures ctx == Obj([Field([0xD83D, 0xDE00], Null), Field([0xE000], Null)])
    ensures Rekey(CtxKey(ctx)) != CtxKey(ctx)
  {
    var pair: Text, plain: Text := [0xD83D, 0xDE00], [0xE000];
    var a, b := Field(pair, Null), Field(plain, Null);
    assert Sorted([a, b]);
    SortedDistinct([a, b]);
    assert WellKeyed(Obj([a, b]));
    ctx := Obj([a, b]);
    assert SortValues([a, b]) == [a, b];
    SortedStays([a, b]);
    assert pair[2..] == [] && plain[1..] == [];
    assert Merge(pair)[0] == 0x1_F600 && Merge(plain)[0] == 0xE000;
    assert !Less(Merge([a, b][0].key), Merge([a, b][1].key));
    RekeyIsStable(ctx);
  }
}
