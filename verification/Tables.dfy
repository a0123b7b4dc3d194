/** Keyed tables as row sequences, with the statements the two stores run against them. */
module Tables {
  import opened Wrappers

  datatype Row<K, V> = Row(key: K, val: V)

  /** The primary key constraint. */
  ghost predicate Unique<K(!new), V(!new)>(rows: seq<Row<K, V>>) {
    forall i, j :: 0 <= i < j < |rows| ==> rows[i].key != rows[j].key
  }

  /** The rows whose key satisfies p, in table order: a SELECT, or what a DELETE leaves. */
  function Select<K(!new), V(!new)>(rows: seq<Row<K, V>>, p: K -> bool): seq<Row<K, V>> {
    if rows == [] then [] else (if p(rows[0].key) then [rows[0]] else []) + Select(rows[1..], p)
  }

  function Without<K(==,!new), V(!new)>(rows: seq<Row<K, V>>, key: K): seq<Row<K, V>> {
    Select(rows, k => k != key)
  }

  /** INSERT ... ON CONFLICT DO UPDATE: an existing row is rewritten where it stands. */
  function Upsert<K(==,!new), V(!new)>(rows: seq<Row<K, V>>, key: K, val: V): seq<Row<K, V>> {
    if rows == [] then [Row(key, val)]
    else if rows[0].key == key then [Row(key, val)] + rows[1..]
    else [rows[0]] + Upsert(rows[1..], key, val)
  }

  /** INSERT OR REPLACE, and DELETE followed by INSERT: the new row goes to the end. */
  function Reinsert<K(==,!new), V(!new)>(rows: seq<Row<K, V>>, key: K, val: V): seq<Row<K, V>> {
    Without(rows, key) + [Row(key, val)]
  }

  /** SELECT ... WHERE key = ? with fetchone. */
  function Find<K(==,!new), V(!new)>(rows: seq<Row<K, V>>, key: K): Option<V> {
    if rows == [] then None else if rows[0].key == key then Some(rows[0].val) else Find(rows[1..], key)
  }

  /** The table as a map. */
  function View<K(==,!new), V(!new)>(rows: seq<Row<K, V>>): map<K, V> {
    if rows == [] then map[] else View(rows[1..])[rows[0].key := rows[0].val]
  }

  lemma {:induction false} FindView<K(!new), V(!new)>(rows: seq<Row<K, V>>, key: K)
    ensures Find(rows, key) == if key in View(rows) then Some(View(rows)[key]) else None
    decreases |rows|
  {
    if rows != [] { FindView(rows[1..], key); }
  }

  lemma UniqueHead<K(!new), V(!new)>(rows: seq<Row<K, V>>)
    requires Unique(rows) && rows != []
    ensures Unique(rows[1..])
    ensures forall r :: r in rows[1..] ==> r.key != rows[0].key
  {
  }

  lemma UniqueCons<K(!new), V(!new)>(head: Row<K, V>, tail: seq<Row<K, V>>)
    requires Unique(tail)
    requires forall r :: r in tail ==> r.key != head.key
    ensures Unique([head] + tail)
  {
  }

  lemma {:induction false} ViewRows<K(!new), V(!new)>(rows: seq<Row<K, V>>)
    requires Unique(rows)
    ensures forall r :: r in rows <==> r.key in View(rows) && View(rows)[r.key] == r.val
    decreases |rows|
  {
    if rows != [] {
      UniqueHead(rows);
      ViewRows(rows[1..]);
      assert rows == [rows[0]] + rows[1..];
      forall r ensures r in rows <==> r.key in View(rows) && View(rows)[r.key] == r.val {
        assert r in rows <==> r == rows[0] || r in rows[1..];
        if r.key == rows[0].key { assert r == rows[0] <==> r.val == rows[0].val; }
      }
    }
  }

  /** A unique table is the map m as soon as its rows are the entries of m. */
  lemma ViewIs<K(!new), V(!new)>(rows: seq<Row<K, V>>, m: map<K, V>)
    requires Unique(rows)
    requires forall r :: r in rows <==> r.key in m && m[r.key] == r.val
    ensures View(rows) == m
  {
    ViewRows(rows);
    var v := View(rows);
    forall k ensures k in v <==> k in m {
      if k in v { assert Row(k, v[k]) in rows; }
      if k in m { assert Row(k, m[k]) in rows; }
    }
    forall k | k in m ensures v[k] == m[k] { assert Row(k, m[k]) in rows; }
  }

  lemma {:induction false} SelectMembers<K(!new), V(!new)>(rows: seq<Row<K, V>>, p: K -> bool)
    ensures forall r :: r in Select(rows, p) <==> r in rows && p(r.key)
    decreases |rows|
  {
    if rows != [] {
      SelectMembers(rows[1..], p);
      assert rows == [rows[0]] + rows[1..];
    }
  }

  lemma {:induction false} SelectAppend<K(!new), V(!new)>(rows: seq<Row<K, V>>, last: Row<K, V>, p: K -> bool)
    ensures Select(rows + [last], p) == Select(rows, p) + if p(last.key) then [last] else []
    decreases |rows|
  {
    var all := rows + [last];
    var tail := if p(last.key) then [last] else [];
    if rows == [] {
      assert all == [last] && all[1..] == [];
      assert Select(all[1..], p) == [] && Select(rows, p) == [];
      assert Select(all, p) == tail + [] == [] + tail;
    } else {
      var head := if p(rows[0].key) then [rows[0]] else [];
      SelectAppend(rows[1..], last, p);
      assert all[0] == rows[0] && all[1..] == rows[1..] + [last];
      assert Select(all, p) == head + (Select(rows[1..], p) + tail) == (head + Select(rows[1..], p)) + tail;
    }
  }

  lemma {:induction false} SelectUnique<K(!new), V(!new)>(rows: seq<Row<K, V>>, p: K -> bool)
    requires Unique(rows)
    ensures Unique(Select(rows, p))
    decreases |rows|
  {
    if rows != [] {
      UniqueHead(rows);
      SelectUnique(rows[1..], p);
      SelectMembers(rows[1..], p);
      UniqueCons(rows[0], Select(rows[1..], p));
    }
  }

  lemma SelectView<K(!new), V(!new)>(rows: seq<Row<K, V>>, p: K -> bool)
    requires Unique(rows)
    ensures Unique(Select(rows, p))
    ensures View(Select(rows, p)) == map k | k in View(rows) && p(k) :: View(rows)[k]
  {
    SelectUnique(rows, p);
    SelectMembers(rows, p);
    ViewRows(rows);
    ViewIs(Select(rows, p), map k | k in View(rows) && p(k) :: View(rows)[k]);
  }

  lemma {:induction false} UpsertMembers<K(!new), V(!new)>(rows: seq<Row<K, V>>, key: K, val: V)
    requires Unique(rows)
    ensures Unique(Upsert(rows, key, val))
    ensures forall r :: r in Upsert(rows, key, val) <==> r == Row(key, val) || (r in rows && r.key != key)
    decreases |rows|
  {
    if rows != [] {
      UniqueHead(rows);
      assert rows == [rows[0]] + rows[1..];
      if rows[0].key == key {
        UniqueCons(Row(key, val), rows[1..]);
      } else {
        UpsertMembers(rows[1..], key, val);
        UniqueCons(rows[0], Upsert(rows[1..], key, val));
      }
    }
  }

  lemma UpsertView<K(!new), V(!new)>(rows: seq<Row<K, V>>, key: K, val: V)
    requires Unique(rows)
    ensures Unique(Upsert(rows, key, val))
    ensures View(Upsert(rows, key, val)) == View(rows)[key := val]
  {
    UpsertMembers(rows, key, val);
    ViewRows(rows);
    ViewIs(Upsert(rows, key, val), View(rows)[key := val]);
  }

  /** An upsert rewrites a row where it stands, or adds one at the end. */
  lemma {:induction false} UpsertInPlace<K(!new), V(!new)>(rows: seq<Row<K, V>>, key: K, val: V, i: nat)
    requires i < |rows|
    ensures var after := Upsert(rows, key, val);
            && |after| == (if key in View(rows) then |rows| else |rows| + 1)
            && after[i].key == rows[i].key && (rows[i].key != key ==> after[i] == rows[i])
            && (key !in View(rows) ==> after[|rows|] == Row(key, val))
    decreases |rows|
  {
    if rows[0].key != key && |rows| > 1 {
      UpsertInPlace(rows[1..], key, val, if i == 0 then 0 else i - 1);
    }
  }

  lemma ReinsertView<K(!new), V(!new)>(rows: seq<Row<K, V>>, key: K, val: V)
    requires Unique(rows)
    ensures Unique(Reinsert(rows, key, val))
    ensures View(Reinsert(rows, key, val)) == View(rows)[key := val]
  {
    var p := (k: K) => k != key;
    var kept := Select(rows, p);
    assert Reinsert(rows, key, val) == kept + [Row(key, val)];
    SelectMembers(rows, p);
    SelectUnique(rows, p);
    forall i | 0 <= i < |kept| ensures kept[i].key != key { assert kept[i] in kept; }
    ViewRows(rows);
    ViewIs(Reinsert(rows, key, val), View(rows)[key := val]);
  }

  lemma {:induction false} CountUnique<K(!new), V(!new)>(rows: seq<Row<K, V>>, r: Row<K, V>)
    requires Unique(rows)
    ensures multiset(rows)[r] == if r in rows then 1 else 0
    decreases |rows|
  {
    if rows != [] {
      UniqueHead(rows);
      CountUnique(rows[1..], r);
      assert rows == [rows[0]] + rows[1..];
    }
  }

  /** Tables with unique keys are permutations of each other exactly when they are the same map. */
  lemma SameRows<K(!new), V(!new)>(a: seq<Row<K, V>>, b: seq<Row<K, V>>)
    requires Unique(a) && Unique(b)
    ensures View(a) == View(b) <==> multiset(a) == multiset(b)
  {
    ViewRows(a);
    ViewRows(b);
    if View(a) == View(b) {
      forall r ensures multiset(a)[r] == multiset(b)[r] {
        CountUnique(a, r);
        CountUnique(b, r);
        assert r in a <==> r in b;
      }
    }
    if multiset(a) == multiset(b) {
      forall r ensures r in a <==> r in b {
        assert r in a <==> r in multiset(a);
        assert r in b <==> r in multiset(b);
      }
      ViewIs(a, View(b));
    }
  }

  lemma {:induction false} SelectTwice<K(!new), V(!new)>(rows: seq<Row<K, V>>, p: K -> bool, q: K -> bool,
      both: K -> bool)
    requires forall k :: both(k) <==> p(k) && q(k)
    ensures Select(Select(rows, p), q) == Select(rows, both)
    decreases |rows|
  {
    if rows != [] {
      SelectTwice(rows[1..], p, q, both);
      var rest := Select(rows[1..], p);
      if p(rows[0].key) { assert ([rows[0]] + rest)[1..] == rest; } else { assert [] + rest == rest; }
    }
  }

  lemma {:induction false} SelectSame<K(!new), V(!new)>(rows: seq<Row<K, V>>, p: K -> bool, q: K -> bool)
    requires forall k :: p(k) <==> q(k)
    ensures Select(rows, p) == Select(rows, q)
    decreases |rows|
  {
    if rows != [] { SelectSame(rows[1..], p, q); }
  }

  function MapAll<A, B>(xs: seq<A>, f: A -> B): (ys: seq<B>)
    ensures |ys| == |xs| && forall i :: 0 <= i < |xs| ==> ys[i] == f(xs[i])
  {
    seq(|xs|, i requires 0 <= i < |xs| => f(xs[i]))
  }

  lemma MapAllConcat<A(!new), B(!new)>(xs: seq<A>, ys: seq<A>, f: A -> B)
    ensures MapAll(xs + ys, f) == MapAll(xs, f) + MapAll(ys, f)
  {
  }

  function Drop<A>(xs: seq<A>, i: nat): seq<A>
    requires i < |xs|
  {
    xs[..i] + xs[i + 1..]
  }

  lemma DropCount<A(!new)>(xs: seq<A>, i: nat)
    requires i < |xs|
    ensures multiset(xs) == multiset(Drop(xs, i)) + multiset{xs[i]}
  {
    assert xs == xs[..i] + [xs[i]] + xs[i + 1..];
  }

  lemma MapAllDrop<A(!new), B(!new)>(xs: seq<A>, i: nat, f: A -> B)
    requires i < |xs|
    ensures multiset(MapAll(xs, f)) == multiset(MapAll(Drop(xs, i), f)) + multiset{f(xs[i])}
  {
    DropCount(MapAll(xs, f), i);
    assert MapAll(Drop(xs, i), f) == Drop(MapAll(xs, f), i);
  }

  /** Mapping two permutations of the same elements gives two permutations. */
  lemma {:induction false} MapPermuted<A(!new), B(!new)>(xs: seq<A>, ys: seq<A>, f: A -> B)
    requires multiset(xs) == multiset(ys)
    ensures multiset(MapAll(xs, f)) == multiset(MapAll(ys, f))
    decreases |xs|
  {
    if xs == [] {
      assert |multiset(ys)| == 0;
    } else {
      assert xs[0] in multiset(ys);
      var i :| 0 <= i < |ys| && ys[i] == xs[0];
      DropCount(xs, 0);
      DropCount(ys, i);
      assert multiset(Drop(xs, 0)) == multiset(xs) - multiset{xs[0]} == multiset(Drop(ys, i));
      assert |Drop(xs, 0)| < |xs|;
      MapPermuted(Drop(xs, 0), Drop(ys, i), f);
      MapAllDrop(xs, 0, f);
      MapAllDrop(ys, i, f);
    }
  }

  /** A sequence longer than the pool it draws from repeats an element. */
  lemma {:induction false} Pigeonhole<A(!new)>(p: seq<A>, pool: seq<A>) returns (i: nat, j: nat)
    requires |p| > |pool| && forall d :: d in p ==> d in pool
    ensures i < j < |p| && p[i] == p[j]
    decreases |pool|
  {
    var d := p[0];
    assert d in p;
    if k :| 0 < k < |p| && p[k] == d {
      i, j := 0, k;
    } else {
      var at :| 0 <= at < |pool| && pool[at] == d;
      var fewer := pool[..at] + pool[at + 1..];
      forall e | e in p[1..] ensures e in fewer {
        assert e in p;
        var k :| 0 <= k < |p[1..]| && p[1..][k] == e;
        assert p[k + 1] == e;
        var m :| 0 <= m < |pool| && pool[m] == e;
        if m < at { assert fewer[m] == e; } else { assert fewer[m - 1] == e; }
      }
      i, j := Pigeonhole(p[1..], fewer);
      i, j := i + 1, j + 1;
    }
  }
}
