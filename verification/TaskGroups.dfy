/** The Airflow task groups: where the sources come from, and which task waits for which. */
module TaskGroups {
  import opened Wrappers
  import opened Lineage

  // ---------- Task ids ----------

  /** name.replace(".", "__") */
  function Slugify(name: string): string {
    if name == "" then "" else (if name[0] == '.' then "__" else [name[0]]) + Slugify(name[1..])
  }

  /** Reads every pair of underscores, from the left, as a dot. */
  function Unslug(slug: string): string {
    if |slug| >= 2 && slug[0] == '_' && slug[1] == '_' then "." + Unslug(slug[2..])
    else if slug == "" then ""
    else [slug[0]] + Unslug(slug[1..])
  }

  /** An underscore right before another one or before a dot. */
  predicate Ambiguous(name: string) {
    exists i :: 0 <= i < |name| - 1 && name[i] == '_' && (name[i + 1] == '_' || name[i + 1] == '.')
  }

  lemma AmbiguousTail(name: string)
    requires name != ""
    ensures Ambiguous(name) <==>
            Ambiguous(name[1..]) || (|name| > 1 && name[0] == '_' && (name[1] == '_' || name[1] == '.'))
  {
  }

  /** A slug decodes to its name exactly when no underscore of the name precedes an underscore or a dot. */
  lemma {:induction false} SlugDecodes(name: string)
    ensures Unslug(Slugify(name)) == name <==> !Ambiguous(name)
    decreases |name|
  {
    if name != "" {
      var tail := name[1..];
      var slug := Slugify(tail);
      SlugDecodes(tail);
      AmbiguousTail(name);
      assert name == [name[0]] + tail;
      if name[0] == '.' {
        assert ("__" + slug)[2..] == slug;
        assert ("." + Unslug(slug))[1..] == Unslug(slug);
      } else {
        assert ([name[0]] + slug)[1..] == slug;
        assert ([name[0]] + Unslug(slug))[1..] == Unslug(slug);
        if tail != "" && name[0] == '_' && (tail[0] == '_' || tail[0] == '.') {
          assert slug[0] == '_';
          assert Unslug([name[0]] + slug)[0] == '.';
        }
      }
    }
  }

  predicate Distinct<T(==)>(xs: seq<T>) {
    forall i, j :: 0 <= i < j < |xs| ==> xs[i] != xs[j]
  }

  function SensorId(source: string): string {
    "wait_" + Slugify(source)
  }

  /** A text without dots is a slug: reading its underscores as dots and writing them again gives it back. */
  lemma {:induction false} UnslugRoundTrip(slug: string)
    requires '.' !in slug
    ensures Slugify(Unslug(slug)) == slug
    decreases |slug|
  {
    if |slug| >= 2 && slug[0] == '_' && slug[1] == '_' {
      UnslugRoundTrip(slug[2..]);
      assert ("." + Unslug(slug[2..]))[1..] == Unslug(slug[2..]);
      assert slug == "__" + slug[2..];
    } else if slug != "" {
      UnslugRoundTrip(slug[1..]);
      assert ([slug[0]] + Unslug(slug[1..]))[1..] == Unslug(slug[1..]);
      assert slug[0] in slug && slug == [slug[0]] + slug[1..];
    }
  }

  lemma {:induction false} SlugHasNoDot(name: string)
    ensures '.' !in Slugify(name)
    decreases |name|
  {
    if name != "" { SlugHasNoDot(name[1..]); }
  }

  /** The name a sensor id stands for. */
  function Decoded(source: string): string {
    Unslug(Slugify(source))
  }

  function SensorIds(sources: seq<string>): seq<string> {
    seq(|sources|, i requires 0 <= i < |sources| => SensorId(sources[i]))
  }

  function DecodedNames(sources: seq<string>): seq<string> {
    seq(|sources|, i requires 0 <= i < |sources| => Decoded(sources[i]))
  }

  /** Two tables share a sensor id exactly when their names read alike with every double underscore as a dot. */
  lemma SensorIdDecodes(a: string, b: string)
    ensures SensorId(a) == SensorId(b) <==> Decoded(a) == Decoded(b)
    ensures !Ambiguous(a) && !Ambiguous(b) ==> (SensorId(a) == SensorId(b) <==> a == b)
  {
    assert SensorId(a)[5..] == Slugify(a) && SensorId(b)[5..] == Slugify(b);
    SlugHasNoDot(a);
    SlugHasNoDot(b);
    UnslugRoundTrip(Slugify(a));
    UnslugRoundTrip(Slugify(b));
    SlugDecodes(a);
    SlugDecodes(b);
  }

  /** The sensors of a group have distinct ids exactly when no two sources stand for one name. */
  lemma SensorIdsDistinct(sources: seq<string>)
    ensures Distinct(SensorIds(sources)) <==> Distinct(DecodedNames(sources))
    ensures Distinct(sources) && (forall s :: s in sources ==> !Ambiguous(s)) ==> Distinct(SensorIds(sources))
  {
    forall i, j | 0 <= i < j < |sources|
      ensures SensorId(sources[i]) == SensorId(sources[j]) <==> Decoded(sources[i]) == Decoded(sources[j])
      ensures !Ambiguous(sources[i]) && !Ambiguous(sources[j]) ==>
                (SensorId(sources[i]) == SensorId(sources[j]) <==> sources[i] == sources[j])
    {
      SensorIdDecodes(sources[i], sources[j]);
    }
    var ids, names := SensorIds(sources), DecodedNames(sources);
    forall i, j | 0 <= i < j < |sources| ensures ids[i] == ids[j] <==> names[i] == names[j] {}
  }

  /** Two different tables, one of them unambiguous, whose sensors would share an id. */
  lemma SlugsCollide() returns (a: string, b: string)
    ensures a != b && SensorId(a) == SensorId(b) && !Ambiguous(b)
  {
    a, b := "a__b", "a.b";
    assert Slugify(a) == "a__b" by {
      assert a[1..] == "__b" && "__b"[1..] == "_b" && "_b"[1..] == "b" && "b"[1..] == "";
      assert Slugify("b") == "b" && Slugify("_b") == "_b" && Slugify("__b") == "__b";
    }
    assert Slugify(b) == "a__b" by {
      assert b[1..] == ".b" && ".b"[1..] == "b" && "b"[1..] == "";
      assert Slugify("b") == "b" && Slugify(".b") == "__b";
    }
  }

  // ---------- Sources ----------

  datatype GroupError = SinkMismatch | CircularDependency

  /** dict.fromkeys: the first of equal elements stays. */
  function Dedup(xs: seq<string>): (r: seq<string>)
    ensures Distinct(r) && forall x :: x in r <==> x in xs
  {
    if xs == [] then []
    else
      var last := |xs| - 1;
      assert xs == xs[..last] + [xs[last]];
      var r := Dedup(xs[..last]);
      if xs[last] in r then r else r + [xs[last]]
  }

  /** SQL that the parser takes: at least one statement. */
  predicate Parses(sql: Option<Sql>) {
    sql.Some? && sql.value.Parsed? && exists s :: s in sql.value.stmts && s.Some?
  }

  /** Sources that were not given are taken from SQL that parses. */
  predicate FromSql(sources: Option<seq<string>>, sql: Option<Sql>) {
    sources.None? && Parses(sql)
  }

  predicate Mismatched(sql: Option<Sql>, table: string)
    requires Parses(sql)
  {
    Sinks(sql.value.stmts) != {} && table !in Sinks(sql.value.stmts)
  }

  /** A script is refused for a table that it does not write, if it writes one at all. */
  lemma MismatchMeans(sql: Sql, table: string)
    requires Parses(Some(sql))
    ensures Mismatched(Some(sql), table) <==>
            && (exists i :: 0 <= i < |sql.stmts| && TargetOf(sql.stmts[i]).Some?)
            && (forall i :: 0 <= i < |sql.stmts| ==> TargetOf(sql.stmts[i]) != Some(table))
  {
    if i :| 0 <= i < |sql.stmts| && TargetOf(sql.stmts[i]).Some? {
      assert TargetOf(sql.stmts[i]).value in Sinks(sql.stmts);
    }
    if Sinks(sql.stmts) != {} {
      var x :| x in Sinks(sql.stmts);
      assert exists i :: 0 <= i < |sql.stmts| && TargetOf(sql.stmts[i]) == Some(x);
    }
  }

  method ResolveSources(sources: Option<seq<string>>, sql: Option<Sql>, table: string)
      returns (r: Result<seq<string>, GroupError>)
    ensures r == Err(SinkMismatch) <==> FromSql(sources, sql) && Mismatched(sql, table)
    ensures r.Err? ==> r.error == SinkMismatch
    ensures r.Ok? ==> Distinct(r.value)
    ensures r.Ok? && sources.Some? ==> forall x :: x in r.value <==> x in sources.value
    ensures r.Ok? && FromSql(sources, sql) ==> forall x :: x in r.value <==> IsSource(sql.value.stmts, x)
    ensures r.Ok? && sources.None? && !Parses(sql) ==> r.value == []
  {
    if sources.Some? {
      return Ok(Dedup(sources.value));
    }
    if sql.None? {
      return Ok([]);
    }
    var lineage := ExtractLineage(sql.value);
    if lineage.Err? {
      return Ok([]);
    }
    if lineage.value.sinks != {} && table !in lineage.value.sinks {
      return Err(SinkMismatch);
    }
    var listed := Enumerate(lineage.value.sources);
    return Ok(listed);
  }

  /** list(frozenset): in whatever order. */
  method Enumerate(names: set<string>) returns (listed: seq<string>)
    ensures Distinct(listed) && forall x :: x in listed <==> x in names
  {
    listed := [];
    var left := names;
    while left != {}
      invariant Distinct(listed) && left <= names && forall x :: x in listed <==> x in names - left
      decreases left
    {
      var x :| x in left;
      assert x !in listed;
      forall k | 0 <= k < |listed| ensures listed[k] != x { assert listed[k] in listed; }
      listed := listed + [x];
      left := left - {x};
    }
  }

  // ---------- Wiring ----------

  datatype Task = Sensor(source: string) | RunSql | Dq(check: string) | Emit | Wrapped

  /** Airflow tasks of a group and its edges, each from an upstream task to a task that waits for it. */
  datatype TaskGraph = TaskGraph(tasks: set<Task>, edges: set<(Task, Task)>)

  /** sensors >> sql_operator >> dq checks >> signal emitter */
  function SqlGraph(sources: set<string>, checks: set<string>): TaskGraph {
    TaskGraph(
      (set s | s in sources :: Sensor(s)) + {RunSql, Emit} + (set c | c in checks :: Dq(c)),
      (set s | s in sources :: (Sensor(s), RunSql))
      + (set c | c in checks :: (RunSql, Dq(c)))
      + (set c | c in checks :: (Dq(c), Emit)))
  }

  /** sensors >> the wrapped operator */
  function WrappedGraph(sources: set<string>): TaskGraph {
    TaskGraph((set s | s in sources :: Sensor(s)) + {Wrapped}, set s | s in sources :: (Sensor(s), Wrapped))
  }

  /** The condition under which both builders refuse a table as its own source. */
  ghost predicate Circular(sources: Option<seq<string>>, sql: Option<Sql>, table: string) {
    || (sources.Some? && table in sources.value)
    || (FromSql(sources, sql) && !Mismatched(sql, table) && IsSource(sql.value.stmts, table))
  }

  /** What both builders start with: the sources, unless the table is one of them. */
  method GroupSources(sources: Option<seq<string>>, sql: Option<Sql>, table: string)
      returns (r: Result<seq<string>, GroupError>)
    ensures r == Err(SinkMismatch) <==> FromSql(sources, sql) && Mismatched(sql, table)
    ensures r == Err(CircularDependency) <==> Circular(sources, sql, table)
    ensures r.Ok? ==> Distinct(r.value) && table !in r.value
    ensures r.Ok? && sources.Some? ==> forall x :: x in r.value <==> x in sources.value
    ensures r.Ok? && FromSql(sources, sql) ==> forall x :: x in r.value <==> IsSource(sql.value.stmts, x)
    ensures r.Ok? && sources.None? && !Parses(sql) ==> r.value == []
  {
    r := ResolveSources(sources, sql, table);
    if r.Ok? && table in r.value {
      return Err(CircularDependency);
    }
  }

  method Sensors(sources: seq<string>) returns (sensors: seq<Task>)
    ensures |sensors| == |sources| && forall k :: 0 <= k < |sensors| ==> sensors[k] == Sensor(sources[k])
  {
    sensors := [];
    for i := 0 to |sources|
      invariant |sensors| == i && forall k :: 0 <= k < i ==> sensors[k] == Sensor(sources[k])
    {
      sensors := sensors + [Sensor(sources[i])];
    }
  }

  /** The body of tollkeeper_sql_task_group, once the sources are known. */
  method WireSqlGroup(sources: seq<string>, checks: seq<string>) returns (graph: TaskGraph)
    ensures graph == SqlGraph(set s | s in sources, set c | c in checks)
  {
    var sensors := Sensors(sources);
    var dqOps: seq<Task> := [];
    for i := 0 to |checks|
      invariant |dqOps| == i && forall k :: 0 <= k < i ==> dqOps[k] == Dq(checks[k])
    {
      dqOps := dqOps + [Dq(checks[i])];
    }
    var edges: set<(Task, Task)> := {};
    for i := 0 to |sensors|
      invariant edges == set k | 0 <= k < i :: (sensors[k], RunSql)
    {
      edges := edges + {(sensors[i], RunSql)};
    }
    ghost var gates := edges;
    for i := 0 to |dqOps|
      invariant edges == gates + (set k | 0 <= k < i :: (RunSql, dqOps[k])) + (set k | 0 <= k < i :: (dqOps[k], Emit))
    {
      edges := edges + {(RunSql, dqOps[i]), (dqOps[i], Emit)};
    }
    SensorEdges(sources, sensors, RunSql);
    CheckEdges(checks, dqOps);
    graph := TaskGraph((set t | t in sensors) + {RunSql, Emit} + (set t | t in dqOps), edges);
  }

  /** The body of tollkeeper_task_group, once the sources are known. */
  method WireWrappedGroup(sources: seq<string>) returns (graph: TaskGraph)
    ensures graph == WrappedGraph(set s | s in sources)
  {
    var sensors := Sensors(sources);
    var edges: set<(Task, Task)> := {};
    for i := 0 to |sensors|
      invariant edges == set k | 0 <= k < i :: (sensors[k], Wrapped)
    {
      edges := edges + {(sensors[i], Wrapped)};
    }
    SensorEdges(sources, sensors, Wrapped);
    graph := TaskGraph((set t | t in sensors) + {Wrapped}, edges);
  }

  lemma SensorEdges(sources: seq<string>, sensors: seq<Task>, next: Task)
    requires |sensors| == |sources| && forall k :: 0 <= k < |sensors| ==> sensors[k] == Sensor(sources[k])
    ensures (set t | t in sensors) == set s | s in sources :: Sensor(s)
    ensures (set k | 0 <= k < |sensors| :: (sensors[k], next)) == set s | s in sources :: (Sensor(s), next)
  {
  }

  lemma CheckEdges(checks: seq<string>, dqOps: seq<Task>)
    requires |dqOps| == |checks| && forall k :: 0 <= k < |dqOps| ==> dqOps[k] == Dq(checks[k])
    ensures (set t | t in dqOps) == set c | c in checks :: Dq(c)
    ensures (set k | 0 <= k < |dqOps| :: (RunSql, dqOps[k])) == set c | c in checks :: (RunSql, Dq(c))
    ensures (set k | 0 <= k < |dqOps| :: (dqOps[k], Emit)) == set c | c in checks :: (Dq(c), Emit)
  {
  }

  // ---------- Circularity ----------

  /**
    With the SQL as the only witness, a table whose script writes it is refused exactly when
    some statement reads it, under a last name that is none of its CTE aliases, while neither
    that statement nor an earlier one targets it.
  */
  lemma CircularMeans(sql: Sql, table: string)
    requires Parses(Some(sql)) && table in Sinks(sql.stmts)
    ensures Circular(None, Some(sql), table) <==>
            exists i, t :: 0 <= i < |sql.stmts| && ReadsAt(sql.stmts, i, t) && Name(t) == table &&
                           forall k :: 0 <= k <= i ==> TargetOf(sql.stmts[k]) != Some(table)
  {
  }

  /** A single statement that writes its table is never circular, even if it reads it. */
  lemma OneStatementIsNeverCircular(stmt: Stmt, table: string)
    requires table in Sinks([Some(stmt)])
    ensures !Circular(None, Some(Parsed([Some(stmt)])), table)
  {
  }
}
