/** extract_lineage: the tables a list of parsed SQL statements reads and writes. */
module Lineage {
  import opened Wrappers

  datatype TableRef = TableRef(catalog: string, db: string, name: string)

  datatype Label = TableNode(table: TableRef) | CteNode(alias: string) | WithNode(recursive: bool) | OtherNode

  /** A parsed statement: the code looks at table and CTE nodes only; WITH clauses hold the CTEs of a query. */
  datatype Tree = Tree(node: Label, children: seq<Tree>)

  datatype Kind = Insert | Create | Merge | Query

  datatype Stmt = Stmt(kind: Kind, tree: Tree)

  /** The SQL text: empty, Jinja-templated or unparsable, or a list of statements, some of them null. */
  datatype Sql = Rejected | Parsed(stmts: seq<Option<Stmt>>)

  datatype ParseResult = ParseResult(sources: set<string>, sinks: set<string>)

  // ---------- Names ----------

  function Join(parts: seq<string>): string {
    if parts == [] then ""
    else if |parts| == 1 then parts[0]
    else parts[0] + "." + Join(parts[1..])
  }

  /** The dotted name, without the qualifiers that are missing. */
  function Name(t: TableRef): string {
    (if t.catalog == "" then "" else t.catalog + ".") + (if t.db == "" then "" else t.db + ".") + t.name
  }

  method TableName(t: TableRef) returns (name: string)
    ensures name == Name(t)
  {
    var parts: seq<string> := [];
    if t.catalog != "" {
      parts := parts + [t.catalog];
    }
    if t.db != "" {
      parts := parts + [t.db];
    }
    parts := parts + [t.name];
    name := Join(parts);
    if |parts| > 1 {
      assert Join(parts[1..]) == if |parts| == 2 then t.name else t.db + "." + Join(parts[1..][1..]);
      assert |parts| == 3 ==> parts[1..][1..] == [t.name];
    }
  }

  /** Catalog, then schema, then table, with a dot in between; what is missing leaves no trace. */
  lemma NameIsDotted(t: TableRef)
    ensures t.catalog != "" && t.db != "" ==> Name(t) == t.catalog + "." + t.db + "." + t.name
    ensures t.catalog != "" && t.db == "" ==> Name(t) == t.catalog + "." + t.name
    ensures t.catalog == "" && t.db != "" ==> Name(t) == t.db + "." + t.name
    ensures t.catalog == "" && t.db == "" ==> Name(t) == t.name
  {
  }

  // ---------- Walking a statement ----------

  /** Every label of the tree, by structure. */
  function Labels(t: Tree): set<Label>
    decreases t
  {
    {t.node} + set c, l | c in t.children && l in Labels(c) :: l
  }

  function Tables(t: Tree): set<TableRef> {
    set l | l in Labels(t) && l.TableNode? :: l.table
  }

  function CteNames(t: Tree): set<string> {
    set l | l in Labels(t) && l.CteNode? :: l.alias
  }

  function Size(t: Tree): nat
    decreases t
  {
    1 + Sizes(t.children)
  }

  function Sizes(ts: seq<Tree>): nat
    decreases ts
  {
    if ts == [] then 0 else Size(ts[0]) + Sizes(ts[1..])
  }

  lemma {:induction false} SizesConcat(a: seq<Tree>, b: seq<Tree>)
    ensures Sizes(a + b) == Sizes(a) + Sizes(b)
    decreases |a|
  {
    if a == [] {
      assert a + b == b;
    } else {
      SizesConcat(a[1..], b);
      assert (a + b)[1..] == a[1..] + b;
    }
  }

  /** find_all: the labels in breadth-first order. */
  function Walk(queue: seq<Tree>): seq<Label>
    decreases Sizes(queue)
  {
    if queue == [] then []
    else
      SizesConcat(queue[1..], queue[0].children);
      assert Sizes(queue) == 1 + Sizes(queue[0].children) + Sizes(queue[1..]);
      [queue[0].node] + Walk(queue[1..] + queue[0].children)
  }

  function LabelsOf(ts: seq<Tree>): set<Label> {
    set c, l | c in ts && l in Labels(c) :: l
  }

  /** The walk visits every node: its order can only matter for which table comes first. */
  lemma {:induction false} WalkVisitsAll(queue: seq<Tree>)
    ensures forall l :: l in Walk(queue) <==> l in LabelsOf(queue)
    decreases Sizes(queue)
  {
    if queue != [] {
      var next := queue[1..] + queue[0].children;
      SizesConcat(queue[1..], queue[0].children);
      assert Sizes(queue) == 1 + Sizes(queue[0].children) + Sizes(queue[1..]);
      WalkVisitsAll(next);
      assert queue == [queue[0]] + queue[1..];
      forall l ensures l in LabelsOf(queue) <==> l == queue[0].node || l in LabelsOf(next) {
        if l in LabelsOf(queue) && l != queue[0].node {
          var c :| c in queue && l in Labels(c);
          if c == queue[0] {
            var d :| d in c.children && l in Labels(d);
            assert d in next;
          } else {
            assert c in next;
          }
        }
        if l in LabelsOf(next) {
          var c :| c in next && l in Labels(c);
          if c in queue[0].children { assert l in Labels(queue[0]); } else { assert c in queue; }
        }
        assert queue[0] in queue && queue[0].node in Labels(queue[0]);
      }
    }
  }

  function OnlyTables(labels: seq<Label>): seq<TableRef> {
    if labels == [] then []
    else (if labels[0].TableNode? then [labels[0].table] else []) + OnlyTables(labels[1..])
  }

  /** statement.find_all(exp.Table) */
  function FindTables(t: Tree): seq<TableRef> {
    OnlyTables(Walk([t]))
  }

  lemma {:induction false} OnlyTablesMembers(labels: seq<Label>)
    ensures forall t :: t in OnlyTables(labels) <==> TableNode(t) in labels
    decreases |labels|
  {
    if labels != [] {
      OnlyTablesMembers(labels[1..]);
      assert labels == [labels[0]] + labels[1..];
    }
  }

  lemma FindTablesFindsAll(t: Tree)
    ensures forall ref :: ref in FindTables(t) <==> ref in Tables(t)
  {
    WalkVisitsAll([t]);
    OnlyTablesMembers(Walk([t]));
    assert forall l :: l in LabelsOf([t]) <==> l in Labels(t);
    forall ref ensures ref in FindTables(t) <==> ref in Tables(t) {
      assert ref in Tables(t) <==> TableNode(ref) in Labels(t);
    }
  }

  /** The table a statement writes: the first one found in an INSERT, CREATE or MERGE. */
  function TargetOf(s: Option<Stmt>): Option<string> {
    if s.Some? && !s.value.kind.Query? && FindTables(s.value.tree) != []
    then Some(Name(FindTables(s.value.tree)[0])) else None
  }

  // ---------- Which table comes first ----------

  /** The labels at one depth of a tree, from left to right. */
  function LabelsAt(t: Tree, depth: nat): seq<Label>
    decreases t, 1
  {
    if depth == 0 then [t.node] else LabelsAtAll(t.children, depth - 1)
  }

  function LabelsAtAll(ts: seq<Tree>, depth: nat): seq<Label>
    decreases ts, 0
  {
    if ts == [] then [] else LabelsAt(ts[0], depth) + LabelsAtAll(ts[1..], depth)
  }

  /** All children of the trees, from left to right. */
  function Kids(ts: seq<Tree>): seq<Tree> {
    if ts == [] then [] else ts[0].children + Kids(ts[1..])
  }

  lemma {:induction false} LabelsAtConcat(a: seq<Tree>, b: seq<Tree>, depth: nat)
    ensures LabelsAtAll(a + b, depth) == LabelsAtAll(a, depth) + LabelsAtAll(b, depth)
    decreases |a|
  {
    if a == [] {
      assert a + b == b;
    } else {
      assert (a + b)[1..] == a[1..] + b;
      LabelsAtConcat(a[1..], b, depth);
    }
  }

  lemma {:induction false} OneDeeper(ts: seq<Tree>, depth: nat)
    ensures LabelsAtAll(ts, depth + 1) == LabelsAtAll(Kids(ts), depth)
    decreases |ts|
  {
    if ts != [] {
      OneDeeper(ts[1..], depth);
      LabelsAtConcat(ts[0].children, Kids(ts[1..]), depth);
    }
  }

  lemma {:induction false} KidsAreFewer(ts: seq<Tree>)
    ensures Sizes(Kids(ts)) + |ts| == Sizes(ts)
    decreases |ts|
  {
    if ts != [] {
      KidsAreFewer(ts[1..]);
      SizesConcat(ts[0].children, Kids(ts[1..]));
    }
  }

  lemma {:induction false} WalkLevel(ts: seq<Tree>, later: seq<Tree>)
    ensures Walk(ts + later) == LabelsAtAll(ts, 0) + Walk(later + Kids(ts))
    decreases |ts|
  {
    if ts == [] {
      assert ts + later == later && later + Kids(ts) == later;
    } else {
      var queue := ts + later;
      assert queue[1..] + ts[0].children == ts[1..] + (later + ts[0].children);
      WalkLevel(ts[1..], later + ts[0].children);
      assert (later + ts[0].children) + Kids(ts[1..]) == later + Kids(ts);
      assert [ts[0].node] + (LabelsAtAll(ts[1..], 0) + Walk(later + Kids(ts))) ==
             ([ts[0].node] + LabelsAtAll(ts[1..], 0)) + Walk(later + Kids(ts));
    }
  }

  lemma {:induction false} OnlyTablesConcat(a: seq<Label>, b: seq<Label>)
    ensures OnlyTables(a + b) == OnlyTables(a) + OnlyTables(b)
    decreases |a|
  {
    if a == [] {
      assert a + b == b;
    } else {
      assert (a + b)[1..] == a[1..] + b;
      OnlyTablesConcat(a[1..], b);
    }
  }

  function TablesAt(ts: seq<Tree>, depth: nat): seq<TableRef> {
    OnlyTables(LabelsAtAll(ts, depth))
  }

  /** No table stands less deep than this one, and none at its depth stands further left. */
  ghost predicate IsTopLeft(ts: seq<Tree>, t: TableRef) {
    exists depth: nat :: IsFirstAt(ts, depth, t)
  }

  predicate IsFirstAt(ts: seq<Tree>, depth: nat, t: TableRef) {
    && TablesAt(ts, depth) != [] && TablesAt(ts, depth)[0] == t
    && forall d :: 0 <= d < depth ==> TablesAt(ts, d) == []
  }

  lemma {:induction false} FirstIsTopLeft(ts: seq<Tree>)
    requires OnlyTables(Walk(ts)) != []
    ensures IsTopLeft(ts, OnlyTables(Walk(ts))[0])
    decreases Sizes(ts)
  {
    var first := OnlyTables(Walk(ts))[0];
    WalkLevel(ts, []);
    assert ts + [] == ts && [] + Kids(ts) == Kids(ts);
    OnlyTablesConcat(LabelsAtAll(ts, 0), Walk(Kids(ts)));
    if TablesAt(ts, 0) != [] {
      assert IsFirstAt(ts, 0, first);
    } else {
      KidsAreFewer(ts);
      FirstIsTopLeft(Kids(ts));
      var depth: nat :| IsFirstAt(Kids(ts), depth, first);
      OneDeeper(ts, depth);
      forall d | 0 <= d < depth + 1 ensures TablesAt(ts, d) == [] {
        if d > 0 {
          OneDeeper(ts, d - 1);
          assert TablesAt(Kids(ts), d - 1) == [];
        }
      }
      assert IsFirstAt(ts, depth + 1, first);
    }
  }

  lemma TopLeftIsOne(ts: seq<Tree>, a: TableRef, b: TableRef)
    requires IsTopLeft(ts, a) && IsTopLeft(ts, b)
    ensures a == b
  {
    var d: nat :| IsFirstAt(ts, d, a);
    var e: nat :| IsFirstAt(ts, e, b);
    assert d == e;
  }

  lemma {:induction false} LevelsAreWalked(ts: seq<Tree>, depth: nat, l: Label)
    requires l in LabelsAtAll(ts, depth)
    ensures l in Walk(ts)
    decreases depth
  {
    WalkLevel(ts, []);
    assert ts + [] == ts && [] + Kids(ts) == Kids(ts);
    if depth > 0 {
      OneDeeper(ts, depth - 1);
      LevelsAreWalked(Kids(ts), depth - 1, l);
    }
  }

  /**
    The table that a statement writes: an INSERT, CREATE or MERGE writes its top left table, if it has one;
    other statements write none.
  */
  lemma TargetIsTopLeft(stmt: Stmt, x: string)
    ensures TargetOf(Some(stmt)) == Some(x) <==>
            && (stmt.kind == Insert || stmt.kind == Create || stmt.kind == Merge)
            && exists t :: IsTopLeft([stmt.tree], t) && Name(t) == x
    ensures TargetOf(None) == None
  {
    var found := FindTables(stmt.tree);
    if found != [] {
      FirstIsTopLeft([stmt.tree]);
      forall t | IsTopLeft([stmt.tree], t) ensures t == found[0] { TopLeftIsOne([stmt.tree], t, found[0]); }
    }
    if t :| IsTopLeft([stmt.tree], t) {
      var depth: nat :| IsFirstAt([stmt.tree], depth, t);
      OnlyTablesMembers(LabelsAtAll([stmt.tree], depth));
      OnlyTablesMembers(Walk([stmt.tree]));
      assert t in TablesAt([stmt.tree], depth);
      LevelsAreWalked([stmt.tree], depth, TableNode(t));
    }
  }

  /** A statement whose root is no table and whose first child is one writes that. */
  lemma FirstChildIsTarget(stmt: Stmt, t: TableRef)
    requires stmt.kind != Query && !stmt.tree.node.TableNode?
    requires stmt.tree.children != [] && stmt.tree.children[0].node == TableNode(t)
    ensures TargetOf(Some(stmt)) == Some(Name(t))
  {
    var ts := [stmt.tree];
    assert ts[1..] == [];
    assert LabelsAtAll(ts, 0) == [stmt.tree.node] && OnlyTables([stmt.tree.node]) == [];
    assert LabelsAtAll(ts, 1) == LabelsAtAll(stmt.tree.children, 0);
    assert LabelsAtAll(stmt.tree.children, 0)[0] == TableNode(t);
    assert IsFirstAt(ts, 1, t);
    TargetIsTopLeft(stmt, Name(t));
  }

  // ---------- Sources and sinks ----------

  function Sinks(stmts: seq<Option<Stmt>>): set<string> {
    set i | 0 <= i < |stmts| && TargetOf(stmts[i]).Some? :: TargetOf(stmts[i]).value
  }

  /** Statement number i reads the table, under a last name that is none of its CTE aliases. */
  predicate ReadsAt(stmts: seq<Option<Stmt>>, i: nat, t: TableRef)
    requires i < |stmts|
  {
    stmts[i].Some? && t in Tables(stmts[i].value.tree) && t.name !in CteNames(stmts[i].value.tree)
  }

  /** A table is a source if some statement reads it before, or rather not after, anything writes it. */
  ghost predicate IsSource(stmts: seq<Option<Stmt>>, x: string) {
    exists i, t :: 0 <= i < |stmts| && ReadsAt(stmts, i, t) && Name(t) == x && x !in Sinks(stmts[..i + 1])
  }

  method ExtractLineage(sql: Sql) returns (r: Result<ParseResult, ()>)
    ensures r.Err? <==> sql.Rejected? || forall s :: s in sql.stmts ==> s.None?
    ensures r.Ok? ==> r.value.sinks == Sinks(sql.stmts)
    ensures r.Ok? ==> forall x :: x in r.value.sources <==> IsSource(sql.stmts, x)
  {
    if sql.Rejected? {
      return Err(());
    }
    var stmts := sql.stmts;
    if forall s :: s in stmts ==> s.None? {
      return Err(());
    }
    var sources: set<string>, sinks: set<string> := {}, {};
    for i := 0 to |stmts|
      invariant sinks == Sinks(stmts[..i])
      invariant forall x :: x in sources <==> IsSource(stmts[..i], x)
    {
      SinksNext(stmts, i);
      ghost var before := sources;
      if stmts[i].Some? {
        var tree := stmts[i].value.tree;
        var cteNames := CteNames(tree);
        var tables := FindTables(tree);
        FindTablesFindsAll(tree);
        if !stmts[i].value.kind.Query? && tables != [] {
          var target := TableName(tables[0]);
          sinks := sinks + {target};
        }
        sources := AddSources(sources, tables, sinks, cteNames);
        forall x
          ensures x in sources <==> x in before || exists t :: ReadsAt(stmts, i, t) && Name(t) == x && x !in sinks
        {
          if t :| t in tables && Name(t) == x && x !in sinks && t.name !in cteNames { assert ReadsAt(stmts, i, t); }
          if t :| ReadsAt(stmts, i, t) && Name(t) == x && x !in sinks { assert t in tables; }
        }
      }
      forall x ensures x in sources <==> IsSource(stmts[..i + 1], x) { SourceNext(stmts, i, x); }
    }
    assert stmts[..|stmts|] == stmts;
    return Ok(ParseResult(sources, sinks));
  }

  /** The inner loop: what the tables of one statement add to the sources. */
  method AddSources(before: set<string>, tables: seq<TableRef>, sinks: set<string>, cteNames: set<string>)
      returns (sources: set<string>)
    ensures forall x :: x in sources <==>
              x in before || exists t :: t in tables && Name(t) == x && x !in sinks && t.name !in cteNames
  {
    sources := before;
    for j := 0 to |tables|
      invariant forall x :: x in sources <==>
                  x in before || exists t :: t in tables[..j] && Name(t) == x && x !in sinks && t.name !in cteNames
    {
      var name := TableName(tables[j]);
      assert tables[..j + 1] == tables[..j] + [tables[j]];
      if name !in sinks && tables[j].name !in cteNames {
        sources := sources + {name};
      }
    }
    assert tables[..|tables|] == tables;
  }

  lemma SinksNext(stmts: seq<Option<Stmt>>, i: nat)
    requires i < |stmts|
    ensures Sinks(stmts[..i + 1]) ==
            Sinks(stmts[..i]) + if TargetOf(stmts[i]).Some? then {TargetOf(stmts[i]).value} else {}
  {
  }

  lemma SinksConcat(a: seq<Option<Stmt>>, b: seq<Option<Stmt>>)
    ensures Sinks(a + b) == Sinks(a) + Sinks(b)
  {
    forall x ensures x in Sinks(a + b) <==> x in Sinks(a) + Sinks(b) {
      if i :| 0 <= i < |a| && TargetOf(a[i]) == Some(x) { assert (a + b)[i] == a[i]; }
      if i :| 0 <= i < |b| && TargetOf(b[i]) == Some(x) { assert (a + b)[|a| + i] == b[i]; }
      if i :| 0 <= i < |a + b| && TargetOf((a + b)[i]) == Some(x) {
        if i < |a| { assert a[i] == (a + b)[i]; } else { assert b[i - |a|] == (a + b)[i]; }
      }
    }
  }

  lemma SourceNext(stmts: seq<Option<Stmt>>, i: nat, x: string)
    requires i < |stmts|
    ensures IsSource(stmts[..i + 1], x) <==>
            IsSource(stmts[..i], x) || exists t :: ReadsAt(stmts, i, t) && Name(t) == x && x !in Sinks(stmts[..i + 1])
  {
    var a, b := stmts[..i], stmts[..i + 1];
    if IsSource(a, x) {
      var k, t :| 0 <= k < |a| && ReadsAt(a, k, t) && Name(t) == x && x !in Sinks(a[..k + 1]);
      assert a[..k + 1] == b[..k + 1] && ReadsAt(b, k, t);
    }
    if t :| ReadsAt(stmts, i, t) && Name(t) == x && x !in Sinks(b) {
      assert b[..i + 1] == b && ReadsAt(b, i, t);
    }
    if IsSource(b, x) {
      var k, t :| 0 <= k < |b| && ReadsAt(b, k, t) && Name(t) == x && x !in Sinks(b[..k + 1]);
      if k < i {
        assert a[..k + 1] == b[..k + 1] && ReadsAt(a, k, t);
      } else {
        assert b[..k + 1] == b && ReadsAt(stmts, i, t);
      }
    }
  }

  // ---------- Lineage of scripts put together ----------

  /** What a script reads is what its first part reads, and what its second part reads but the first did not write. */
  lemma LineageComposes(a: seq<Option<Stmt>>, b: seq<Option<Stmt>>, x: string)
    ensures Sinks(a + b) == Sinks(a) + Sinks(b)
    ensures IsSource(a + b, x) <==> IsSource(a, x) || (IsSource(b, x) && x !in Sinks(a))
  {
    var ab := a + b;
    SinksConcat(a, b);
    if IsSource(a, x) {
      var k, t :| 0 <= k < |a| && ReadsAt(a, k, t) && Name(t) == x && x !in Sinks(a[..k + 1]);
      assert ab[..k + 1] == a[..k + 1] && ReadsAt(ab, k, t);
    }
    if IsSource(b, x) && x !in Sinks(a) {
      var k, t :| 0 <= k < |b| && ReadsAt(b, k, t) && Name(t) == x && x !in Sinks(b[..k + 1]);
      SinksConcat(a, b[..k + 1]);
      assert ab[..|a| + k + 1] == a + b[..k + 1] && ReadsAt(ab, |a| + k, t);
    }
    if IsSource(ab, x) {
      var k, t :| 0 <= k < |ab| && ReadsAt(ab, k, t) && Name(t) == x && x !in Sinks(ab[..k + 1]);
      if k < |a| {
        assert ab[..k + 1] == a[..k + 1] && ReadsAt(a, k, t);
      } else {
        SinksConcat(a, b[..k - |a| + 1]);
        assert ab[..k + 1] == a + b[..k - |a| + 1] && ReadsAt(b, k - |a|, t);
      }
    }
  }

  // ---------- What the documentation says a source is ----------

  /** Only a name without qualifiers can refer to a CTE. */
  predicate IsQualified(t: TableRef) {
    t.catalog != "" || t.db != ""
  }

  function Aliases(ctes: seq<Tree>): set<string> {
    set c | c in ctes && c.node.CteNode? :: c.node.alias
  }

  /** The CTEs of the WITH clauses of a query. */
  function Defined(t: Tree): set<string> {
    set w, c | w in t.children && w.node.WithNode? && c in w.children && c.node.CteNode? :: c.node.alias
  }

  /**
    The CTE names that child number i can refer to: in a WITH clause those of the CTEs before it, or of
    all of them if it is recursive; elsewhere in a query those of its WITH clauses.
  */
  function Scope(t: Tree, i: nat, outer: set<string>): set<string>
    requires i < |t.children|
  {
    if t.node.WithNode? then outer + Aliases(if t.node.recursive then t.children else t.children[..i])
    else if t.children[i].node.WithNode? then outer
    else outer + Defined(t)
  }

  /** The tables that are read or written, as opposed to CTEs in scope. */
  function RealTables(t: Tree, scope: set<string>): set<TableRef>
    decreases t
  {
    (if t.node.TableNode? && (IsQualified(t.node.table) || t.node.table.name !in scope) then {t.node.table} else {}) +
    set i, r | 0 <= i < |t.children| && r in RealTables(t.children[i], Scope(t, i, scope)) :: r
  }

  lemma {:induction false} RealAreTables(t: Tree, scope: set<string>, r: TableRef)
    requires r in RealTables(t, scope)
    ensures r in Tables(t)
    decreases t
  {
    if t.node != TableNode(r) {
      var i :| 0 <= i < |t.children| && r in RealTables(t.children[i], Scope(t, i, scope));
      RealAreTables(t.children[i], Scope(t, i, scope), r);
      assert t.children[i] in t.children && TableNode(r) in Labels(t.children[i]);
    }
    assert TableNode(r) in Labels(t);
  }

  lemma ScopeIsNamed(t: Tree, i: nat, outer: set<string>)
    requires i < |t.children|
    ensures Scope(t, i, outer) <= outer + CteNames(t) && CteNames(t.children[i]) <= CteNames(t)
  {
    forall c | c in t.children ensures CteNames(c) <= CteNames(t) && Labels(c) <= Labels(t) {}
    forall w, c | w in t.children && c in w.children ensures c.node in Labels(t) {
      assert c.node in Labels(c) && Labels(c) <= Labels(w);
    }
    forall c | c in t.children ensures c.node in Labels(t) { assert c.node in Labels(c); }
    forall a | a in Defined(t) ensures CteNode(a) in Labels(t) {}
    forall a | a in Aliases(t.children) ensures CteNode(a) in Labels(t) {}
  }

  /** A table is real wherever it is qualified, and where no CTE of the statement has its name. */
  lemma {:induction false} RealUnlessNamed(t: Tree, scope: set<string>, r: TableRef)
    requires r in Tables(t) && (IsQualified(r) || (r.name !in scope && r.name !in CteNames(t)))
    ensures r in RealTables(t, scope)
    decreases t
  {
    assert TableNode(r) in Labels(t);
    if t.node != TableNode(r) {
      var c :| c in t.children && TableNode(r) in Labels(c);
      var i :| 0 <= i < |t.children| && t.children[i] == c;
      ScopeIsNamed(t, i, scope);
      RealUnlessNamed(c, Scope(t, i, scope), r);
    }
  }

  /** Statement number i has the table, and not one of its CTEs. */
  predicate RealReadAt(stmts: seq<Option<Stmt>>, i: nat, t: TableRef)
    requires i < |stmts|
  {
    stmts[i].Some? && t in RealTables(stmts[i].value.tree, {})
  }

  ghost predicate IsDocumentedSource(stmts: seq<Option<Stmt>>, x: string) {
    exists i, t :: 0 <= i < |stmts| && RealReadAt(stmts, i, t) && Name(t) == x && x !in Sinks(stmts[..i + 1])
  }

  /** Statement number i has a table that is no CTE but whose last name is one of its CTE aliases. */
  predicate HiddenAt(stmts: seq<Option<Stmt>>, i: nat, t: TableRef)
    requires i < |stmts|
  {
    RealReadAt(stmts, i, t) && t.name in CteNames(stmts[i].value.tree)
  }

  lemma ReadsAreReal(stmts: seq<Option<Stmt>>, i: nat, t: TableRef)
    requires i < |stmts|
    ensures RealReadAt(stmts, i, t) <==> ReadsAt(stmts, i, t) || HiddenAt(stmts, i, t)
    ensures HiddenAt(stmts, i, t) ==> !ReadsAt(stmts, i, t)
  {
    if stmts[i].Some? {
      var tree := stmts[i].value.tree;
      if ReadsAt(stmts, i, t) { RealUnlessNamed(tree, {}, t); }
      if RealReadAt(stmts, i, t) { RealAreTables(tree, {}, t); }
    }
  }

  /** A hidden table of this name is read before, or rather not after, anything writes it. */
  ghost predicate IsHidden(stmts: seq<Option<Stmt>>, x: string) {
    exists i, t :: 0 <= i < |stmts| && HiddenAt(stmts, i, t) && Name(t) == x && x !in Sinks(stmts[..i + 1])
  }

  /** The documented sources are those the code reports and the hidden ones. */
  lemma DocumentedSources(stmts: seq<Option<Stmt>>, x: string)
    ensures IsDocumentedSource(stmts, x) <==> IsSource(stmts, x) || IsHidden(stmts, x)
  {
    forall i, t | 0 <= i < |stmts|
      ensures RealReadAt(stmts, i, t) <==> ReadsAt(stmts, i, t) || HiddenAt(stmts, i, t)
    {
      ReadsAreReal(stmts, i, t);
    }
  }

  /**
    Code and documentation agree exactly when every name that a statement reads through a hidden
    table is written by then, or is a source all the same because it is read in the open elsewhere.
  */
  lemma DocumentationHolds(stmts: seq<Option<Stmt>>)
    ensures (forall x :: IsSource(stmts, x) <==> IsDocumentedSource(stmts, x)) <==>
            forall i, t :: 0 <= i < |stmts| && HiddenAt(stmts, i, t) ==>
                             Name(t) in Sinks(stmts[..i + 1]) || IsSource(stmts, Name(t))
  {
    forall x ensures IsDocumentedSource(stmts, x) <==> IsSource(stmts, x) || IsHidden(stmts, x) {
      DocumentedSources(stmts, x);
    }
    if forall x :: IsSource(stmts, x) <==> IsDocumentedSource(stmts, x) {
      forall i, t | 0 <= i < |stmts| && HiddenAt(stmts, i, t)
        ensures Name(t) in Sinks(stmts[..i + 1]) || IsSource(stmts, Name(t))
      {
        assert Name(t) in Sinks(stmts[..i + 1]) || IsHidden(stmts, Name(t));
        assert IsSource(stmts, Name(t)) <==> IsDocumentedSource(stmts, Name(t));
      }
    }
  }

  /** A CTE alias hides every table of that last name, even one that is read under a schema of its own. */
  lemma CteHidesQualifiedTable(alias: string, db: string)
    requires db != ""
    ensures var cte := Tree(CteNode(alias), []);
            var tree := Tree(OtherNode, [Tree(WithNode(false), [cte]), Tree(TableNode(TableRef("", db, alias)), [])]);
            var stmts := [Some(Stmt(Query, tree))];
            IsDocumentedSource(stmts, Name(TableRef("", db, alias))) && forall x :: !IsSource(stmts, x)
  {
    var t, cte := TableRef("", db, alias), Tree(CteNode(alias), []);
    var clause, table := Tree(WithNode(false), [cte]), Tree(TableNode(t), []);
    HidesAll(alias, t, clause, table);
    var tree := Tree(OtherNode, [clause, table]);
    RealUnlessNamed(tree, {}, t);
    var stmts := [Some(Stmt(Query, tree))];
    assert stmts[..1] == stmts && RealReadAt(stmts, 0, t);
  }

  /** It also hides the real table that a CTE of the same name is made from. */
  lemma CteHidesItsOwnTable(alias: string)
    ensures var table := Tree(TableNode(TableRef("", "", alias)), []);
            var tree := Tree(OtherNode, [Tree(WithNode(false), [Tree(CteNode(alias), [table])]), table]);
            var stmts := [Some(Stmt(Query, tree))];
            IsDocumentedSource(stmts, alias) && forall x :: !IsSource(stmts, x)
  {
    var t := TableRef("", "", alias);
    var table := Tree(TableNode(t), []);
    var cte := Tree(CteNode(alias), [table]);
    var clause := Tree(WithNode(false), [cte]);
    HidesAll(alias, t, clause, table);
    var tree := Tree(OtherNode, [clause, table]);
    assert Aliases(clause.children[..0]) == {} && Defined(cte) == {};
    assert table == cte.children[0] && t in RealTables(table, Scope(cte, 0, {}));
    assert t in RealTables(cte, {});
    assert cte == clause.children[0] && Scope(clause, 0, {}) == {};
    assert t in RealTables(clause, {});
    assert clause == tree.children[0] && Scope(tree, 0, {}) == {};
    assert t in RealTables(tree, {});
    var stmts := [Some(Stmt(Query, tree))];
    assert stmts[..1] == stmts && RealReadAt(stmts, 0, t) && Name(t) == alias;
  }

  /** A query whose one table has the name of its one CTE has no source. */
  lemma HidesAll(alias: string, t: TableRef, clause: Tree, table: Tree)
    requires t.name == alias && table == Tree(TableNode(t), [])
    requires clause == Tree(WithNode(false), [Tree(CteNode(alias), [])]) ||
             clause == Tree(WithNode(false), [Tree(CteNode(alias), [table])])
    ensures TableNode(t) in Labels(Tree(OtherNode, [clause, table]))
    ensures forall x :: !IsSource([Some(Stmt(Query, Tree(OtherNode, [clause, table])))], x)
  {
    var tree, cte := Tree(OtherNode, [clause, table]), clause.children[0];
    assert Labels(table) == {TableNode(t)};
    assert Labels(cte) <= {CteNode(alias), TableNode(t)} && CteNode(alias) in Labels(cte);
    assert cte in clause.children;
    assert Labels(clause) <= {WithNode(false), CteNode(alias), TableNode(t)} && CteNode(alias) in Labels(clause);
    assert clause in tree.children && table in tree.children;
    assert CteNode(alias) in Labels(tree) && TableNode(t) in Labels(tree);
    forall r | r in Tables(tree) ensures r == t { assert TableNode(r) in Labels(tree); }
    assert alias in CteNames(tree);
  }
}
