/** IcebergBackend over a forest of snapshots: branches for staging, main for production. */
module Iceberg {
  import opened Wrappers

  /** Snapshots with their parents, and the references into them. */
  datatype Table = Table(parents: map<int, Option<int>>, main: Option<int>, branches: map<string, int>)

  /** pyiceberg: manage_snapshots().set_current_snapshot(ref_name) moves main to the head of a branch. */
  function SetCurrent(t: Table, ref: string): Table
    requires ref in t.branches
  {
    t.(main := Some(t.branches[ref]))
  }

  /** pyiceberg: manage_snapshots().remove_branch(ref) */
  function RemoveBranch(t: Table, ref: string): Table {
    t.(branches := t.branches - {ref})
  }

  class IcebergBackend {
    var table: Table

    constructor (table: Table)
      ensures this.table == table
    {
      this.table := table;
    }

    /** A branch at the current snapshot; a table without one is refused. The name is fresh. */
    method CreateVersion(name: string) returns (r: Result<string, ()>)
      requires name !in table.branches
      modifies this
      ensures r == if old(table).main.None? then Err(()) else Ok(name)
      ensures table == if old(table).main.None? then old(table)
                       else old(table).(branches := old(table).branches[name := old(table).main.value])
    {
      if table.main.None? {
        return Err(());
      }
      table := table.(branches := table.branches[name := table.main.value]);
      return Ok(name);
    }

    /** Two commits: main moves, then the branch goes. Without the branch the first one raises. */
    method PublishVersion(ref: string) returns (ok: bool)
      modifies this
      ensures ok <==> ref in old(table).branches
      ensures table == if ok then RemoveBranch(SetCurrent(old(table), ref), ref) else old(table)
    {
      if ref !in table.branches {
        return false;
      }
      table := SetCurrent(table, ref);
      table := RemoveBranch(table, ref);
      return true;
    }

    /** A branch that is not there makes the commit raise, which is swallowed. */
    method RollbackVersion(ref: string)
      modifies this
      ensures table == RemoveBranch(old(table), ref)
    {
      if ref in table.branches {
        table := RemoveBranch(table, ref);
      } else {
        assert table.branches - {ref} == table.branches;
      }
    }
  }

  // ---------- History ----------

  /** line runs from a snapshot back through its parents. */
  predicate IsLine(parents: map<int, Option<int>>, line: seq<int>) {
    && line != [] && (forall i :: 0 <= i < |line| ==> line[i] in parents)
    && forall i :: 0 <= i < |line| - 1 ==> parents[line[i]] == Some(line[i + 1])
  }

  /** past is now or one of the snapshots that now was built on. */
  ghost predicate InHistory(parents: map<int, Option<int>>, past: int, now: int) {
    exists line :: IsLine(parents, line) && line[0] == now && line[|line| - 1] == past
  }

  lemma LineGoesBack(parents: map<int, Option<int>>, line: seq<int>)
    requires IsLine(parents, line) && |line| > 1
    ensures parents[line[0]] == Some(line[1])
  {
  }

  lemma HistoryTransitive(parents: map<int, Option<int>>, a: int, b: int, c: int)
    requires InHistory(parents, a, b) && InHistory(parents, b, c)
    ensures InHistory(parents, a, c)
  {
    var back :| IsLine(parents, back) && back[0] == b && back[|back| - 1] == a;
    var line :| IsLine(parents, line) && line[0] == c && line[|line| - 1] == b;
    var joined := line + back[1..];
    forall i | 0 <= i < |joined| - 1 ensures parents[joined[i]] == Some(joined[i + 1]) {
      if i >= |line| - 1 { assert joined[i] == back[i - (|line| - 1)] && joined[i + 1] == back[i - (|line| - 1) + 1]; }
    }
    assert IsLine(parents, joined) && joined[0] == c && joined[|joined| - 1] == a;
  }

  lemma HistoryReflexive(parents: map<int, Option<int>>, a: int)
    requires a in parents
    ensures InHistory(parents, a, a)
  {
    assert IsLine(parents, [a]);
  }

  /** New snapshots rewrite no history. */
  lemma HistoryKept(parents: map<int, Option<int>>, more: map<int, Option<int>>, a: int, b: int)
    requires InHistory(parents, a, b)
    requires forall s :: s in parents ==> s in more && more[s] == parents[s]
    ensures InHistory(more, a, b)
  {
    var line :| IsLine(parents, line) && line[0] == b && line[|line| - 1] == a;
    forall i | 0 <= i < |line| ensures line[i] in more && more[line[i]] == parents[line[i]] {
      var snapshot := line[i];
      assert snapshot in parents;
    }
    assert IsLine(more, line);
  }

  // ---------- Interleaved sessions ----------

  /** The two commits of a publish are steps of their own: others may come in between. */
  datatype Act =
    | Create(name: string)
    | AppendTo(name: string, id: int)  // the write function of a session
    | AppendMain(id: int)              // another writer
    | MoveMain(name: string)
    | Drop(name: string)               // the second commit of a publish, or a rollback

  predicate Allowed(t: Table, a: Act) {
    match a
    case Create(name) => t.main.Some? && name !in t.branches
    case AppendTo(name, id) => name in t.branches && id !in t.parents
    case AppendMain(id) => id !in t.parents
    case MoveMain(name) => name in t.branches
    case Drop(name) => true
  }

  function Do(t: Table, a: Act): Table
    requires Allowed(t, a)
  {
    match a
    case Create(name) => t.(branches := t.branches[name := t.main.value])
    case AppendTo(name, id) =>
      t.(parents := t.parents[id := Some(t.branches[name])], branches := t.branches[name := id])
    case AppendMain(id) => t.(parents := t.parents[id := t.main], main := Some(id))
    case MoveMain(name) => SetCurrent(t, name)
    case Drop(name) => RemoveBranch(t, name)
  }

  /** The tables of a run, and where each branch that now exists was created. */
  datatype Run = Run(table: Table, bases: map<string, int>)

  function Next(r: Run, a: Act): Run
    requires Allowed(r.table, a)
  {
    Run(Do(r.table, a), if a.Create? then r.bases[a.name := r.table.main.value] else r.bases)
  }

  predicate Runs(r: Run, acts: seq<Act>)
    decreases |acts|
  {
    acts == [] || (Allowed(r.table, acts[0]) && Runs(Next(r, acts[0]), acts[1..]))
  }

  function RunAll(r: Run, acts: seq<Act>): Run
    requires Runs(r, acts)
    decreases |acts|
  {
    if acts == [] then r else RunAll(Next(r, acts[0]), acts[1..])
  }

  /** References point at snapshots, and every branch still holds all it was created on. */
  ghost predicate Inv(r: Run) {
    && (r.table.main.Some? ==> r.table.main.value in r.table.parents)
    && forall n :: n in r.table.branches ==>
         n in r.bases && r.table.branches[n] in r.table.parents
         && InHistory(r.table.parents, r.bases[n], r.table.branches[n])
  }

  lemma NextKeepsInv(r: Run, a: Act)
    requires Inv(r) && Allowed(r.table, a)
    ensures Inv(Next(r, a))
  {
    var t, u := r.table, Next(r, a).table;
    forall n | n in u.branches
      ensures n in Next(r, a).bases && u.branches[n] in u.parents
              && InHistory(u.parents, Next(r, a).bases[n], u.branches[n])
    {
      if a.Create? && n == a.name {
        HistoryReflexive(u.parents, t.main.value);
      } else {
        HistoryKept(t.parents, u.parents, r.bases[n], t.branches[n]);
        if a.AppendTo? && n == a.name {
          assert IsLine(u.parents, [a.id, t.branches[n]]);
          HistoryTransitive(u.parents, r.bases[n], t.branches[n], a.id);
        }
      }
    }
  }

  lemma {:induction false} RunKeepsInv(r: Run, acts: seq<Act>)
    requires Inv(r) && Runs(r, acts)
    ensures Inv(RunAll(r, acts))
    decreases |acts|
  {
    if acts != [] {
      NextKeepsInv(r, acts[0]);
      RunKeepsInv(Next(r, acts[0]), acts[1..]);
    }
  }

  /** Creating, writing and dropping branches never moves main. */
  lemma {:induction false} BranchesLeaveMain(r: Run, acts: seq<Act>)
    requires Runs(r, acts) && forall a :: a in acts ==> a.Create? || a.AppendTo? || a.Drop?
    ensures RunAll(r, acts).table.main == r.table.main
    decreases |acts|
  {
    if acts != [] {
      assert acts[0] in acts && forall a :: a in acts[1..] ==> a in acts;
      BranchesLeaveMain(Next(r, acts[0]), acts[1..]);
    }
  }

  /** Every snapshot in the history of the old main is in that of the new one. */
  ghost predicate NothingLost(before: Table, after: Table) {
    before.main.Some? ==>
      after.main.Some? && forall s :: InHistory(before.parents, s, before.main.value) ==>
        InHistory(after.parents, s, after.main.value)
  }

  /**
    At any point of any interleaving, publishing a branch loses nothing from main's history
    exactly when the current main is in the branch's history, which it is as long as main has
    not moved since the branch was created; and the publish removes its own branch alone.
  */
  lemma PublishKeepsHistory(r: Run, name: string)
    requires Inv(r) && name in r.table.branches
    ensures var after := RemoveBranch(SetCurrent(r.table, name), name);
            && after.main == Some(r.table.branches[name]) && after.parents == r.table.parents
            && (r.table.main.Some? ==>
                  (NothingLost(r.table, after) <==>
                   InHistory(r.table.parents, r.table.main.value, r.table.branches[name])))
            && (r.table.main == Some(r.bases[name]) ==> NothingLost(r.table, after))
            && after.branches.Keys == r.table.branches.Keys - {name}
            && forall n :: n in after.branches ==> after.branches[n] == r.table.branches[n]
  {
    var t := r.table;
    if t.main.Some? {
      HistoryReflexive(t.parents, t.main.value);
      if InHistory(t.parents, t.main.value, t.branches[name]) {
        forall s | InHistory(t.parents, s, t.main.value) ensures InHistory(t.parents, s, t.branches[name]) {
          HistoryTransitive(t.parents, s, t.main.value, t.branches[name]);
        }
      }
    }
  }

  /** A write to main after the branch was created is lost by publishing the branch. */
  lemma PublishCanLoseHistory() returns (start: Run, acts: seq<Act>, name: string)
    ensures Inv(start) && Runs(start, acts) && name in RunAll(start, acts).table.branches
    ensures var t := RunAll(start, acts).table; !NothingLost(t, RemoveBranch(SetCurrent(t, name), name))
  {
    name := "b";
    start := Run(Table(map[1 := None], Some(1), map[]), map[]);
    acts := [Create(name), AppendMain(2)];
    var one := Next(start, Create(name));
    var two := Next(one, AppendMain(2));
    assert acts[1..] == [AppendMain(2)] && acts[1..][1..] == [];
    assert Runs(two, []) && Runs(one, [AppendMain(2)]);
    assert RunAll(one, [AppendMain(2)]) == two;
    var t := two.table;
    assert t == Table(map[1 := None, 2 := Some(1)], Some(2), map["b" := 1]);
    HistoryReflexive(t.parents, 2);
    forall line | IsLine(t.parents, line) && line[0] == 1 ensures line[|line| - 1] != 2 {
      if |line| > 1 { LineGoesBack(t.parents, line); }
    }
    assert !InHistory(t.parents, 2, 1);
  }
}
