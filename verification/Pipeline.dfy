/**
  Whole pipelines: any number of task groups over one signal store, their tasks interleaved in
  any way that lets a task run only when all its upstream tasks have succeeded.
*/
module Pipeline {
  import opened Json
  import opened Cascade
  import opened StoreModel
  import opened TaskGroups

  /** A task group: its table, the context key its tasks share, and how it is built. */
  datatype Group = Group(table: string, key: Text, sources: set<string>, body: Body, stop: bool)

  datatype Body = SqlBody(checks: set<string>) | WrappedBody

  function Graph(g: Group): TaskGraph {
    match g.body
    case SqlBody(checks) => SqlGraph(g.sources, checks)
    case WrappedBody => WrappedGraph(g.sources)
  }

  function ChecksOf(g: Group): set<string> {
    if g.body.SqlBody? then g.body.checks else {}
  }

  function NodeOfGroup(g: Group): Node {
    Node(g.table, g.key)
  }

  /** What a store shows to Airflow tasks: which signals are there, and how the stored checks ended. */
  datatype Board = Board(signals: set<Node>, dq: map<DqKey, bool>)

  type TaskId = (nat, Task)

  /** A run so far. found holds the violations its own DQ tasks counted, written its signal writes in order. */
  datatype Run = Run(
    board: Board, done: set<TaskId>, failed: set<TaskId>, open: set<nat>,
    found: map<(nat, string), nat>, written: seq<Node>)

  function Start(board: Board): Run {
    Run(board, {}, {}, {}, map[], [])
  }

  datatype Action =
    | Poke(g: nat, source: string)                     // a sensor finds the signal it waits for
    | Load(g: nat)                                     // the SQL operator succeeds
    | CheckDq(g: nat, check: string, violations: nat)  // a DQ task stores its result
    | EmitSignal(g: nat)                               // the signal emitter runs
    | Open(g: nat, removed: set<Node>)                 // a wrapped operator's audit deletes signals
    | Close(g: nat, wrote: bool, ok: bool)             // and ends, with or without a signal
    | Fail(g: nat, task: Task)                         // any task fails: timeout, lost connection

  function TaskOf(a: Action): Task {
    match a
    case Poke(_, source) => Sensor(source)
    case Load(_) => RunSql
    case CheckDq(_, check, _) => Dq(check)
    case EmitSignal(_) => Emit
    case Open(_, _) => Wrapped
    case Close(_, _, _) => Wrapped
    case Fail(_, task) => task
  }

  datatype Verdict = Missing | SomeFailed | AllPassed

  /** The emitter's verdict over everything stored for its table and context. */
  function VerdictOn(dq: map<DqKey, bool>, n: Node, checks: set<string>): Verdict {
    if exists c :: c in checks && DqKey(n, c) !in dq then Missing
    else if exists k :: k in dq && k.node == n && !dq[k] then SomeFailed
    else AllPassed
  }

  predicate Ready(groups: seq<Group>, r: Run, g: nat, t: Task) {
    && g < |groups| && t in Graph(groups[g]).tasks
    && (g, t) !in r.done && (g, t) !in r.failed
    && forall e :: e in Graph(groups[g]).edges && e.1 == t ==> (g, e.0) in r.done
  }

  predicate Allowed(groups: seq<Group>, r: Run, a: Action) {
    && Ready(groups, r, a.g, TaskOf(a))
    && match a
       case Poke(g, source) => Node(source, groups[g].key) in r.board.signals
       case Open(g, removed) => g !in r.open && NodeOfGroup(groups[g]) in removed
       case Close(g, _, _) => g in r.open
       case _ => true
  }

  function Next(groups: seq<Group>, r: Run, a: Action): Run
    requires Allowed(groups, r, a)
  {
    var n := NodeOfGroup(groups[a.g]);
    var id := (a.g, TaskOf(a));
    match a
    case Poke(_, _) => r.(done := r.done + {id})
    case Load(_) => r.(done := r.done + {id})
    case CheckDq(g, check, violations) =>
      r.(done := r.done + {id}, found := r.found[(g, check) := violations],
         board := r.board.(dq := r.board.dq[DqKey(n, check) := violations == 0]))
    case EmitSignal(g) =>
      (match VerdictOn(r.board.dq, n, ChecksOf(groups[g]))
       case AllPassed => Signalled(r, n).(done := r.done + {id})
       case SomeFailed => if groups[g].stop then r.(failed := r.failed + {id}) else r.(done := r.done + {id})
       case Missing => r.(failed := r.failed + {id}))
    case Open(g, removed) => r.(open := r.open + {g}, board := r.board.(signals := r.board.signals - removed))
    case Close(g, wrote, ok) =>
      var s := (if wrote then Signalled(r, n) else r).(open := r.open - {g});
      if ok then s.(done := r.done + {id}) else s.(failed := r.failed + {id})
    case Fail(_, _) => r.(failed := r.failed + {id})
  }

  function Signalled(r: Run, n: Node): Run {
    r.(board := r.board.(signals := r.board.signals + {n}), written := r.written + [n])
  }

  predicate Runs(groups: seq<Group>, r: Run, actions: seq<Action>)
    decreases |actions|
  {
    actions == [] || (Allowed(groups, r, actions[0]) && Runs(groups, Next(groups, r, actions[0]), actions[1..]))
  }

  function RunAll(groups: seq<Group>, r: Run, actions: seq<Action>): Run
    requires Runs(groups, r, actions)
    decreases |actions|
  {
    if actions == [] then r else RunAll(groups, Next(groups, r, actions[0]), actions[1..])
  }

  // ---------- Causal order ----------

  /** Some group that writes the node waits for nothing. */
  predicate HasRoot(groups: seq<Group>, n: Node) {
    exists h :: h in groups && NodeOfGroup(h) == n && h.sources == {}
  }

  /**
    Every SQL group without checks, whose emitter has no upstream task at all, shares its table and
    context with a group that waits for nothing (itself, if it has no sources).
  */
  predicate Anchored(groups: seq<Group>) {
    forall g :: g in groups && g.body.SqlBody? && g.body.checks == {} ==> HasRoot(groups, NodeOfGroup(g))
  }

  predicate WrittenBefore(r: Run, n: Node, i: int) {
    exists j :: 0 <= j < i && j < |r.written| && r.written[j] == n
  }

  ghost predicate Caused(groups: seq<Group>, r: Run, i: nat)
    requires i < |r.written|
  {
    exists g :: g in groups && NodeOfGroup(g) == r.written[i] &&
                forall s :: s in g.sources ==> WrittenBefore(r, Node(s, g.key), i)
  }

  /** Every signal on the board was written in this run. */
  ghost predicate BoardInv(r: Run) {
    forall n :: n in r.board.signals ==> WrittenBefore(r, n, |r.written|)
  }

  /** What a sensor waited for was written. */
  ghost predicate SensorInv(groups: seq<Group>, r: Run) {
    forall g, s :: 0 <= g < |groups| && (g, Sensor(s)) in r.done ==>
      WrittenBefore(r, Node(s, groups[g].key), |r.written|)
  }

  predicate Gated(groups: seq<Group>, r: Run, g: nat)
    requires g < |groups|
  {
    forall s :: s in groups[g].sources ==> (g, Sensor(s)) in r.done
  }

  /** Nothing of a group has run before its sensors. */
  ghost predicate GateInv(groups: seq<Group>, r: Run) {
    && (forall g :: 0 <= g < |groups| && ((g, RunSql) in r.done || g in r.open) ==> Gated(groups, r, g))
    && (forall g, c :: 0 <= g < |groups| && (g, Dq(c)) in r.done ==> (g, RunSql) in r.done)
  }

  /** Every write had its sources written before. */
  ghost predicate CausedInv(groups: seq<Group>, r: Run) {
    forall i :: 0 <= i < |r.written| ==> Caused(groups, r, i)
  }

  ghost predicate CausalInv(groups: seq<Group>, r: Run) {
    BoardInv(r) && SensorInv(groups, r) && GateInv(groups, r) && CausedInv(groups, r)
  }

  lemma WrittenKept(r: Run, t: Run, n: Node, i: int)
    requires WrittenBefore(r, n, i) && r.written <= t.written
    ensures WrittenBefore(t, n, i)
  {
  }

  /** The sensors of whatever is ready are done, all the way up. */
  lemma ReadyIsGated(groups: seq<Group>, r: Run, a: Action)
    requires GateInv(groups, r) && Allowed(groups, r, a)
    requires a.Load? || a.Open? || a.Close? || (a.EmitSignal? && ChecksOf(groups[a.g]) != {})
    ensures Gated(groups, r, a.g)
  {
    var g := groups[a.g];
    assert g in groups;
    var edges := Graph(g).edges;
    match a
    case Load(_) =>
      forall s | s in g.sources ensures (a.g, Sensor(s)) in r.done { assert (Sensor(s), RunSql) in edges; }
    case EmitSignal(_) =>
      var c :| c in g.body.checks;
      assert (Dq(c), Emit) in edges;
      assert (a.g, Dq(c)) in r.done;
    case Open(_, _) =>
      forall s | s in g.sources ensures (a.g, Sensor(s)) in r.done { assert (Sensor(s), Wrapped) in edges; }
    case Close(_, _, _) =>
  }

  /** What one action can change. */
  lemma NextChanges(groups: seq<Group>, r: Run, a: Action)
    requires Allowed(groups, r, a)
    ensures var t := Next(groups, r, a);
            && (t.written == r.written || t.written == r.written + [NodeOfGroup(groups[a.g])])
            && (t.written != r.written ==> a.EmitSignal? || a.Close?)
            && (forall n :: n in t.board.signals ==> n in r.board.signals || t.written == r.written + [n])
            && r.done <= t.done
            && (forall id :: id in t.done ==> id in r.done || (id == (a.g, TaskOf(a)) && !a.Fail?))
            && t.open <= r.open + (if a.Open? then {a.g} else {})
            && (!a.CheckDq? ==> t.board.dq == r.board.dq && t.found == r.found)
  {
  }

  /** Which task an action ends, and how: an audit that opens goes on, and one that closes ends as it says. */
  lemma TaskEnds(groups: seq<Group>, r: Run, a: Action)
    requires Allowed(groups, r, a) && !a.EmitSignal?
    ensures var t, id := Next(groups, r, a), (a.g, TaskOf(a));
            && (id in t.done <==> a.Poke? || a.Load? || a.CheckDq? || (a.Close? && a.ok))
            && (id in t.failed <==> a.Fail? || (a.Close? && !a.ok))
            && (a.g in t.open <==> a.Open? || (a.g in r.open && !a.Close?))
  {
  }

  lemma NextKeepsGates(groups: seq<Group>, r: Run, a: Action)
    requires GateInv(groups, r) && Allowed(groups, r, a)
    ensures GateInv(groups, Next(groups, r, a))
  {
    var t := Next(groups, r, a);
    NextChanges(groups, r, a);
    if a.CheckDq? { assert (RunSql, Dq(a.check)) in Graph(groups[a.g]).edges; }
    forall g | 0 <= g < |groups| && ((g, RunSql) in t.done || g in t.open) ensures Gated(groups, t, g) {
      if (g, RunSql) in r.done || g in r.open {
        assert Gated(groups, r, g);
      } else {
        ReadyIsGated(groups, r, a);
      }
    }
  }

  lemma NextKeepsBoard(groups: seq<Group>, r: Run, a: Action)
    requires BoardInv(r) && SensorInv(groups, r) && Allowed(groups, r, a)
    ensures BoardInv(Next(groups, r, a)) && SensorInv(groups, Next(groups, r, a))
  {
    var t := Next(groups, r, a);
    NextChanges(groups, r, a);
    forall n | n in t.board.signals ensures WrittenBefore(t, n, |t.written|) {
      if n in r.board.signals {
        WrittenKept(r, t, n, |r.written|);
      } else {
        assert t.written[|r.written|] == n;
      }
    }
    forall g, s | 0 <= g < |groups| && (g, Sensor(s)) in t.done
      ensures WrittenBefore(t, Node(s, groups[g].key), |t.written|)
    {
      if (g, Sensor(s)) !in r.done {
        assert a == Poke(g, s) || a.Fail?;
      }
      WrittenKept(r, t, Node(s, groups[g].key), |r.written|);
    }
  }

  lemma CausedKept(groups: seq<Group>, r: Run, t: Run, i: nat)
    requires i < |r.written| && r.written <= t.written && Caused(groups, r, i)
    ensures Caused(groups, t, i)
  {
  }

  lemma GatedIsCaused(groups: seq<Group>, r: Run, a: Action)
    requires CausalInv(groups, r) && Allowed(groups, r, a)
    requires a.Close? || (a.EmitSignal? && ChecksOf(groups[a.g]) != {})
    requires Next(groups, r, a).written == r.written + [NodeOfGroup(groups[a.g])]
    ensures Caused(groups, Next(groups, r, a), |r.written|)
  {
    var t, g := Next(groups, r, a), groups[a.g];
    assert g in groups;
    ReadyIsGated(groups, r, a);
    forall s | s in g.sources ensures WrittenBefore(t, Node(s, g.key), |r.written|) {
      assert (a.g, Sensor(s)) in r.done;
      WrittenKept(r, t, Node(s, g.key), |r.written|);
    }
  }

  lemma NextKeepsCaused(groups: seq<Group>, r: Run, a: Action)
    requires Anchored(groups) && CausalInv(groups, r) && Allowed(groups, r, a)
    ensures CausedInv(groups, Next(groups, r, a))
  {
    var t := Next(groups, r, a);
    NextChanges(groups, r, a);
    forall i | 0 <= i < |t.written| ensures Caused(groups, t, i) {
      if i < |r.written| {
        CausedKept(groups, r, t, i);
      } else {
        var g := groups[a.g];
        assert g in groups;
        if a.EmitSignal? && ChecksOf(g) == {} {
          assert HasRoot(groups, NodeOfGroup(g));
        } else {
          GatedIsCaused(groups, r, a);
        }
      }
    }
  }

  lemma NextKeepsCausal(groups: seq<Group>, r: Run, a: Action)
    requires Anchored(groups) && CausalInv(groups, r) && Allowed(groups, r, a)
    ensures CausalInv(groups, Next(groups, r, a))
  {
    NextKeepsBoard(groups, r, a);
    NextKeepsGates(groups, r, a);
    NextKeepsCaused(groups, r, a);
  }

  /** From a board without signals, every signal write follows a signal write for each source of its group. */
  lemma {:induction false} CausalOrder(groups: seq<Group>, r: Run, actions: seq<Action>)
    requires Anchored(groups) && CausalInv(groups, r) && Runs(groups, r, actions)
    ensures CausalInv(groups, RunAll(groups, r, actions))
    decreases |actions|
  {
    if actions != [] {
      NextKeepsCausal(groups, r, actions[0]);
      CausalOrder(groups, Next(groups, r, actions[0]), actions[1..]);
    }
  }

  /** Whatever group writes t at this key has s among its sources. */
  predicate Needs(groups: seq<Group>, key: Text, t: string, s: string) {
    forall g :: g in groups && g.table == t && g.key == key ==> s in g.sources
  }

  /** A chain of tables, each needed by the one before it. */
  predicate IsChain(groups: seq<Group>, key: Text, chain: seq<string>) {
    chain != [] && forall i :: 0 <= i < |chain| - 1 ==> Needs(groups, key, chain[i], chain[i + 1])
  }

  lemma {:induction false} ChainWritten(groups: seq<Group>, r: Run, key: Text, chain: seq<string>, i: nat)
    requires CausalInv(groups, r) && IsChain(groups, key, chain) && |chain| > 1
    requires i < |r.written| && r.written[i] == Node(chain[0], key)
    ensures WrittenBefore(r, Node(chain[|chain| - 1], key), i)
    decreases |chain|
  {
    assert Caused(groups, r, i);
    var g :| g in groups && NodeOfGroup(g) == r.written[i] &&
             forall s :: s in g.sources ==> WrittenBefore(r, Node(s, g.key), i);
    assert Needs(groups, key, chain[0], chain[1]);
    assert WrittenBefore(r, Node(chain[1], key), i);
    if |chain| > 2 {
      var j :| 0 <= j < i && j < |r.written| && r.written[j] == Node(chain[1], key);
      var rest := chain[1..];
      assert forall k :: 0 <= k < |rest| - 1 ==> Needs(groups, key, rest[k], rest[k + 1]) by {
        forall k | 0 <= k < |rest| - 1 ensures Needs(groups, key, rest[k], rest[k + 1]) {
          assert Needs(groups, key, chain[k + 1], chain[k + 2]);
        }
      }
      ChainWritten(groups, r, key, rest, j);
      var m :| 0 <= m < j && m < |r.written| && r.written[m] == Node(rest[|rest| - 1], key);
      assert m < i;
    }
  }

  /**
    Causal order over whole runs: from a board without signals, a signal write for a table comes after a
    write for every table up its chain of sources, in the same context.
  */
  lemma TransitiveSourcesFirst(groups: seq<Group>, dq: map<DqKey, bool>, actions: seq<Action>,
      key: Text, chain: seq<string>, i: nat)
    requires Anchored(groups) && Runs(groups, Start(Board({}, dq)), actions)
    requires IsChain(groups, key, chain) && |chain| > 1
    requires var r := RunAll(groups, Start(Board({}, dq)), actions);
             i < |r.written| && r.written[i] == Node(chain[0], key)
    ensures WrittenBefore(RunAll(groups, Start(Board({}, dq)), actions), Node(chain[|chain| - 1], key), i)
  {
    CausalOrder(groups, Start(Board({}, dq)), actions);
    ChainWritten(groups, RunAll(groups, Start(Board({}, dq)), actions), key, chain, i);
  }

  lemma {:induction false} NoFirstWrite(groups: seq<Group>, r: Run, key: Text, chain: seq<string>, i: nat)
    requires CausalInv(groups, r) && IsChain(groups, key, chain) && |chain| > 1 && chain[0] == chain[|chain| - 1]
    requires i < |r.written|
    ensures r.written[i] != Node(chain[0], key)
    decreases i
  {
    if r.written[i] == Node(chain[0], key) {
      ChainWritten(groups, r, key, chain, i);
      var j :| 0 <= j < i && j < |r.written| && r.written[j] == Node(chain[0], key);
      NoFirstWrite(groups, r, key, chain, j);
    }
  }

  /** A table on a cycle of sources is never signalled. */
  lemma CyclesNeverSignal(groups: seq<Group>, dq: map<DqKey, bool>, actions: seq<Action>, key: Text, chain: seq<string>)
    requires Anchored(groups) && Runs(groups, Start(Board({}, dq)), actions)
    requires IsChain(groups, key, chain) && |chain| > 1 && chain[0] == chain[|chain| - 1]
    ensures Node(chain[0], key) !in RunAll(groups, Start(Board({}, dq)), actions).board.signals
  {
    var r := RunAll(groups, Start(Board({}, dq)), actions);
    CausalOrder(groups, Start(Board({}, dq)), actions);
    forall i | 0 <= i < |r.written| ensures r.written[i] != Node(chain[0], key)
      { NoFirstWrite(groups, r, key, chain, i); }
  }

  /** A SQL group without checks, whose table no group writes without sources, can be signalled before anything ran. */
  lemma UncheckedGroupJumpsTheGate(groups: seq<Group>, g: nat)
    requires g < |groups| && groups[g].body == SqlBody({}) && !HasRoot(groups, NodeOfGroup(groups[g]))
    ensures Runs(groups, Start(Board({}, map[])), [EmitSignal(g)])
    ensures !CausedInv(groups, RunAll(groups, Start(Board({}, map[])), [EmitSignal(g)]))
  {
    var start, a := Start(Board({}, map[])), EmitSignal(g);
    assert Allowed(groups, start, a);
    var r := Next(groups, start, a);
    assert r.written == [NodeOfGroup(groups[g])];
    assert [a][1..] == [] && RunAll(groups, r, []) == r;
    assert RunAll(groups, start, [a]) == r;
    assert !Caused(groups, r, 0);
  }

  /** If these actions can be run on an empty store, every signal write follows one for each of its sources. */
  ghost predicate RunIsCausal(groups: seq<Group>, actions: seq<Action>) {
    Runs(groups, Start(Board({}, map[])), actions) ==>
      CausedInv(groups, RunAll(groups, Start(Board({}, map[])), actions))
  }

  /** Exactly which pipelines keep the causal order in every run from an empty store. */
  lemma CausalExactly(groups: seq<Group>)
    ensures Anchored(groups) <==> forall actions :: RunIsCausal(groups, actions)
  {
    var start := Start(Board({}, map[]));
    if Anchored(groups) {
      forall actions | Runs(groups, start, actions) ensures RunIsCausal(groups, actions) {
        CausalOrder(groups, start, actions);
      }
    } else {
      var group :| group in groups && group.body.SqlBody? && group.body.checks == {} &&
        !HasRoot(groups, NodeOfGroup(group));
      var g :| 0 <= g < |groups| && groups[g] == group;
      UncheckedGroupJumpsTheGate(groups, g);
      assert !RunIsCausal(groups, [EmitSignal(g)]);
    }
  }

  // ---------- The audit stage in any order ----------

  /** One group per table and context. */
  predicate OneWriter(groups: seq<Group>) {
    forall i, j :: 0 <= i < j < |groups| ==> NodeOfGroup(groups[i]) != NodeOfGroup(groups[j])
  }

  /** What is stored for check c of group g: the count of its DQ task, or what the run began with. */
  predicate AuditAt(groups: seq<Group>, before: Board, r: Run, g: nat, c: string)
    requires g < |groups|
  {
    var k := DqKey(NodeOfGroup(groups[g]), c);
    && ((g, Dq(c)) in r.done <==> (g, c) in r.found)
    && (if (g, c) in r.found
        then c in ChecksOf(groups[g]) && k in r.board.dq && r.board.dq[k] == (r.found[(g, c)] == 0)
        else (k in r.board.dq <==> k in before.dq) && (k in before.dq ==> r.board.dq[k] == before.dq[k]))
  }

  ghost predicate AuditInv(groups: seq<Group>, before: Board, r: Run) {
    forall g, c :: 0 <= g < |groups| ==> AuditAt(groups, before, r, g, c)
  }

  lemma NextKeepsAudit(groups: seq<Group>, before: Board, r: Run, a: Action)
    requires OneWriter(groups) && AuditInv(groups, before, r) && Allowed(groups, r, a)
    ensures AuditInv(groups, before, Next(groups, r, a))
  {
    var t := Next(groups, r, a);
    forall g, c | 0 <= g < |groups| ensures AuditAt(groups, before, t, g, c) {
      assert AuditAt(groups, before, r, g, c);
      NextChanges(groups, r, a);
      if a.CheckDq? {
        assert groups[a.g] in groups && Dq(a.check) in Graph(groups[a.g]).tasks;
        assert g != a.g ==> NodeOfGroup(groups[g]) != NodeOfGroup(groups[a.g]);
      }
    }
  }

  lemma {:induction false} AuditAnyOrder(groups: seq<Group>, before: Board, r: Run, actions: seq<Action>)
    requires OneWriter(groups) && AuditInv(groups, before, r) && Runs(groups, r, actions)
    ensures AuditInv(groups, before, RunAll(groups, r, actions))
    decreases |actions|
  {
    if actions != [] {
      NextKeepsAudit(groups, before, r, actions[0]);
      AuditAnyOrder(groups, before, Next(groups, r, actions[0]), actions[1..]);
    }
  }

  /** A stored result of a check that is not one of the group's is failing from before. */
  predicate LeftoverFailure(before: Board, g: Group) {
    exists k :: k in before.dq && k.node == NodeOfGroup(g) && k.check !in ChecksOf(g) && !before.dq[k]
  }

  /** This run's DQ tasks found nothing wrong, and nothing wrong is left over from another check. */
  predicate Clear(before: Board, r: Run, groups: seq<Group>, g: nat)
    requires g < |groups|
  {
    (forall c :: c in ChecksOf(groups[g]) ==> (g, c) in r.found && r.found[(g, c)] == 0)
    && !LeftoverFailure(before, groups[g])
  }

  lemma EmitterSeesAll(groups: seq<Group>, before: Board, r: Run, g: nat)
    requires OneWriter(groups) && AuditInv(groups, before, r) && Allowed(groups, r, EmitSignal(g))
    ensures forall c :: c in ChecksOf(groups[g]) ==> (g, c) in r.found && DqKey(NodeOfGroup(groups[g]), c) in r.board.dq
  {
    assert groups[g] in groups;
    forall c | c in ChecksOf(groups[g])
      ensures (g, c) in r.found && DqKey(NodeOfGroup(groups[g]), c) in r.board.dq
    {
      assert (Dq(c), Emit) in Graph(groups[g]).edges;
      assert AuditAt(groups, before, r, g, c);
    }
  }

  lemma FailuresMatch(groups: seq<Group>, before: Board, r: Run, g: nat)
    requires AuditInv(groups, before, r) && g < |groups|
    requires forall c :: c in ChecksOf(groups[g]) ==> (g, c) in r.found
    ensures (exists k :: k in r.board.dq && k.node == NodeOfGroup(groups[g]) && !r.board.dq[k]) <==>
            !Clear(before, r, groups, g)
  {
    var n := NodeOfGroup(groups[g]);
    if k :| k in r.board.dq && k.node == n && !r.board.dq[k] {
      assert k == DqKey(n, k.check) && AuditAt(groups, before, r, g, k.check);
    }
    if c :| c in ChecksOf(groups[g]) && r.found[(g, c)] != 0 {
      assert AuditAt(groups, before, r, g, c) && DqKey(n, c).node == n;
    }
    if k :| k in before.dq && k.node == n && k.check !in ChecksOf(groups[g]) && !before.dq[k] {
      assert k == DqKey(n, k.check) && AuditAt(groups, before, r, g, k.check);
    }
  }

  /**
    In whatever order Airflow ran them, when an emitter runs no result is missing, and it writes its
    signal exactly when each of its checks counted no violation in this run and no result left
    over from another check is failing.
  */
  lemma EmitterVerdict(groups: seq<Group>, before: Board, actions: seq<Action>, g: nat)
    requires OneWriter(groups) && Runs(groups, Start(before), actions)
    requires Allowed(groups, RunAll(groups, Start(before), actions), EmitSignal(g))
    ensures var r := RunAll(groups, Start(before), actions);
            var n, t := NodeOfGroup(groups[g]), Next(groups, r, EmitSignal(g));
            && VerdictOn(r.board.dq, n, ChecksOf(groups[g])) != Missing
            && (t.written == if Clear(before, r, groups, g) then r.written + [n] else r.written)
            && ((g, Emit) in t.failed <==> !Clear(before, r, groups, g) && groups[g].stop)
            && ((g, Emit) in t.done <==> Clear(before, r, groups, g) || !groups[g].stop)
  {
    var r := RunAll(groups, Start(before), actions);
    AuditAnyOrder(groups, before, Start(before), actions);
    EmitterSeesAll(groups, before, r, g);
    FailuresMatch(groups, before, r, g);
  }

  predicate IsGroupNode(groups: seq<Group>, n: Node) {
    exists g :: 0 <= g < |groups| && NodeOfGroup(groups[g]) == n
  }

  /** Both maps have the same under k. */
  predicate SameRow(a: map<DqKey, bool>, b: map<DqKey, bool>, k: DqKey) {
    (k in a <==> k in b) && (k in a ==> a[k] == b[k])
  }

  lemma SameMap(a: map<DqKey, bool>, b: map<DqKey, bool>)
    requires forall k :: SameRow(a, b, k)
    ensures a == b
  {
    forall k ensures k in a <==> k in b { assert SameRow(a, b, k); }
    assert a.Keys == b.Keys;
    forall k | k in a ensures a[k] == b[k] { assert SameRow(a, b, k); }
  }

  /** Results of tables that no group writes stay as they were. */
  lemma {:induction false} OthersKept(groups: seq<Group>, r: Run, actions: seq<Action>, k: DqKey)
    requires Runs(groups, r, actions) && !IsGroupNode(groups, k.node)
    ensures SameRow(RunAll(groups, r, actions).board.dq, r.board.dq, k)
    decreases |actions|
  {
    if actions != [] {
      NextChanges(groups, r, actions[0]);
      assert NodeOfGroup(groups[actions[0].g]) != k.node;
      OthersKept(groups, Next(groups, r, actions[0]), actions[1..], k);
    }
  }

  /** Two runs whose DQ tasks counted the same have stored the same results. */
  lemma SameCountsSameResults(groups: seq<Group>, before: Board, a: seq<Action>, b: seq<Action>)
    requires OneWriter(groups) && Runs(groups, Start(before), a) && Runs(groups, Start(before), b)
    requires RunAll(groups, Start(before), a).found == RunAll(groups, Start(before), b).found
    ensures RunAll(groups, Start(before), a).board.dq == RunAll(groups, Start(before), b).board.dq
  {
    var r, t := RunAll(groups, Start(before), a), RunAll(groups, Start(before), b);
    AuditAnyOrder(groups, before, Start(before), a);
    AuditAnyOrder(groups, before, Start(before), b);
    forall k ensures SameRow(r.board.dq, t.board.dq, k) {
      if IsGroupNode(groups, k.node) {
        var g :| 0 <= g < |groups| && NodeOfGroup(groups[g]) == k.node;
        assert k == DqKey(NodeOfGroup(groups[g]), k.check);
        assert AuditAt(groups, before, r, g, k.check) && AuditAt(groups, before, t, g, k.check);
      } else {
        OthersKept(groups, Start(before), a, k);
        OthersKept(groups, Start(before), b, k);
      }
    }
    SameMap(r.board.dq, t.board.dq);
  }
}
