/** SQL group operators over the SQLite store, and the board that a pipeline run sees in it. */
module PipelineTasks {
  import opened Json
  import opened ContextKey
  import opened Tables
  import opened Cascade
  import opened StoreModel
  import opened SqliteStore
  import Pipeline
  import TaskGroups

  function BoardOf(s: State): Pipeline.Board {
    Pipeline.Board(View(s.signals).Keys, PassedOf(View(s.dq)))
  }

  function PassedOf(dq: map<DqKey, DqVal>): map<DqKey, bool> {
    map k | k in dq :: dq[k].passed
  }

  lemma PassedUpdate(dq: map<DqKey, DqVal>, key: DqKey, val: DqVal)
    ensures PassedOf(dq[key := val]) == PassedOf(dq)[key := val.passed]
  {
  }

  lemma PutBoardSignal(f: Flavour, s: State, signal: Signal, now: int)
    requires Valid(s)
    ensures var b := BoardOf(s);
            BoardOf(Step(f, s, Write(signal, now)).state) ==
            b.(signals := b.signals + {NodeOf(signal.table, signal.ctx)})
  {
    var n := NodeOf(signal.table, signal.ctx);
    PutView(f, s.signals, n, SignalVal(signal.status, signal.executionTs, now, signal.summary, Dumps(signal.metadata)));
  }

  lemma PutBoardResult(f: Flavour, s: State, r: DqResult)
    requires Valid(s)
    ensures var b := BoardOf(s);
            BoardOf(Step(f, s, WriteDq(r)).state) == b.(dq := b.dq[DqKey(NodeOf(r.table, r.ctx), r.check) := r.passed])
  {
    var k, v := DqKey(NodeOf(r.table, r.ctx), r.check), DqVal(r.passed, r.details, r.executedAt);
    PutView(f, s.dq, k, v);
    PassedUpdate(View(s.dq), k, v);
  }

  /** The nodes whose signals a delete removes, whether it ends or is cut off. */
  function Removed(s: State, table: string, ctx: Context, budget: nat): set<Node> {
    set n | n in Visit(Links(s.deps), NodeOf(table, ctx), budget).deleted
  }

  lemma PurgeKeys(rows: seq<Row<Node, SignalVal>>, dead: seq<Node>)
    requires Unique(rows)
    ensures View(Purge(rows, dead)).Keys == View(rows).Keys - set n | n in dead
  {
    SelectView(rows, (n: Node) => n !in dead);
  }

  lemma RemovedIsReached(f: Flavour, s: State, table: string, ctx: Context, budget: nat, n: Node)
    requires Valid(s) && Step(f, s, Delete(table, ctx, budget)).answer == Done
    ensures n in Removed(s, table, ctx, budget) <==> Reaches(Links(s.deps), NodeOf(table, ctx), n)
  {
    LinksUnique(s.deps);
    DeletedExact(Links(s.deps), NodeOf(table, ctx), n, budget);
  }

  /** A delete takes its signals off the board, and nothing else; if it ends, those are all that it reaches. */
  lemma DeleteFromBoard(f: Flavour, s: State, table: string, ctx: Context, budget: nat)
    requires Valid(s)
    ensures var b, o := BoardOf(s), Step(f, s, Delete(table, ctx, budget));
            && BoardOf(o.state) == b.(signals := b.signals - Removed(s, table, ctx, budget))
            && (o.answer == Done ==>
                  forall n :: n in Removed(s, table, ctx, budget) <==> Reaches(Links(s.deps), NodeOf(table, ctx), n))
  {
    PurgeKeys(s.signals, Visit(Links(s.deps), NodeOf(table, ctx), budget).deleted);
    if Step(f, s, Delete(table, ctx, budget)).answer == Done {
      forall n ensures n in Removed(s, table, ctx, budget) <==> Reaches(Links(s.deps), NodeOf(table, ctx), n) {
        RemovedIsReached(f, s, table, ctx, budget, n);
      }
    }
  }

  /** TollkeeperSensor.poke */
  method PokeSensor(store: SqliteSignalStore, table: string, ctx: Context) returns (found: bool)
    ensures found <==> NodeOf(table, ctx) in BoardOf(store.Contents()).signals
  {
    var signal := store.Check(table, ctx);
    FindView(store.signals, NodeOf(table, ctx));
    found := signal.Some?;
  }

  /** TollkeeperDqOperator.execute, given how many rows its query returned. */
  method RunDqCheck(store: SqliteSignalStore, table: string, check: string, ctx: Context,
      violations: nat, details: string, now: int)
      returns (passed: bool)
    requires Valid(store.Contents())
    modifies store`dq
    ensures Valid(store.Contents())
    ensures passed <==> violations == 0
    ensures var b := old(BoardOf(store.Contents()));
            BoardOf(store.Contents()) == b.(dq := b.dq[DqKey(NodeOf(table, ctx), check) := violations == 0])
  {
    passed := violations == 0;
    var result := DqResult(table, check, passed, details, OrEmpty(ctx), now);
    PutBoardResult(Sqlite, store.Contents(), result);
    StepKeepsValid(Sqlite, store.Contents(), WriteDq(result));
    assert NodeOf(table, OrEmpty(ctx)) == NodeOf(table, ctx);
    store.WriteDqResult(result);
  }

  datatype EmitOutcome = Passed | Failed | RaisedMissing | RaisedFailed

  /** What the emitter does on each verdict. */
  function EmitAnswer(v: Pipeline.Verdict, stop: bool): EmitOutcome {
    match v
    case Missing => RaisedMissing
    case SomeFailed => if stop then RaisedFailed else Failed
    case AllPassed => Passed
  }

  /** Some expected check has no row for the table and context. */
  predicate LacksRow(s: State, n: Node, expected: seq<string>) {
    exists c :: c in expected && forall row :: row in s.dq ==> row.key != DqKey(n, c)
  }

  /** Some row of the table and context, of whatever check, holds a failed result. */
  predicate HasFailedRow(s: State, n: Node) {
    exists row :: row in s.dq && row.key.node == n && !row.val.passed
  }

  /** The emitter's outcome from the stored rows: missing goes before failed, which raises only on "stop". */
  lemma OutcomeOfRows(s: State, n: Node, expected: seq<string>, stop: bool)
    requires Valid(s)
    ensures var r := EmitAnswer(Pipeline.VerdictOn(BoardOf(s).dq, n, set c | c in expected), stop);
            && (r == RaisedMissing <==> LacksRow(s, n, expected))
            && (r == RaisedFailed <==> !LacksRow(s, n, expected) && HasFailedRow(s, n) && stop)
            && (r == Failed <==> !LacksRow(s, n, expected) && HasFailedRow(s, n) && !stop)
            && (r == Passed <==> !LacksRow(s, n, expected) && !HasFailedRow(s, n))
  {
    var dq, checks := BoardOf(s).dq, set c | c in expected;
    ViewRows(s.dq);
    forall c ensures DqKey(n, c) in dq <==> exists row :: row in s.dq && row.key == DqKey(n, c) {
      if DqKey(n, c) in dq { assert Row(DqKey(n, c), View(s.dq)[DqKey(n, c)]) in s.dq; }
    }
    assert (exists c :: c in checks && DqKey(n, c) !in dq) <==> LacksRow(s, n, expected) by {
      if c :| c in checks && DqKey(n, c) !in dq { assert c in expected; }
      if LacksRow(s, n, expected) {
        var c :| c in expected && forall row :: row in s.dq ==> row.key != DqKey(n, c);
        assert c in checks;
      }
    }
    assert (exists k :: k in dq && k.node == n && !dq[k]) <==> HasFailedRow(s, n) by {
      if k :| k in dq && k.node == n && !dq[k] { assert Row(k, View(s.dq)[k]) in s.dq; }
      if row :| row in s.dq && row.key.node == n && !row.val.passed { assert row.key in dq && !dq[row.key]; }
    }
  }

  lemma StoredResults(s: State, n: Node)
    requires Valid(s)
    ensures forall c :: (exists r :: r in ResultsOf(s.dq, n) && r.check == c) <==> DqKey(n, c) in BoardOf(s).dq
    ensures (exists r :: r in ResultsOf(s.dq, n) && !r.passed) <==>
            exists k :: k in BoardOf(s).dq && k.node == n && !BoardOf(s).dq[k]
  {
    var p := (k: DqKey) => k.node == n;
    var rows := Select(s.dq, p);
    var results := ResultsOf(s.dq, n);
    assert results == MapAll(rows, ResultAt);
    SelectMembers(s.dq, p);
    ViewRows(s.dq);
    forall r | r in results ensures DqKey(n, r.check) in BoardOf(s).dq && BoardOf(s).dq[DqKey(n, r.check)] == r.passed {
      var i :| 0 <= i < |results| && results[i] == r;
      assert rows[i] in rows;
    }
    forall k | k in BoardOf(s).dq && k.node == n
      ensures exists r :: r in results && r.check == k.check && r.passed == BoardOf(s).dq[k]
    {
      var row := Row(k, View(s.dq)[k]);
      assert row in s.dq && row in rows;
      var i :| 0 <= i < |rows| && rows[i] == row;
      assert results[i] in results;
    }
    forall c | DqKey(n, c) in BoardOf(s).dq ensures exists r :: r in results && r.check == c {
      assert DqKey(n, c).node == n;
    }
  }

  /** Missing names and failed results of a listing, as the verdict over the board. */
  lemma VerdictOfResults(s: State, n: Node, expected: seq<string>)
    requires Valid(s)
    ensures var results := ResultsOf(s.dq, n);
            var missing := exists c :: c in expected && c !in set x | x in results :: x.check;
            Pipeline.VerdictOn(BoardOf(s).dq, n, set c | c in expected) ==
            if missing then Pipeline.Missing
            else if exists x :: x in results && !x.passed then Pipeline.SomeFailed
            else Pipeline.AllPassed
  {
    StoredResults(s, n);
    var results := ResultsOf(s.dq, n);
    forall c ensures c in (set x | x in results :: x.check) <==> DqKey(n, c) in BoardOf(s).dq {
      assert c in (set x | x in results :: x.check) <==> exists r :: r in results && r.check == c;
    }
    var checks := set c | c in expected;
    assert forall c :: c in checks <==> c in expected;
  }

  /** The emitter's task fails exactly when its operator raises, and otherwise is done. */
  lemma EmitterTaskEnds(groups: seq<Pipeline.Group>, r: Pipeline.Run, g: nat)
    requires Pipeline.Allowed(groups, r, Pipeline.EmitSignal(g))
    ensures var t, group := Pipeline.Next(groups, r, Pipeline.EmitSignal(g)), groups[g];
            var verdict := Pipeline.VerdictOn(r.board.dq, Pipeline.NodeOfGroup(group), Pipeline.ChecksOf(group));
            var outcome := EmitAnswer(verdict, group.stop);
            && ((g, TaskGroups.Emit) in t.failed <==> outcome == RaisedMissing || outcome == RaisedFailed)
            && ((g, TaskGroups.Emit) in t.done <==> outcome == Passed || outcome == Failed)
            && t.written == r.written + if outcome == Passed then [Pipeline.NodeOfGroup(group)] else []
  {
  }

  /** The signal that the emitter writes. */
  function EmittedSignal(table: string, ctx: Context, summary: string, now: int): (signal: Signal)
    ensures NodeOf(signal.table, signal.ctx) == NodeOf(table, ctx) && signal.status == "passed"
  {
    Signal(table, OrEmpty(ctx), "passed", now, summary, Obj([]))
  }

  predicate SignalledAs(rows: seq<Row<Node, SignalVal>>, n: Node, status: string) {
    exists row :: row in rows && row.key == n && row.val.status == status
  }

  lemma EmitEffect(s: State, table: string, ctx: Context, summary: string, now: int)
    requires Valid(s)
    ensures var t := Step(Sqlite, s, Write(EmittedSignal(table, ctx, summary, now), now)).state;
            var b := BoardOf(s);
            && Valid(t) && BoardOf(t) == b.(signals := b.signals + {NodeOf(table, ctx)})
            && SignalledAs(t.signals, NodeOf(table, ctx), "passed")
  {
    var g, n := EmittedSignal(table, ctx, summary, now), NodeOf(table, ctx);
    var val := SignalVal(g.status, g.executionTs, now, g.summary, Dumps(g.metadata));
    PutBoardSignal(Sqlite, s, g, now);
    StepKeepsValid(Sqlite, s, Write(g, now));
    PutView(Sqlite, s.signals, n, val);
    ViewRows(Put(Sqlite, s.signals, n, val));
    assert Row(n, val) in Put(Sqlite, s.signals, n, val);
  }

  /** The missing and the failed results of a listing, as the emitter computes them. */
  method Judge(results: seq<DqResult>, expected: seq<string>) returns (verdict: Pipeline.Verdict)
    ensures var missing := exists c :: c in expected && c !in set x | x in results :: x.check;
            verdict ==
            if missing then Pipeline.Missing
            else if exists x :: x in results && !x.passed then Pipeline.SomeFailed
            else Pipeline.AllPassed
  {
    var byName := set x | x in results :: x.check;
    if exists c :: c in expected && c !in byName {
      return Pipeline.Missing;
    }
    if exists x :: x in results && !x.passed {
      return Pipeline.SomeFailed;
    }
    return Pipeline.AllPassed;
  }

  /** TollkeeperSignalEmitter.execute */
  method RunEmitter(store: SqliteSignalStore, table: string, expected: seq<string>,
      ctx: Context, stop: bool, summary: string, now: int)
      returns (r: EmitOutcome)
    requires Valid(store.Contents())
    modifies store`signals
    ensures Valid(store.Contents())
    ensures var b := old(BoardOf(store.Contents()));
            var verdict := Pipeline.VerdictOn(b.dq, NodeOf(table, ctx), set c | c in expected);
            && r == EmitAnswer(verdict, stop) && (r == Passed <==> verdict.AllPassed?)
            && (r == Passed ==> SignalledAs(store.signals, NodeOf(table, ctx), "passed"))
            && BoardOf(store.Contents()) == if verdict.AllPassed? then b.(signals := b.signals + {NodeOf(table, ctx)})
               else b
  {
    VerdictOfResults(store.Contents(), NodeOf(table, ctx), expected);
    var results := store.GetDqResults(table, ctx);
    var verdict := Judge(results, expected);
    if verdict.AllPassed? {
      EmitEffect(store.Contents(), table, ctx, summary, now);
      store.Write(EmittedSignal(table, ctx, summary, now), now);
    }
    return EmitAnswer(verdict, stop);
  }
}
