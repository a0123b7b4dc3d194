/**
  The signal as a gate: an audit closes it for its table and for everything downstream before
  it runs its checks, and opens it again for its table alone, only if every result passed.
*/
module Gate {
  import opened Wrappers
  import opened Json
  import opened ContextKey
  import opened Tables
  import opened Cascade
  import opened StoreModel
  import Session

  function Play(f: Flavour, s: State, ops: seq<Op>): State
    decreases |ops|
  {
    if ops == [] then s else Step(f, Play(f, s, ops[..|ops| - 1]), ops[|ops| - 1]).state
  }

  predicate Writes(op: Op, n: Node) {
    op.Write? && NodeOf(op.signal.table, op.signal.ctx) == n
  }

  predicate Spares(ops: seq<Op>, n: Node) {
    forall op :: op in ops ==> !Writes(op, n)
  }

  lemma {:induction false} FindNothing<K(!new), V(!new)>(rows: seq<Row<K, V>>, key: K)
    ensures Find(rows, key) == None <==> forall r :: r in rows ==> r.key != key
    decreases |rows|
  {
    if rows != [] {
      FindNothing(rows[1..], key);
      assert rows == [rows[0]] + rows[1..];
      assert rows[0] in rows;
    }
  }

  /** An absent signal stays absent through everything but a write for it. */
  lemma StepKeepsAbsent(f: Flavour, s: State, op: Op, n: Node)
    requires Valid(s) && Find(s.signals, n) == None && !Writes(op, n)
    ensures Find(Step(f, s, op).state.signals, n) == None
  {
    var t := Step(f, s, op).state;
    FindNothing(s.signals, n);
    FindNothing(t.signals, n);
    match op
    case Write(g, now) =>
      PutView(f, s.signals, NodeOf(g.table, g.ctx),
              SignalVal(g.status, g.executionTs, now, g.summary, Dumps(g.metadata)));
    case Delete(table, ctx, budget) =>
      var w := Visit(Links(s.deps), NodeOf(table, ctx), budget);
      SelectMembers(s.signals, (m: Node) => m !in w.deleted);
    case _ =>
  }

  lemma {:induction false} PlayKeepsAbsent(f: Flavour, s: State, ops: seq<Op>, n: Node)
    requires Valid(s) && Find(s.signals, n) == None && Spares(ops, n)
    ensures Valid(Play(f, s, ops)) && Find(Play(f, s, ops).signals, n) == None
    decreases |ops|
  {
    if ops != [] {
      var init := ops[..|ops| - 1];
      assert ops[|ops| - 1] in ops && forall op :: op in init ==> op in ops;
      PlayKeepsAbsent(f, s, init, n);
      StepKeepsAbsent(f, Play(f, s, init), ops[|ops| - 1], n);
      StepKeepsValid(f, Play(f, s, init), ops[|ops| - 1]);
    }
  }

  /** A delete that ends leaves no signal on any node it reaches. */
  lemma DeleteCloses(f: Flavour, s: State, table: string, ctx: Context, budget: nat, m: Node)
    requires Valid(s) && Step(f, s, Delete(table, ctx, budget)).answer == Done
    requires Reaches(Links(s.deps), NodeOf(table, ctx), m)
    ensures Find(Step(f, s, Delete(table, ctx, budget)).state.signals, m) == None
  {
    DeleteExact(f, s, table, ctx, budget);
    FindNothing(Step(f, s, Delete(table, ctx, budget)).state.signals, m);
  }

  /** The signal of an audit that passed. */
  function PassedSignal(table: string, ctx: Context, ts: int, summary: string): Signal {
    Signal(table, OrEmpty(ctx), "passed", ts, summary, Obj([]))
  }

  /** The final write of an audit, if its session made one. */
  function Reopen(f: Flavour, s: State, e: Session.Effect, table: string,
      ctx: Context, ts: int, summary: string): State
  {
    if Session.SignalWritten(true) in e.events then Step(f, s, Write(PassedSignal(table, ctx, ts, summary), ts)).state
    else s
  }

  /** Even a delete that is cut off by the interpreter's depth has removed its own signal first. */
  lemma OwnSignalGoes(f: Flavour, s: State, table: string, ctx: Context, budget: nat)
    requires Valid(s) && budget > 0
    ensures Find(Step(f, s, Delete(table, ctx, budget)).state.signals, NodeOf(table, ctx)) == None
  {
    var n := NodeOf(table, ctx);
    var w := Visit(Links(s.deps), n, budget);
    assert w.deleted[0] == n;
    SelectMembers(s.signals, (m: Node) => m !in w.deleted);
    FindNothing(Purge(s.signals, w.deleted), n);
  }

  /**
    Between the initial delete of an audit and its final write no poll sees the signal, whatever
    other clients do short of writing it, and even if the delete raises.
  */
  lemma AuditClosesGate(f: Flavour, s: State, table: string, ctx: Context, budget: nat, others: seq<Op>)
    requires Valid(s) && budget > 0 && Spares(others, NodeOf(table, ctx))
    ensures var last := Play(f, Step(f, s, Delete(table, ctx, budget)).state, others);
            Valid(last) && Step(f, last, Check(table, ctx)).answer == Found(None)
  {
    OwnSignalGoes(f, s, table, ctx, budget);
    StepKeepsValid(f, s, Delete(table, ctx, budget));
    PlayKeepsAbsent(f, Step(f, s, Delete(table, ctx, budget)).state, others, NodeOf(table, ctx));
  }

  /**
    Once an audit is over the signal is there exactly when its session wrote it, which on a
    normal return is exactly when every result so far passed.
  */
  lemma AuditReopensGate(f: Flavour, s: State, flags: Session.Flags, c: Session.Call,
      table: string, ctx: Context, ts: int, summary: string)
    requires Valid(s) && Step(f, s, Check(table, ctx)).answer == Found(None)
    requires c.Audit? && c.deleteOk
    ensures var e := Session.Step(true, flags, c);
            var polled := Step(f, Reopen(f, s, e, table, ctx, ts, summary), Check(table, ctx)).answer;
            && polled.Found?
            && (polled.signal.Some? <==> Session.SignalWritten(true) in e.events)
            && (polled.signal.Some? ==> polled.signal.value.table == table && polled.signal.value.status == "passed")
            && (e.ending == Session.Normal ==> (polled.signal.Some? <==> Session.AllPassed(e.flags.results)))
  {
    WriteOpens(f, s, table, ctx, ts, summary);
    SignalEvent(flags, c);
  }

  lemma WriteOpens(f: Flavour, s: State, table: string, ctx: Context, ts: int, summary: string)
    requires Valid(s)
    ensures var after := Step(f, s, Write(PassedSignal(table, ctx, ts, summary), ts)).state;
            var found := Find(after.signals, NodeOf(table, ctx));
            found.Some? && found.value.status == "passed"
  {
    var g := PassedSignal(table, ctx, ts, summary);
    var n := NodeOf(table, ctx);
    assert NodeOf(g.table, g.ctx) == n;
    PutView(f, s.signals, n, SignalVal(g.status, g.executionTs, ts, g.summary, Dumps(g.metadata)));
    FindView(Step(f, s, Write(g, ts)).state.signals, n);
  }

  lemma SignalEvent(flags: Session.Flags, c: Session.Call)
    requires c.Audit? && c.deleteOk
    ensures var e := Session.Step(true, flags, c);
            e.ending == Session.Normal ==>
              (Session.SignalWritten(true) in e.events <==> Session.AllPassed(e.flags.results))
  {
  }

  lemma ReopenSparesOthers(f: Flavour, s: State, e: Session.Effect, table: string,
      ctx: Context, ts: int, summary: string, m: Node)
    requires Valid(s) && Find(s.signals, m) == None && m != NodeOf(table, ctx)
    ensures Find(Reopen(f, s, e, table, ctx, ts, summary).signals, m) == None
  {
    var g := PassedSignal(table, ctx, ts, summary);
    assert NodeOf(g.table, g.ctx) == NodeOf(table, ctx);
    StepKeepsAbsent(f, s, Write(g, ts), m);
  }

  /** Everything downstream of an audited table is left without a signal, pass or fail, if the delete ended. */
  lemma AuditClosesDownstream(f: Flavour, s: State, e: Session.Effect, table: string, ctx: Context, budget: nat,
                              others: seq<Op>, ts: int, summary: string, m: Node)
    requires Valid(s) && Step(f, s, Delete(table, ctx, budget)).answer == Done
    requires m != NodeOf(table, ctx) && Reaches(Links(s.deps), NodeOf(table, ctx), m) && Spares(others, m)
    ensures var last := Play(f, Step(f, s, Delete(table, ctx, budget)).state, others);
            Find(Reopen(f, last, e, table, ctx, ts, summary).signals, m) == None
  {
    var closed := Step(f, s, Delete(table, ctx, budget)).state;
    DeleteCloses(f, s, table, ctx, budget, m);
    StepKeepsValid(f, s, Delete(table, ctx, budget));
    PlayKeepsAbsent(f, closed, others, m);
    ReopenSparesOthers(f, Play(f, closed, others), e, table, ctx, ts, summary, m);
  }

  // ---------- The whole audit ----------

  /** The store while an audit runs its checks: its delete is over, and other clients have done their part. */
  function During(f: Flavour, s: State, table: string, ctx: Context, budget: nat, others: seq<Op>): State {
    Play(f, Step(f, s, Delete(table, ctx, budget)).state, others)
  }

  /** The delete of call c returns exactly when the store's delete does. */
  predicate DeletesAs(f: Flavour, s: State, table: string, ctx: Context, budget: nat, c: Session.Call)
    requires c.Audit?
  {
    c.deleteOk <==> Step(f, s, Delete(table, ctx, budget)).answer == Done
  }

  predicate IsSignalled(f: Flavour, s: State, table: string, ctx: Context) {
    Step(f, s, Check(table, ctx)).answer != Found(None)
  }

  /**
    A whole audit, whatever raises in it and whatever other clients do short of writing its signal: until its
    final write no poll sees the signal; afterwards it is there exactly if it was written, which on a normal
    return is exactly if every result passed; and if the delete ended, nothing it reaches is signalled, unless
    another client wrote that.
  */
  lemma AuditIsAGate(f: Flavour, s: State, flags: Session.Flags, c: Session.Call, table: string, ctx: Context,
                     budget: nat, others: seq<Op>, ts: int, summary: string)
    requires Valid(s) && budget > 0 && Spares(others, NodeOf(table, ctx))
    requires c.Audit? && (c.onFailure == "stop" || c.onFailure == "continue") && DeletesAs(f, s, table, ctx, budget, c)
    ensures var e := Session.Step(true, flags, c);
            var after := Reopen(f, During(f, s, table, ctx, budget, others), e, table, ctx, ts, summary);
            && (forall i :: 0 <= i <= |others| ==>
                  !IsSignalled(f, During(f, s, table, ctx, budget, others[..i]), table, ctx))
            && (IsSignalled(f, after, table, ctx) <==> Session.SignalWritten(true) in e.events)
            && (e.ending == Session.Normal ==>
                  (IsSignalled(f, after, table, ctx) <==> Session.AllPassed(e.flags.results)))
            && (!c.deleteOk ==> !IsSignalled(f, after, table, ctx))
            && (c.deleteOk ==>
                  forall m :: Spares(others, m) && m != NodeOf(table, ctx) &&
                              Reaches(Links(s.deps), NodeOf(table, ctx), m) ==>
                                Find(after.signals, m) == None)
  {
    var e := Session.Step(true, flags, c);
    var last := During(f, s, table, ctx, budget, others);
    forall i | 0 <= i <= |others| ensures !IsSignalled(f, During(f, s, table, ctx, budget, others[..i]), table, ctx) {
      assert forall op :: op in others[..i] ==> op in others;
      AuditClosesGate(f, s, table, ctx, budget, others[..i]);
    }
    AuditClosesGate(f, s, table, ctx, budget, others);
    if c.deleteOk {
      AuditReopensGate(f, last, flags, c, table, ctx, ts, summary);
      forall m | m != NodeOf(table, ctx) && Reaches(Links(s.deps), NodeOf(table, ctx), m) && Spares(others, m)
        ensures Find(Reopen(f, last, e, table, ctx, ts, summary).signals, m) == None
      {
        AuditClosesDownstream(f, s, e, table, ctx, budget, others, ts, summary, m);
      }
    }
  }
}
