/** A pipeline run on a real signal store: its board is at every point what the store shows. */
module StoreRuns {
  import opened Wrappers
  import opened ContextKey
  import opened Tables
  import opened StoreModel
  import opened Pipeline
  import opened PipelineTasks

  /** What an action passes to the store and the board does not show. */
  datatype Notes = Notes(details: string, summary: string, now: int, budget: nat)

  /** The statement that the task behind an action has run when the action is over, if any. */
  function StoreOp(g: Group, board: Board, a: Action, ctx: Context, notes: Notes): Option<Op> {
    match a
    case CheckDq(_, check, violations) =>
      Some(WriteDq(DqResult(g.table, check, violations == 0, notes.details, OrEmpty(ctx), notes.now)))
    case EmitSignal(_) =>
      if VerdictOn(board.dq, NodeOfGroup(g), ChecksOf(g)).AllPassed?
      then Some(Write(EmittedSignal(g.table, ctx, notes.summary, notes.now), notes.now)) else None
    case Open(_, _) => Some(Delete(g.table, ctx, notes.budget))
    case Close(_, wrote, _) =>
      if wrote then Some(Write(EmittedSignal(g.table, ctx, notes.summary, notes.now), notes.now)) else None
    case _ => None
  }

  function Performed(f: Flavour, s: State, op: Option<Op>): State {
    match op
    case None => s
    case Some(op) => Step(f, s, op).state
  }

  /** An audit that opens removes from the board what its delete removes from the store. */
  predicate OpensAs(s: State, g: Group, a: Action, ctx: Context, notes: Notes) {
    a.Open? ==> a.removed == Removed(s, g.table, ctx, notes.budget)
  }

  /** What an action of the group does to the board. */
  function BoardAfter(g: Group, board: Board, a: Action): Board {
    match a
    case CheckDq(_, check, violations) => board.(dq := board.dq[DqKey(NodeOfGroup(g), check) := violations == 0])
    case EmitSignal(_) =>
      if VerdictOn(board.dq, NodeOfGroup(g), ChecksOf(g)).AllPassed?
      then board.(signals := board.signals + {NodeOfGroup(g)}) else board
    case Open(_, removed) => board.(signals := board.signals - removed)
    case Close(_, wrote, _) => if wrote then board.(signals := board.signals + {NodeOfGroup(g)}) else board
    case _ => board
  }

  lemma NextBoard(groups: seq<Group>, r: Run, a: Action)
    requires Allowed(groups, r, a)
    ensures Next(groups, r, a).board == BoardAfter(groups[a.g], r.board, a)
  {
  }

  lemma OpOnStore(f: Flavour, g: Group, s: State, a: Action, ctx: Context, notes: Notes)
    requires Valid(s) && CtxKey(ctx) == g.key && OpensAs(s, g, a, ctx, notes)
    ensures var t := Performed(f, s, StoreOp(g, BoardOf(s), a, ctx, notes));
            Valid(t) && BoardOf(t) == BoardAfter(g, BoardOf(s), a)
  {
    match StoreOp(g, BoardOf(s), a, ctx, notes) {
      case None =>
      case Some(op) =>
        StepKeepsValid(f, s, op);
        match op {
          case Write(signal, now) => PutBoardSignal(f, s, signal, now);
          case WriteDq(result) => PutBoardResult(f, s, result);
          case Delete(table, _, budget) => DeleteFromBoard(f, s, table, ctx, budget);
          case _ =>
        }
    }
  }

  /** One action on the board is the statement of its task on the store. */
  lemma ActionOnStore(f: Flavour, groups: seq<Group>, s: State, r: Run, a: Action, ctx: Context, notes: Notes)
    requires Valid(s) && BoardOf(s) == r.board && Allowed(groups, r, a)
    requires CtxKey(ctx) == groups[a.g].key && OpensAs(s, groups[a.g], a, ctx, notes)
    ensures var t := Performed(f, s, StoreOp(groups[a.g], r.board, a, ctx, notes));
            Valid(t) && BoardOf(t) == Next(groups, r, a).board
  {
    OpOnStore(f, groups[a.g], s, a, ctx, notes);
    NextBoard(groups, r, a);
  }

  /** The contexts whose keys the groups share. */
  predicate Fits(groups: seq<Group>, ctxs: seq<Context>) {
    |ctxs| == |groups| && forall g :: 0 <= g < |groups| ==> CtxKey(ctxs[g]) == groups[g].key
  }

  function StoreStep(f: Flavour, groups: seq<Group>, ctxs: seq<Context>, s: State, a: Action, notes: Notes): State
    requires a.g < |groups| == |ctxs|
  {
    Performed(f, s, StoreOp(groups[a.g], BoardOf(s), a, ctxs[a.g], notes))
  }

  predicate InRange(groups: seq<Group>, actions: seq<Action>) {
    forall a :: a in actions ==> a.g < |groups|
  }

  /** The store after the actions. */
  function StoreAfter(f: Flavour, groups: seq<Group>, ctxs: seq<Context>, s: State,
      actions: seq<Action>, notes: seq<Notes>): State
    requires InRange(groups, actions) && |groups| == |ctxs| && |notes| == |actions|
    decreases |actions|
  {
    if actions == [] then s
    else
      assert actions[0] in actions;
      StoreAfter(f, groups, ctxs, StoreStep(f, groups, ctxs, s, actions[0], notes[0]), actions[1..], notes[1..])
  }

  /** Every audit that opens removes what its delete removes from the store it finds. */
  predicate AllOpenAs(f: Flavour, groups: seq<Group>, ctxs: seq<Context>, s: State,
      actions: seq<Action>, notes: seq<Notes>)
    requires InRange(groups, actions) && |groups| == |ctxs| && |notes| == |actions|
    decreases |actions|
  {
    actions == [] ||
    (assert actions[0] in actions;
     && OpensAs(s, groups[actions[0].g], actions[0], ctxs[actions[0].g], notes[0])
     && AllOpenAs(f, groups, ctxs, StoreStep(f, groups, ctxs, s, actions[0], notes[0]), actions[1..], notes[1..]))
  }

  /** Whole runs: the board that the tasks see is the store they write, however they interleave. */
  lemma {:induction false} RunOnStore(
      f: Flavour, groups: seq<Group>, ctxs: seq<Context>, s: State, r: Run, actions: seq<Action>, notes: seq<Notes>)
    requires Valid(s) && BoardOf(s) == r.board && Fits(groups, ctxs) && |notes| == |actions|
    requires Runs(groups, r, actions) && InRange(groups, actions) && AllOpenAs(f, groups, ctxs, s, actions, notes)
    ensures var t := StoreAfter(f, groups, ctxs, s, actions, notes);
            Valid(t) && BoardOf(t) == RunAll(groups, r, actions).board
    decreases |actions|
  {
    if actions != [] {
      var a := actions[0];
      ActionOnStore(f, groups, s, r, a, ctxs[a.g], notes[0]);
      RunOnStore(f, groups, ctxs, StoreStep(f, groups, ctxs, s, a, notes[0]),
              Next(groups, r, a), actions[1..], notes[1..]);
    }
  }

  /** On a store without signals, no run leaves a signal that a check finds for a table on a cycle of sources. */
  lemma CyclesNeverFound(
      f: Flavour, groups: seq<Group>, ctxs: seq<Context>, s: State, actions: seq<Action>, notes: seq<Notes>,
      chain: seq<string>, ctx: Context)
    requires Valid(s) && s.signals == [] && Fits(groups, ctxs) && |notes| == |actions| && Anchored(groups)
    requires Runs(groups, Start(BoardOf(s)), actions) && InRange(groups, actions)
    requires AllOpenAs(f, groups, ctxs, s, actions, notes)
    requires IsChain(groups, CtxKey(ctx), chain) && |chain| > 1 && chain[0] == chain[|chain| - 1]
    ensures Step(f, StoreAfter(f, groups, ctxs, s, actions, notes), Check(chain[0], ctx)).answer == Found(None)
  {
    var t := StoreAfter(f, groups, ctxs, s, actions, notes);
    RunOnStore(f, groups, ctxs, s, Start(BoardOf(s)), actions, notes);
    assert BoardOf(s) == Board({}, BoardOf(s).dq);
    CyclesNeverSignal(groups, BoardOf(s).dq, actions, CtxKey(ctx), chain);
    FindView(t.signals, NodeOf(chain[0], ctx));
  }
}
