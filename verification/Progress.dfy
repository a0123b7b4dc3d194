/** Nothing gets stuck: SQL groups over acyclic sources all signal, whatever the schedule. */
module Progress {
  import opened Tables
  import opened Cascade
  import opened StoreModel
  import opened TaskGroups
  import opened Pipeline

  /** Group h produces a source that group g waits for. */
  predicate Feeds(groups: seq<Group>, g: nat, h: nat) {
    g < |groups| && h < |groups| && groups[h].table in groups[g].sources && groups[h].key == groups[g].key
  }

  /** A chain of groups, each fed by the next. */
  predicate FeedChain(groups: seq<Group>, c: seq<nat>) {
    && c != [] && (forall i :: 0 <= i < |c| ==> c[i] < |groups|)
    && forall i :: 0 <= i < |c| - 1 ==> Feeds(groups, c[i], c[i + 1])
  }

  ghost predicate Acyclic(groups: seq<Group>) {
    forall c: seq<nat> :: FeedChain(groups, c) && |c| > 1 ==> c[0] != c[|c| - 1]
  }

  /** Every source is either signalled from the start or some group's table. */
  predicate ExternalsSignalled(groups: seq<Group>, before: Board) {
    forall g :: 0 <= g < |groups| ==>
      forall s :: s in groups[g].sources ==>
        Node(s, groups[g].key) in before.signals || HasGroup(groups, Node(s, groups[g].key))
  }

  predicate HasGroup(groups: seq<Group>, n: Node) {
    exists h :: 0 <= h < |groups| && NodeOfGroup(groups[h]) == n
  }

  /** A task that succeeds: a load, a sensor that finds its signal, a check without violations, the emitter. */
  predicate Smooth(a: Action) {
    a.Poke? || a.Load? || a.EmitSignal? || (a.CheckDq? && a.violations == 0)
  }

  predicate AllSql(groups: seq<Group>) {
    forall g :: g in groups ==> g.body.SqlBody?
  }

  function AllTasks(groups: seq<Group>): set<TaskId> {
    set g, t | 0 <= g < |groups| && t in Graph(groups[g]).tasks :: (g, t)
  }

  /** A failing row of group g is one that a check of the group has yet to overwrite, unless one is left over. */
  predicate Pending(groups: seq<Group>, before: Board, r: Run, g: nat, k: DqKey)
    requires g < |groups|
  {
    || LeftoverFailure(before, groups[g])
    || (k.check in ChecksOf(groups[g]) && (g, Dq(k.check)) !in r.done)
  }

  /** The emitter of g is over: it has signalled its table, unless a failing result is left over. */
  predicate Settled(groups: seq<Group>, before: Board, r: Run, g: nat)
    requires g < |groups|
  {
    LeftoverFailure(before, groups[g]) || NodeOfGroup(groups[g]) in r.board.signals
  }

  /** Only emitters fail, and only over a result that is left over. */
  predicate FailsOver(groups: seq<Group>, before: Board, id: TaskId) {
    id.0 < |groups| && id.1 == Emit && LeftoverFailure(before, groups[id.0])
  }

  ghost predicate OnlyEmittersFail(groups: seq<Group>, before: Board, r: Run) {
    forall id :: id in r.failed ==> FailsOver(groups, before, id)
  }

  ghost predicate FailuresPend(groups: seq<Group>, before: Board, r: Run) {
    forall g, k :: 0 <= g < |groups| && k in r.board.dq && k.node == NodeOfGroup(groups[g]) && !r.board.dq[k] ==>
                     Pending(groups, before, r, g, k)
  }

  ghost predicate ResultsStored(groups: seq<Group>, r: Run) {
    forall g, c :: 0 <= g < |groups| && (g, Dq(c)) in r.done ==> DqKey(NodeOfGroup(groups[g]), c) in r.board.dq
  }

  ghost predicate EmittersSettle(groups: seq<Group>, before: Board, r: Run) {
    forall g :: 0 <= g < |groups| && (g, Emit) in r.done ==> Settled(groups, before, r, g)
  }

  ghost predicate SmoothInv(groups: seq<Group>, before: Board, r: Run) {
    && r.done + r.failed <= AllTasks(groups) && before.signals <= r.board.signals
    && OnlyEmittersFail(groups, before, r) && FailuresPend(groups, before, r)
    && ResultsStored(groups, r) && EmittersSettle(groups, before, r)
  }

  /** An emitter that may run finds nothing missing, and nothing failing but what is left over. */
  lemma EmitterPasses(groups: seq<Group>, before: Board, r: Run, g: nat)
    requires SmoothInv(groups, before, r) && Allowed(groups, r, EmitSignal(g))
    ensures var verdict := VerdictOn(r.board.dq, NodeOfGroup(groups[g]), ChecksOf(groups[g]));
            verdict != Missing && (!LeftoverFailure(before, groups[g]) ==> verdict == AllPassed)
  {
    forall c | c in ChecksOf(groups[g]) ensures (g, Dq(c)) in r.done {
      assert (Dq(c), Emit) in Graph(groups[g]).edges;
    }
    forall k | k in r.board.dq && k.node == NodeOfGroup(groups[g]) && !r.board.dq[k]
      ensures LeftoverFailure(before, groups[g])
    {
      assert Pending(groups, before, r, g, k);
    }
  }

  lemma NextKeepsPending(groups: seq<Group>, before: Board, r: Run, a: Action)
    requires OneWriter(groups) && SmoothInv(groups, before, r) && Allowed(groups, r, a) && Smooth(a)
    ensures FailuresPend(groups, before, Next(groups, r, a))
  {
    var t := Next(groups, r, a);
    NextChanges(groups, r, a);
    forall g, k | 0 <= g < |groups| && k in t.board.dq && k.node == NodeOfGroup(groups[g]) && !t.board.dq[k]
      ensures Pending(groups, before, t, g, k)
    {
      assert k in r.board.dq && !r.board.dq[k];
      assert Pending(groups, before, r, g, k);
    }
  }

  lemma NextKeepsSettled(groups: seq<Group>, before: Board, r: Run, a: Action)
    requires SmoothInv(groups, before, r) && Allowed(groups, r, a) && Smooth(a)
    ensures EmittersSettle(groups, before, Next(groups, r, a))
  {
    var t := Next(groups, r, a);
    if a.EmitSignal? { EmitterPasses(groups, before, r, a.g); }
    forall g | 0 <= g < |groups| && (g, Emit) in t.done ensures Settled(groups, before, t, g) {
      if (g, Emit) in r.done { assert Settled(groups, before, r, g); }
    }
  }

  lemma NextKeepsFails(groups: seq<Group>, before: Board, r: Run, a: Action)
    requires SmoothInv(groups, before, r) && Allowed(groups, r, a) && Smooth(a)
    ensures OnlyEmittersFail(groups, before, Next(groups, r, a))
  {
    if a.EmitSignal? { EmitterPasses(groups, before, r, a.g); }
  }

  lemma NextKeepsStored(groups: seq<Group>, r: Run, a: Action)
    requires ResultsStored(groups, r) && Allowed(groups, r, a) && Smooth(a)
    ensures ResultsStored(groups, Next(groups, r, a)) && r.board.signals <= Next(groups, r, a).board.signals
  {
  }

  lemma NextEnds(groups: seq<Group>, r: Run, a: Action)
    requires Allowed(groups, r, a) && Smooth(a)
    ensures var t := Next(groups, r, a);
            && t.done + t.failed == r.done + r.failed + {(a.g, TaskOf(a))}
            && |t.done + t.failed| == |r.done + r.failed| + 1
  {
    assert Next(groups, r, a).done + Next(groups, r, a).failed == r.done + r.failed + {(a.g, TaskOf(a))};
  }

  lemma NextIsSmooth(groups: seq<Group>, before: Board, r: Run, a: Action)
    requires OneWriter(groups) && SmoothInv(groups, before, r) && Allowed(groups, r, a) && Smooth(a)
    ensures var t := Next(groups, r, a);
            SmoothInv(groups, before, t) && |t.done + t.failed| == |r.done + r.failed| + 1
  {
    NextEnds(groups, r, a);
    NextKeepsFails(groups, before, r, a);
    NextKeepsPending(groups, before, r, a);
    NextKeepsStored(groups, r, a);
    NextKeepsSettled(groups, before, r, a);
  }

  /** Every step ends one more task, so a schedule is no longer than there are tasks. */
  lemma {:induction false} SmoothRun(groups: seq<Group>, before: Board, r: Run, actions: seq<Action>)
    requires OneWriter(groups) && SmoothInv(groups, before, r) && Runs(groups, r, actions)
    requires forall a :: a in actions ==> Smooth(a)
    ensures var t := RunAll(groups, r, actions);
            SmoothInv(groups, before, t) && |r.done + r.failed| + |actions| == |t.done + t.failed| <= |AllTasks(groups)|
    decreases |actions|
  {
    if actions == [] {
      Subset(r.done + r.failed, AllTasks(groups));
    } else {
      assert actions[0] in actions && forall a :: a in actions[1..] ==> a in actions;
      NextIsSmooth(groups, before, r, actions[0]);
      SmoothRun(groups, before, Next(groups, r, actions[0]), actions[1..]);
    }
  }

  lemma {:induction false} Subset(a: set<TaskId>, b: set<TaskId>)
    requires a <= b
    ensures |a| <= |b|
    decreases |a|
  {
    if a != {} {
      var x :| x in a;
      Subset(a - {x}, b - {x});
    }
  }

  /** No task can succeed any more. */
  ghost predicate Stuck(groups: seq<Group>, r: Run) {
    forall a :: Smooth(a) ==> !Allowed(groups, r, a)
  }

  lemma PokeReady(groups: seq<Group>, r: Run, g: nat, s: string)
    requires g < |groups| && (g, Sensor(s)) !in r.failed && s in groups[g].sources
    requires (g, Sensor(s)) !in r.done && Node(s, groups[g].key) in r.board.signals
    ensures Allowed(groups, r, Poke(g, s))
  {
  }

  lemma LoadReady(groups: seq<Group>, r: Run, g: nat)
    requires g < |groups| && (g, RunSql) !in r.failed && groups[g].body.SqlBody? && Gated(groups, r, g)
    requires (g, RunSql) !in r.done
    ensures Allowed(groups, r, Load(g))
  {
  }

  lemma CheckReady(groups: seq<Group>, r: Run, g: nat, c: string)
    requires g < |groups| && (g, Dq(c)) !in r.failed && c in ChecksOf(groups[g])
    requires (g, RunSql) in r.done && (g, Dq(c)) !in r.done
    ensures Allowed(groups, r, CheckDq(g, c, 0))
  {
  }

  lemma EmitReady(groups: seq<Group>, r: Run, g: nat)
    requires g < |groups| && (g, Emit) !in r.failed && groups[g].body.SqlBody?
    requires (forall c :: c in ChecksOf(groups[g]) ==> (g, Dq(c)) in r.done) && (g, Emit) !in r.done
    ensures Allowed(groups, r, EmitSignal(g))
  {
  }

  /** No failing result of another check is left over for a table that is not signalled yet. */
  predicate Unblocked(groups: seq<Group>, before: Board) {
    forall g :: 0 <= g < |groups| ==> !LeftoverFailure(before, groups[g]) || NodeOfGroup(groups[g]) in before.signals
  }

  /** A group that is stuck without its signal waits for another one that is. */
  lemma StuckWaits(groups: seq<Group>, before: Board, r: Run, g: nat) returns (h: nat)
    requires AllSql(groups) && ExternalsSignalled(groups, before) && Unblocked(groups, before)
    requires SmoothInv(groups, before, r) && Stuck(groups, r)
    requires g < |groups| && NodeOfGroup(groups[g]) !in r.board.signals
    ensures Feeds(groups, g, h) && NodeOfGroup(groups[h]) !in r.board.signals
  {
    assert groups[g] in groups;
    assert !LeftoverFailure(before, groups[g]);
    forall t ensures (g, t) !in r.failed { assert !FailsOver(groups, before, (g, t)); }
    if (g, RunSql) !in r.done && Gated(groups, r, g) { LoadReady(groups, r, g); }
    if c :| c in ChecksOf(groups[g]) && (g, RunSql) in r.done && (g, Dq(c)) !in r.done { CheckReady(groups, r, g, c); }
    assert !Settled(groups, before, r, g);
    if forall c :: c in ChecksOf(groups[g]) ==> (g, Dq(c)) in r.done { EmitReady(groups, r, g); }
    assert !Gated(groups, r, g);
    var s :| s in groups[g].sources && (g, Sensor(s)) !in r.done;
    if Node(s, groups[g].key) in r.board.signals { PokeReady(groups, r, g, s); }
    h :| 0 <= h < |groups| && NodeOfGroup(groups[h]) == Node(s, groups[g].key);
  }

  lemma {:induction false} WaitChain(groups: seq<Group>, before: Board, r: Run, g: nat, n: nat) returns (c: seq<nat>)
    requires AllSql(groups) && ExternalsSignalled(groups, before) && Unblocked(groups, before)
    requires SmoothInv(groups, before, r) && Stuck(groups, r)
    requires g < |groups| && NodeOfGroup(groups[g]) !in r.board.signals
    ensures FeedChain(groups, c) && |c| == n + 1 && c[0] == g
    decreases n
  {
    if n == 0 {
      c := [g];
    } else {
      var h := StuckWaits(groups, before, r, g);
      var rest := WaitChain(groups, before, r, h, n - 1);
      c := [g] + rest;
      forall i | 0 <= i < |c| - 1 ensures Feeds(groups, c[i], c[i + 1]) {
        if i > 0 { assert Feeds(groups, rest[i - 1], rest[i]); }
      }
    }
  }

  /** A chain with more groups than there are goes round a cycle. */
  lemma LongChainCycles(groups: seq<Group>, c: seq<nat>)
    requires FeedChain(groups, c) && |c| > |groups|
    ensures !Acyclic(groups)
  {
    var pool := seq(|groups|, i requires 0 <= i < |groups| => i);
    forall x | x in c ensures x in pool { assert pool[x] == x; }
    var i, j := Pigeonhole(c, pool);
    var cycle := c[i..j + 1];
    forall k | 0 <= k < |cycle| - 1 ensures Feeds(groups, cycle[k], cycle[k + 1]) {
      assert Feeds(groups, c[i + k], c[i + k + 1]);
    }
    assert FeedChain(groups, cycle) && cycle[0] == cycle[|cycle| - 1];
  }

  predicate AllSmooth(actions: seq<Action>) {
    forall a :: a in actions ==> Smooth(a)
  }

  /** The run of these actions has signalled every table. */
  predicate AllSignalled(groups: seq<Group>, before: Board, actions: seq<Action>)
    requires Runs(groups, Start(before), actions)
  {
    forall g :: 0 <= g < |groups| ==> NodeOfGroup(groups[g]) in RunAll(groups, Start(before), actions).board.signals
  }

  /**
    With acyclic sources, external sources signalled, one SQL group per table and context and no failing
    result of another check left over where it matters, every schedule whose tasks succeed is finite, and
    one that cannot be continued has signalled every table. Failing results of a group's own checks, as an
    earlier attempt leaves them, are overwritten.
  */
  lemma EveryScheduleSignals(groups: seq<Group>, before: Board, actions: seq<Action>)
    requires OneWriter(groups) && AllSql(groups) && Acyclic(groups)
    requires ExternalsSignalled(groups, before) && Unblocked(groups, before)
    requires Runs(groups, Start(before), actions) && AllSmooth(actions)
    ensures |actions| <= |AllTasks(groups)|
    ensures Stuck(groups, RunAll(groups, Start(before), actions)) ==> AllSignalled(groups, before, actions)
  {
    StartIsSmooth(groups, before);
    SmoothRun(groups, before, Start(before), actions);
    var r := RunAll(groups, Start(before), actions);
    if Stuck(groups, r) {
      forall g | 0 <= g < |groups| ensures NodeOfGroup(groups[g]) in r.board.signals {
        if NodeOfGroup(groups[g]) !in r.board.signals {
          var c := WaitChain(groups, before, r, g, |groups|);
          LongChainCycles(groups, c);
        }
      }
    }
  }

  lemma StartIsSmooth(groups: seq<Group>, before: Board)
    ensures SmoothInv(groups, before, Start(before))
  {
    forall g, k | 0 <= g < |groups| && k in before.dq && k.node == NodeOfGroup(groups[g]) && !before.dq[k]
      ensures Pending(groups, before, Start(before), g, k)
    {
    }
  }

  // ---------- Left over failures block ----------

  lemma BlockedStep(groups: seq<Group>, before: Board, r: Run, a: Action, g: nat)
    requires OneWriter(groups) && AuditInv(groups, before, r) && Allowed(groups, r, a)
    requires g < |groups| && groups[g].body.SqlBody? && LeftoverFailure(before, groups[g])
    ensures NodeOfGroup(groups[g]) in Next(groups, r, a).board.signals ==> NodeOfGroup(groups[g]) in r.board.signals
  {
    if a.g == g && a.EmitSignal? {
      EmitterSeesAll(groups, before, r, g);
      FailuresMatch(groups, before, r, g);
    }
    assert a.g != g ==> NodeOfGroup(groups[a.g]) != NodeOfGroup(groups[g]);
  }

  /** Whatever its checks find now, a SQL group is never signalled over a failing result of a check it does not have. */
  lemma {:induction false} LeftoverBlocks(groups: seq<Group>, before: Board, r: Run, actions: seq<Action>, g: nat)
    requires OneWriter(groups) && AuditInv(groups, before, r) && Runs(groups, r, actions)
    requires g < |groups| && groups[g].body.SqlBody? && LeftoverFailure(before, groups[g])
    ensures NodeOfGroup(groups[g]) in RunAll(groups, r, actions).board.signals ==>
              NodeOfGroup(groups[g]) in r.board.signals
    decreases |actions|
  {
    if actions != [] {
      BlockedStep(groups, before, r, actions[0], g);
      NextKeepsAudit(groups, before, r, actions[0]);
      LeftoverBlocks(groups, before, Next(groups, r, actions[0]), actions[1..], g);
    }
  }

  /** There is a schedule that cannot be continued. */
  lemma {:induction false} FullSchedule(groups: seq<Group>, before: Board, r: Run) returns (actions: seq<Action>)
    requires OneWriter(groups) && SmoothInv(groups, before, r)
    ensures Runs(groups, r, actions) && AllSmooth(actions) && Stuck(groups, RunAll(groups, r, actions))
    decreases |AllTasks(groups)| - |r.done + r.failed|
  {
    if Stuck(groups, r) {
      actions := [];
    } else {
      var a :| Smooth(a) && Allowed(groups, r, a);
      var t := Next(groups, r, a);
      NextIsSmooth(groups, before, r, a);
      Subset(t.done + t.failed, AllTasks(groups));
      var rest := FullSchedule(groups, before, t);
      actions := [a] + rest;
      assert actions[1..] == rest;
    }
  }

  /** A schedule that runs and cannot be continued signals every table. */
  ghost predicate Delivers(groups: seq<Group>, before: Board, actions: seq<Action>) {
    Runs(groups, Start(before), actions) && AllSmooth(actions) &&
    Stuck(groups, RunAll(groups, Start(before), actions)) ==>
      AllSignalled(groups, before, actions)
  }

  /** Exactly when every full schedule signals every table. */
  lemma DeliversExactly(groups: seq<Group>, before: Board)
    requires OneWriter(groups) && AllSql(groups) && Acyclic(groups) && ExternalsSignalled(groups, before)
    ensures (forall actions :: Delivers(groups, before, actions)) <==> Unblocked(groups, before)
  {
    if Unblocked(groups, before) {
      forall actions | Runs(groups, Start(before), actions) && AllSmooth(actions)
        ensures Delivers(groups, before, actions)
      {
        EveryScheduleSignals(groups, before, actions);
      }
    } else {
      var g :| 0 <= g < |groups| && LeftoverFailure(before, groups[g]) && NodeOfGroup(groups[g]) !in before.signals;
      assert groups[g] in groups;
      StartIsSmooth(groups, before);
      var actions := FullSchedule(groups, before, Start(before));
      LeftoverBlocks(groups, before, Start(before), actions, g);
      assert !Delivers(groups, before, actions);
    }
  }
}
