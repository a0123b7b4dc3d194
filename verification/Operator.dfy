/** TollkeeperOperator.execute: one session around a redirected operator, whatever raises on the way. */
module Operator {
  import opened Wrappers
  import opened Session

  /** What the operator finds around it; ...Ok says that the call, if made, returns. */
  datatype Env = Env(
    hasStrategy: bool, engineOk: bool, createOk: bool, hasStore: bool,
    redirectOk: bool, runOk: bool, restoreOk: bool,
    checks: seq<CheckRun>, onFailure: string, deleteOk: bool, auditUndoOk: bool, writeOk: bool,
    publishOk: bool, exitUndoOk: bool, pushOk: bool)

  /** The calls to the strategy, to the wrapped operator and to XCom. */
  datatype Act = Redirect(ok: bool) | Run(ok: bool) | Restore(ok: bool) | Push(ok: bool)

  datatype Failure = TypeError | EngineError | BodyError | PushError

  function Rollbacks(events: seq<Event>): nat {
    multiset(events)[RolledBack(true)] + multiset(events)[RolledBack(false)]
  }

  function Restores(acts: seq<Act>): nat {
    multiset(acts)[Restore(true)] + multiset(acts)[Restore(false)]
  }

  /** The audit of the operator, which passes no on_notify callback. */
  function AuditCall(env: Env): Call {
    Audit(env.checks, env.onFailure, None, env.deleteOk, env.auditUndoOk, env.writeOk)
  }

  /** The wrapped operator was redirected, ran and was restored. */
  predicate HasRun(env: Env) {
    env.redirectOk && env.runOk && env.restoreOk
  }

  /** The audit of what the operator wrote returns. */
  predicate AuditReturns(env: Env) {
    && (env.onFailure == "stop" || env.onFailure == "continue")
    && (env.hasStore ==> env.deleteOk) && NoneThrew(env.checks)
    && if AllPassed(Ran(env.checks)) then env.hasStore ==> env.writeOk else env.onFailure == "continue"
  }

  /** No call that the operator makes inside its session raises. */
  predicate BodyReturns(env: Env) {
    HasRun(env) && AuditReturns(env) && env.publishOk
  }

  /** What the with block does to a fresh session, before its exit. */
  function BodyEffect(env: Env): Effect {
    if !env.redirectOk || !env.runOk || !env.restoreOk then Effect(FRESH, [], Raised(UserError))
    else
      var a := Step(env.hasStore, FRESH, AuditCall(env));
      if a.ending != Normal then a
      else
        var p := Step(env.hasStore, a.flags, Publish(env.publishOk));
        Effect(p.flags, a.events + p.events, p.ending)
  }

  /** The whole session, exit included. */
  function SessionEffect(env: Env): Effect {
    var b := BodyEffect(env);
    var e := Step(env.hasStore, b.flags, Exit(env.exitUndoOk));
    Effect(e.flags, b.events + e.events, b.ending)
  }

  function BodyActs(env: Env): seq<Act> {
    if env.redirectOk then [Redirect(true), Run(env.runOk), Restore(env.restoreOk)] else [Redirect(false)]
  }

  /** The whole list of acts; the ref is pushed only after a body that returned. */
  function Acts(env: Env): seq<Act> {
    if BodyReturns(env) then BodyActs(env) + [Push(env.pushOk)] else BodyActs(env)
  }

  lemma RestoredOnce(env: Env)
    ensures Restores(Acts(env)) == if env.redirectOk then 1 else 0
  {
  }

  /** The one run of the wrapped operator: nothing but a redirect that returned comes before it. */
  predicate RunsAt(acts: seq<Act>, i: nat) {
    && 0 < i < |acts| && acts[i].Run?
    && (forall j :: 0 <= j < i ==> acts[j] == Redirect(true))
    && (forall j :: 0 <= j < |acts| && acts[j].Run? ==> j == i)
  }

  /** The operator runs redirected, is restored after that, and the ref is pushed after that. */
  ghost predicate InOrder(acts: seq<Act>) {
    && (forall i :: 0 <= i < |acts| && acts[i].Redirect? ==> i == 0)
    && (forall i :: 0 <= i < |acts| && (acts[i].Run? || acts[i].Restore? || acts[i].Push?) ==>
          exists k: nat :: k <= i && RunsAt(acts, k))
    && (forall i, j :: 0 <= i < |acts| && 0 <= j < |acts| && acts[i].Restore? && acts[j].Push? ==> i < j)
    && (forall i, j :: 0 <= i < |acts| && 0 <= j < |acts| && acts[i].Run? && acts[j].Restore? ==> i < j)
  }

  /** Which acts there are, and with what success; published says what became of the version. */
  ghost predicate ActsOf(env: Env, acts: seq<Act>, published: bool) {
    && (forall ok :: Redirect(ok) in acts <==> ok == env.redirectOk)
    && (forall ok :: Run(ok) in acts <==> env.redirectOk && ok == env.runOk)
    && (forall ok :: Restore(ok) in acts <==> env.redirectOk && ok == env.restoreOk)
    && (forall ok :: Push(ok) in acts <==> published && ok == env.pushOk)
  }

  lemma BodyActsOrdered(env: Env)
    ensures InOrder(BodyActs(env)) && ActsOf(env, BodyActs(env), false)
  {
    if env.redirectOk { assert RunsAt(BodyActs(env), 1); }
  }

  lemma ActsOrdered(env: Env)
    ensures InOrder(Acts(env)) && ActsOf(env, Acts(env), BodyReturns(env))
  {
    BodyActsOrdered(env);
    if env.redirectOk { assert RunsAt(Acts(env), 1); }
  }

  /** The operator passes no callback to its audit. */
  lemma NobodyIsNotified(env: Env, ok: bool)
    ensures Notified(ok) !in SessionEffect(env).events
  {
  }

  /** Unless the wrapped operator was redirected, ran and was restored, the session does nothing but roll back. */
  lemma AuditWaitsForRun(env: Env)
    requires !HasRun(env)
    ensures SessionEffect(env).events == [RolledBack(env.exitUndoOk)]
  {
  }

  /** An audit of a fresh session without a callback: what it leaves for publish. */
  lemma AuditCounts(hasStore: bool, c: Call)
    requires c.Audit? && c.notify == None
    ensures var e := Step(hasStore, FRESH, c);
            && multiset(e.events)[Published(true)] == 0 && !e.flags.published
            && Rollbacks(e.events) == (if e.flags.rolledBack then 1 else 0)
            && (e.ending == Normal ==> e.flags.audited && !e.flags.rolledBack)
  {
  }

  /** The operator's audit returns as its checks and the store say. */
  lemma AuditEnds(env: Env)
    ensures Step(env.hasStore, FRESH, AuditCall(env)).ending == Normal <==> AuditReturns(env)
  {
    assert [] + Ran(env.checks) == Ran(env.checks);
  }

  lemma CountsAdd(a: seq<Event>, b: seq<Event>)
    ensures Rollbacks(a + b) == Rollbacks(a) + Rollbacks(b)
    ensures multiset(a + b)[Published(true)] == multiset(a)[Published(true)] + multiset(b)[Published(true)]
  {
  }

  lemma BodyCounts(env: Env)
    ensures var b := BodyEffect(env);
            && (b.ending == Normal <==> BodyReturns(env)) && (b.flags.published <==> BodyReturns(env))
            && multiset(b.events)[Published(true)] == (if b.flags.published then 1 else 0)
            && Rollbacks(b.events) == (if b.flags.rolledBack then 1 else 0)
            && !(b.flags.published && b.flags.rolledBack)
  {
    if env.redirectOk && env.runOk && env.restoreOk {
      var a := Step(env.hasStore, FRESH, AuditCall(env));
      AuditCounts(env.hasStore, AuditCall(env));
      AuditEnds(env);
      if a.ending == Normal {
        CountsAdd(a.events, Step(env.hasStore, a.flags, Publish(env.publishOk)).events);
      }
    }
  }

  /**
    For every pattern of exceptions a version ends either published or rolled back; it is
    published at most once and a rollback is attempted once, exactly when it was not published.
  */
  lemma SessionDecided(env: Env)
    ensures var e := SessionEffect(env);
            && (e.flags.published <==> BodyReturns(env)) && (e.flags.rolledBack <==> !e.flags.published)
            && (e.ending == Normal <==> BodyReturns(env))
            && multiset(e.events)[Published(true)] == (if e.flags.published then 1 else 0)
            && Rollbacks(e.events) == (if e.flags.rolledBack then 1 else 0)
  {
    var b := BodyEffect(env);
    BodyCounts(env);
    CountsAdd(b.events, Step(env.hasStore, b.flags, Exit(env.exitUndoOk)).events);
  }

  /** An audit without a callback that wrote its signal returned. */
  lemma SignalReturns(hasStore: bool, c: Call)
    requires c.Audit? && SignalWritten(true) in Step(hasStore, FRESH, c).events
    ensures Step(hasStore, FRESH, c).ending == Normal
  {
  }

  /** The operator signals before it publishes: the version is published exactly when the backend takes it. */
  lemma SignalledIsPublished(env: Env)
    requires SignalWritten(true) in SessionEffect(env).events
    ensures SessionEffect(env).flags.published <==> env.publishOk
    ensures SessionEffect(env).flags.rolledBack <==> !env.publishOk
  {
    SessionDecided(env);
    if env.redirectOk && env.runOk && env.restoreOk {
      var a := Step(env.hasStore, FRESH, AuditCall(env));
      var b := BodyEffect(env);
      assert SignalWritten(true) in b.events;
      if SignalWritten(true) in a.events { SignalReturns(env.hasStore, AuditCall(env)); }
    }
  }

  /** session is what became of the version, once there is one; ref is the version's name. */
  method Execute(env: Env, ref: string)
      returns (outcome: Result<string, Failure>, session: Option<Flags>, ghost log: seq<Event>, ghost acts: seq<Act>)
    // a version is created unless something raises before; from then on it is either published or rolled back
    ensures session.Some? <==> env.hasStrategy && env.engineOk && env.createOk
    ensures session.Some? ==> (session.value.published <==> BodyReturns(env))
    ensures session.Some? ==> (session.value.rolledBack <==> !session.value.published)
    ensures session.Some? ==> log == SessionEffect(env).events
    // the operator is restored once if it was redirected, and it ran only in between
    ensures session.Some? ==> acts == Acts(env) && Restores(acts) == if env.redirectOk then 1 else 0
    ensures session.Some? ==> InOrder(acts) && ActsOf(env, acts, session.value.published)
    ensures session.Some? && !HasRun(env) ==> log == [RolledBack(env.exitUndoOk)]
    ensures session.None? ==> log == [] && acts == []
    // a ref is returned only for a published version
    ensures outcome.Ok? <==> session.Some? && session.value.published && env.pushOk
    ensures outcome.Ok? ==> outcome.value == ref
  {
    log, acts := [], [];
    if !env.hasStrategy {
      return Err(TypeError), None, log, acts;
    }
    if !env.engineOk || !env.createOk {
      return Err(EngineError), None, log, acts;
    }
    SessionDecided(env);
    RestoredOnce(env);
    ActsOrdered(env);
    if !HasRun(env) { AuditWaitsForRun(env); }
    var s := new TollkeeperSession(env.hasStore);
    var ok;
    ok, acts := Body(env, s);
    s.Exit(env.exitUndoOk);
    log, session := s.log, Some(Flags(s.published, s.rolledBack, s.audited, s.results));
    if !ok {
      return Err(BodyError), session, log, acts;
    }
    acts := acts + [Push(env.pushOk)];
    if !env.pushOk {
      return Err(PushError), session, log, acts;
    }
    return Ok(ref), session, log, acts;
  }

  /** The with block: redirect, run, restore in a finally clause, audit, publish. */
  method Body(env: Env, s: TollkeeperSession) returns (ok: bool, ghost acts: seq<Act>)
    requires s.State() == FRESH && s.log == [] && s.hasStore == env.hasStore
    modifies s
    ensures s.State() == BodyEffect(env).flags && s.log == BodyEffect(env).events
    ensures ok <==> BodyEffect(env).ending == Normal
    ensures acts == BodyActs(env) && InOrder(acts) && ActsOf(env, acts, false)
  {
    BodyActsOrdered(env);
    acts := [Redirect(env.redirectOk)];
    if !env.redirectOk {
      return false, acts;
    }
    acts := [Redirect(true), Run(env.runOk), Restore(env.restoreOk)];
    if !env.runOk || !env.restoreOk {
      return false, acts;
    }
    var ending := s.Audit(env.checks, env.onFailure, None, env.deleteOk, env.auditUndoOk, env.writeOk);
    if ending != Normal {
      return false, acts;
    }
    ending := s.Publish(env.publishOk);
    return ending == Normal, acts;
  }
}
