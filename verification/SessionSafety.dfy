/** What holds of a session over every sequence of calls, whatever raises. */
module SessionSafety {
  import opened Wrappers
  import opened Session

  /** Call number k takes the session from one state to the next. */
  predicate Happens(hasStore: bool, calls: seq<Call>, states: seq<Flags>, k: nat)
    requires k < |calls| && |states| == |calls| + 1
  {
    states[k + 1] == Step(hasStore, states[k], calls[k]).flags
  }

  /** states are the flags of a new session before, between and after the calls. */
  ghost predicate IsRun(hasStore: bool, calls: seq<Call>, states: seq<Flags>) {
    && |states| == |calls| + 1 && states[0] == FRESH
    && forall k :: 0 <= k < |calls| ==> Happens(hasStore, calls, states, k)
  }

  function States(hasStore: bool, s: Flags, calls: seq<Call>): (states: seq<Flags>)
    ensures |states| == |calls| + 1
    decreases |calls|
  {
    if calls == [] then [s] else [s] + States(hasStore, Step(hasStore, s, calls[0]).flags, calls[1..])
  }

  /** Every sequence of calls is a run, of exactly one sequence of states. */
  lemma {:induction false} EveryCallSequenceRuns(hasStore: bool, s: Flags, calls: seq<Call>)
    ensures var states := States(hasStore, s, calls);
            states[0] == s && forall k :: 0 <= k < |calls| ==> Happens(hasStore, calls, states, k)
    decreases |calls|
  {
    if calls != [] {
      var next := Step(hasStore, s, calls[0]).flags;
      EveryCallSequenceRuns(hasStore, next, calls[1..]);
      var states, rest := States(hasStore, s, calls), States(hasStore, next, calls[1..]);
      forall k | 0 <= k < |calls| ensures Happens(hasStore, calls, states, k) {
        if k > 0 { assert Happens(hasStore, calls[1..], rest, k - 1); }
      }
    }
  }

  /** The external calls that call number k makes. */
  function Emits(hasStore: bool, calls: seq<Call>, states: seq<Flags>, k: nat): seq<Event>
    requires k < |calls| && |states| == |calls| + 1
  {
    Step(hasStore, states[k], calls[k]).events
  }

  /** An audit call whose checks all ran to a result. */
  predicate RanAllChecks(hasStore: bool, c: Call) {
    c.Audit? && (c.onFailure == "stop" || c.onFailure == "continue") && (hasStore ==> c.deleteOk) && NoneThrew(c.checks)
  }

  /** The backend published the staged version in call number k. */
  predicate PublishesAt(hasStore: bool, calls: seq<Call>, states: seq<Flags>, k: nat)
    requires k < |calls| && |states| == |calls| + 1
  {
    Published(true) in Emits(hasStore, calls, states, k)
  }

  /** Call number k is a write that raised and was undone, or an audit that asked for a rollback. */
  predicate UndoneAt(hasStore: bool, calls: seq<Call>, states: seq<Flags>, k: nat)
    requires k < |calls| && |states| == |calls| + 1
  {
    || (calls[k].Write? && RolledBack(true) in Emits(hasStore, calls, states, k))
    || (calls[k].Audit? && exists ok :: RolledBack(ok) in Emits(hasStore, calls, states, k))
  }

  predicate GrowsTo(s: Flags, t: Flags) {
    && (s.published ==> t.published) && (s.rolledBack ==> t.rolledBack) && (s.audited ==> t.audited)
    && s.results <= t.results
  }

  /** Flags only go up, and the report only grows. */
  lemma {:induction false} FlagsOnlyGoUp(hasStore: bool, calls: seq<Call>, states: seq<Flags>, j: nat, k: nat)
    requires IsRun(hasStore, calls, states) && j <= k <= |calls|
    ensures GrowsTo(states[j], states[k])
    decreases k - j
  {
    if j < k {
      FlagsOnlyGoUp(hasStore, calls, states, j, k - 1);
      assert Happens(hasStore, calls, states, k - 1);
    }
  }

  /** The audited flag is the history of the audits. */
  lemma {:induction false} AuditedMeans(hasStore: bool, calls: seq<Call>, states: seq<Flags>, k: nat)
    requires IsRun(hasStore, calls, states) && k <= |calls|
    ensures states[k].audited <==> exists j :: 0 <= j < k && RanAllChecks(hasStore, calls[j])
    decreases k
  {
    if k > 0 {
      AuditedMeans(hasStore, calls, states, k - 1);
      assert Happens(hasStore, calls, states, k - 1);
    }
  }

  /**
    The backend is asked to publish only after some audit ran all its checks, and neither when
    the session is rolled back nor when it is published already.
  */
  lemma PublishIsGuarded(hasStore: bool, calls: seq<Call>, states: seq<Flags>, k: nat, ok: bool)
    requires IsRun(hasStore, calls, states) && k < |calls| && Published(ok) in Emits(hasStore, calls, states, k)
    ensures calls[k] == Publish(ok) && !states[k].rolledBack && !states[k].published
    ensures exists j :: 0 <= j < k && RanAllChecks(hasStore, calls[j])
  {
    StepPublishes(hasStore, states[k], calls[k], ok);
    AuditedMeans(hasStore, calls, states, k);
  }

  lemma AuditNeverPublishes(hasStore: bool, s: Flags, c: Call, ok: bool)
    requires c.Audit?
    ensures Published(ok) !in AuditEffect(hasStore, s, c).events
    ensures AuditEffect(hasStore, s, c).flags.published == s.published
  {
  }

  lemma StepPublishes(hasStore: bool, s: Flags, c: Call, ok: bool)
    ensures Published(ok) in Step(hasStore, s, c).events <==>
            c == Publish(ok) && s.audited && !s.rolledBack && !s.published
    ensures Step(hasStore, s, c).flags.published <==> s.published || Published(true) in Step(hasStore, s, c).events
  {
    if c.Audit? {
      AuditNeverPublishes(hasStore, s, c, ok);
      AuditNeverPublishes(hasStore, s, c, true);
    }
  }

  /** The published flag is the history of the publishes. */
  lemma {:induction false} PublishedMeans(hasStore: bool, calls: seq<Call>, states: seq<Flags>, k: nat)
    requires IsRun(hasStore, calls, states) && k <= |calls|
    ensures states[k].published <==> exists j :: 0 <= j < k && PublishesAt(hasStore, calls, states, j)
    decreases k
  {
    if k > 0 {
      PublishedMeans(hasStore, calls, states, k - 1);
      assert Happens(hasStore, calls, states, k - 1);
      StepPublishes(hasStore, states[k - 1], calls[k - 1], true);
      assert PublishesAt(hasStore, calls, states, k - 1) <==>
             Published(true) in Step(hasStore, states[k - 1], calls[k - 1]).events;
    }
  }

  /** Once the backend has published a session it is never asked again. */
  lemma PublishesOnce(hasStore: bool, calls: seq<Call>, states: seq<Flags>, i: nat, j: nat, ok: bool)
    requires IsRun(hasStore, calls, states) && i < j < |calls| && PublishesAt(hasStore, calls, states, i)
    ensures Published(ok) !in Emits(hasStore, calls, states, j)
  {
    PublishedMeans(hasStore, calls, states, j);
    StepPublishes(hasStore, states[j], calls[j], ok);
  }

  lemma {:induction false} RolledBackAfterPublish(hasStore: bool, calls: seq<Call>, states: seq<Flags>, k: nat)
    requires IsRun(hasStore, calls, states) && k <= |calls|
    ensures states[k].published && states[k].rolledBack <==>
            exists j :: 0 <= j < k && states[j].published && UndoneAt(hasStore, calls, states, j)
    decreases k
  {
    if k > 0 {
      RolledBackAfterPublish(hasStore, calls, states, k - 1);
      assert Happens(hasStore, calls, states, k - 1);
      BothFlagsStep(hasStore, states[k - 1], calls[k - 1]);
      assert UndoneAt(hasStore, calls, states, k - 1) <==> StepIsUndo(hasStore, states[k - 1], calls[k - 1]);
    }
  }

  lemma BothFlagsStep(hasStore: bool, s: Flags, c: Call)
    ensures var t := Step(hasStore, s, c).flags;
            t.published && t.rolledBack <==> s.published && (s.rolledBack || StepIsUndo(hasStore, s, c))
  {
    StepUndoes(hasStore, s, c);
    StepPublishes(hasStore, s, c, true);
  }

  /**
    A session is both published and rolled back exactly when, after a publish that succeeded, a
    write raised and was undone or an audit with on_failure "stop" failed.
  */
  lemma BothFlags(hasStore: bool, calls: seq<Call>, states: seq<Flags>)
    requires IsRun(hasStore, calls, states)
    ensures states[|calls|].published && states[|calls|].rolledBack <==>
            exists i, j :: 0 <= i < j < |calls| && PublishesAt(hasStore, calls, states, i) &&
              UndoneAt(hasStore, calls, states, j)
  {
    RolledBackAfterPublish(hasStore, calls, states, |calls|);
    forall j | 0 <= j < |calls|
      ensures states[j].published <==> exists i :: 0 <= i < j && PublishesAt(hasStore, calls, states, i)
    {
      PublishedMeans(hasStore, calls, states, j);
    }
  }

  predicate StepIsUndo(hasStore: bool, s: Flags, c: Call) {
    var events := Step(hasStore, s, c).events;
    (c.Write? && RolledBack(true) in events) || (c.Audit? && exists ok :: RolledBack(ok) in events)
  }

  lemma StepUndoes(hasStore: bool, s: Flags, c: Call)
    ensures StepIsUndo(hasStore, s, c) ==> Step(hasStore, s, c).flags.rolledBack
    ensures s.published && !s.rolledBack && Step(hasStore, s, c).flags.rolledBack ==> StepIsUndo(hasStore, s, c)
  {
  }

  /** Call number k rolls back, or tries to without telling the caller that it failed. */
  predicate RollsBackAt(hasStore: bool, calls: seq<Call>, states: seq<Flags>, k: nat)
    requires k < |calls| && |states| == |calls| + 1
  {
    var events := Emits(hasStore, calls, states, k);
    RolledBack(true) in events || (RolledBack(false) in events && !calls[k].Write? && !calls[k].Rollback?)
  }

  /** The rolled-back flag is the history of the rollbacks. */
  lemma {:induction false} RolledBackMeans(hasStore: bool, calls: seq<Call>, states: seq<Flags>, k: nat)
    requires IsRun(hasStore, calls, states) && k <= |calls|
    ensures states[k].rolledBack <==> exists j :: 0 <= j < k && RollsBackAt(hasStore, calls, states, j)
    decreases k
  {
    if k > 0 {
      RolledBackMeans(hasStore, calls, states, k - 1);
      assert Happens(hasStore, calls, states, k - 1);
      StepRollsBack(hasStore, states[k - 1], calls[k - 1]);
      assert RollsBackAt(hasStore, calls, states, k - 1) <==>
             StepRolls(Step(hasStore, states[k - 1], calls[k - 1]).events, calls[k - 1]);
    }
  }

  predicate StepRolls(events: seq<Event>, c: Call) {
    RolledBack(true) in events || (RolledBack(false) in events && !c.Write? && !c.Rollback?)
  }

  lemma StepRollsBack(hasStore: bool, s: Flags, c: Call)
    ensures var e := Step(hasStore, s, c); e.flags.rolledBack <==> s.rolledBack || StepRolls(e.events, c)
  {
  }

  /**
    A published version is rolled back only by a write that raises and by a stop audit that fails:
    rollback(), __exit__ and __del__ leave it alone.
  */
  lemma PublishedIsNotAbandoned(hasStore: bool, calls: seq<Call>, states: seq<Flags>, j: nat, k: nat, ok: bool)
    requires IsRun(hasStore, calls, states) && j < k < |calls| && PublishesAt(hasStore, calls, states, j)
    requires RolledBack(ok) in Emits(hasStore, calls, states, k)
    ensures (calls[k].Write? && !calls[k].fnOk) ||
            (calls[k].Audit? && calls[k].onFailure == "stop" && !AllPassed(states[k + 1].results))
  {
    PublishedMeans(hasStore, calls, states, k);
    assert Happens(hasStore, calls, states, k);
  }

  /** After __exit__ or __del__ a session is decided, even if the backend raised. */
  lemma ExitDecides(hasStore: bool, calls: seq<Call>, states: seq<Flags>, k: nat, m: nat)
    requires IsRun(hasStore, calls, states) && k < m <= |calls| && (calls[k].Exit? || calls[k].Del?)
    ensures states[m].published || states[m].rolledBack
  {
    assert Happens(hasStore, calls, states, k);
    FlagsOnlyGoUp(hasStore, calls, states, k + 1, m);
  }

  /** A signal is only written by an audit whose session has nothing but passed results. */
  lemma SignalMeansPassed(hasStore: bool, s: Flags, c: Call, ok: bool)
    requires SignalWritten(ok) in Step(hasStore, s, c).events
    ensures RanAllChecks(hasStore, c) && AllPassed(Step(hasStore, s, c).flags.results)
    ensures forall run :: run in c.checks ==> run.result.passed
  {
    RanAll(c.checks);
    forall r | r in Ran(c.checks) ensures r.passed { assert r in s.results + Ran(c.checks); }
  }

  lemma {:induction false} RanAll(checks: seq<CheckRun>)
    requires NoneThrew(checks)
    ensures forall c :: c in checks ==> c.result in Ran(checks)
    decreases |checks|
  {
    if checks != [] {
      assert checks == [checks[0]] + checks[1..];
      assert checks[0] in checks;
      RanAll(checks[1..]);
    }
  }

  lemma FailureStays(a: seq<CheckResult>, b: seq<CheckResult>)
    requires a <= b && !AllPassed(a)
    ensures !AllPassed(b)
  {
  }

  /** Once any result has failed, the session never writes a signal again. */
  lemma FailureIsFinal(hasStore: bool, calls: seq<Call>, states: seq<Flags>, j: nat, k: nat, ok: bool)
    requires IsRun(hasStore, calls, states) && j <= k < |calls| && !AllPassed(states[j].results)
    ensures SignalWritten(ok) !in Emits(hasStore, calls, states, k)
  {
    FlagsOnlyGoUp(hasStore, calls, states, j, k + 1);
    assert Happens(hasStore, calls, states, k);
    FailureStays(states[j].results, states[k + 1].results);
    if SignalWritten(ok) in Emits(hasStore, calls, states, k) {
      SignalMeansPassed(hasStore, states[k], calls[k], ok);
    }
  }

  /** A signal does not mean that its version was published: the audit writes it first. */
  lemma SignalBeforePublish() returns (calls: seq<Call>)
    ensures |calls| == 3 && SignalWritten(true) in Emits(true, calls, States(true, FRESH, calls), 0)
    ensures !States(true, FRESH, calls)[3].published && States(true, FRESH, calls)[3].rolledBack
  {
    calls := [Audit([], "stop", None, true, true, true), Publish(false), Exit(true)];
    EveryCallSequenceRuns(true, FRESH, calls);
    var states := States(true, FRESH, calls);
    assert Happens(true, calls, states, 0) && Happens(true, calls, states, 1) && Happens(true, calls, states, 2);
  }

  /** A publish call that gets through to a backend which takes it. */
  predicate GoodPublish(calls: seq<Call>, states: seq<Flags>, j: nat)
    requires j < |calls| && |states| == |calls| + 1
  {
    calls[j] == Publish(true) && states[j].audited && !states[j].rolledBack && !states[j].published
  }

  lemma GoodPublishIs(hasStore: bool, calls: seq<Call>, states: seq<Flags>, j: nat)
    requires j < |calls| && |states| == |calls| + 1
    ensures PublishesAt(hasStore, calls, states, j) <==> GoodPublish(calls, states, j)
  {
    StepPublishes(hasStore, states[j], calls[j], true);
  }

  /**
    Exactly when a signal's version is published: some publish call succeeds, and if none has before
    the signal, exactly when a later one meets a backend that takes it and a session not rolled back.
  */
  lemma SignalledIsPublished(hasStore: bool, calls: seq<Call>, states: seq<Flags>, k: nat)
    requires IsRun(hasStore, calls, states) && k < |calls| && SignalWritten(true) in Emits(hasStore, calls, states, k)
    ensures states[|calls|].published <==> exists j :: 0 <= j < |calls| && GoodPublish(calls, states, j)
    ensures states[|calls|].published <==>
            states[k].published || exists j :: k < j < |calls| && calls[j] == Publish(true) && !states[j].rolledBack
  {
    var n := |calls|;
    PublishedMeans(hasStore, calls, states, n);
    PublishedMeans(hasStore, calls, states, k);
    forall j | 0 <= j < n ensures PublishesAt(hasStore, calls, states, j) <==> GoodPublish(calls, states, j) {
      GoodPublishIs(hasStore, calls, states, j);
    }
    assert Happens(hasStore, calls, states, k);
    SignalMeansPassed(hasStore, states[k], calls[k], true);
    forall j | k < j < n && calls[j] == Publish(true) && !states[j].rolledBack ensures states[n].published {
      FlagsOnlyGoUp(hasStore, calls, states, k + 1, j);
      assert Happens(hasStore, calls, states, j);
      FlagsOnlyGoUp(hasStore, calls, states, j + 1, n);
    }
  }
}
