/** What each call on a session does and how it ends, in terms of its arguments and of what was before. */
module SessionOutcomes {
  import opened Wrappers
  import opened Session
  import opened SessionSafety
  import opened FailedAudits

  /** The call numbers after k never ask the backend to publish. */
  ghost predicate NeverPublishedAfter(hasStore: bool, calls: seq<Call>, states: seq<Flags>, k: nat)
    requires k < |calls| && |states| == |calls| + 1
  {
    forall m, ok :: k < m < |calls| ==> Published(ok) !in Emits(hasStore, calls, states, m)
  }

  lemma RolledBackIsFinal(hasStore: bool, calls: seq<Call>, states: seq<Flags>, k: nat)
    requires IsRun(hasStore, calls, states) && k < |calls| && states[k + 1].rolledBack
    ensures forall m :: k < m <= |calls| ==> states[m].rolledBack
    ensures NeverPublishedAfter(hasStore, calls, states, k)
  {
    forall m | k < m <= |calls| ensures states[m].rolledBack { FlagsOnlyGoUp(hasStore, calls, states, k + 1, m); }
    forall m, ok | k < m < |calls| ensures Published(ok) !in Emits(hasStore, calls, states, m) {
      StepPublishes(hasStore, states[m], calls[m], ok);
    }
  }

  /**
    write() runs its function first and returns exactly when that does. If it raises, the backend is asked to
    roll back, and unless that raises in turn, the session stays rolled back and is never published again.
  */
  lemma WriteOutcome(hasStore: bool, calls: seq<Call>, states: seq<Flags>, k: nat)
    requires IsRun(hasStore, calls, states) && k < |calls| && calls[k].Write?
    ensures var c, e := calls[k], Step(hasStore, states[k], calls[k]);
            && e.events != [] && e.events[0] == Staged(c.fnOk)
            && (e.ending == Normal <==> c.fnOk)
            && (forall ok :: RolledBack(ok) in Emits(hasStore, calls, states, k) <==> !c.fnOk && ok == c.undoOk)
            && (!c.fnOk ==> e.ending == Raised(if c.undoOk then UserError else BackendError))
            && (!c.fnOk && c.undoOk ==>
                  (forall m :: k < m <= |calls| ==> states[m].rolledBack) &&
                  NeverPublishedAfter(hasStore, calls, states, k))
            && (c.fnOk || !c.undoOk ==> states[k + 1] == states[k])
  {
    assert Happens(hasStore, calls, states, k);
    if !calls[k].fnOk && calls[k].undoOk { RolledBackIsFinal(hasStore, calls, states, k); }
  }

  /**
    rollback() refuses a published session and does nothing to one rolled back; it asks the backend otherwise,
    and unless that raises, the session is never published again.
  */
  lemma RollbackOutcome(hasStore: bool, calls: seq<Call>, states: seq<Flags>, k: nat)
    requires IsRun(hasStore, calls, states) && k < |calls| && calls[k].Rollback?
    ensures var s, ok, e := states[k], calls[k].undoOk, Step(hasStore, states[k], calls[k]);
            && (e.ending == Raised(RuntimeError) <==> s.published)
            && (e.ending == Raised(BackendError) <==> !s.published && !s.rolledBack && !ok)
            && (e.ending == Normal <==> !s.published && (s.rolledBack || ok))
            && (RolledBack(ok) in e.events <==> !s.published && !s.rolledBack)
            && (RolledBack(ok) !in e.events || !ok ==> states[k + 1] == s)
            && (e.ending == Normal ==> NeverPublishedAfter(hasStore, calls, states, k))
  {
    assert Happens(hasStore, calls, states, k);
    if states[k + 1].rolledBack { RolledBackIsFinal(hasStore, calls, states, k); }
  }

  /** __exit__ and __del__ always return; they ask for a rollback of what is undecided, and bar its publishing. */
  lemma AbandonOutcome(hasStore: bool, calls: seq<Call>, states: seq<Flags>, k: nat)
    requires IsRun(hasStore, calls, states) && k < |calls| && (calls[k].Exit? || calls[k].Del?)
    ensures var s, e := states[k], Step(hasStore, states[k], calls[k]);
            && e.ending == Normal
            && (RolledBack(calls[k].undoOk) in e.events <==> !s.published && !s.rolledBack)
            && (!s.published ==> NeverPublishedAfter(hasStore, calls, states, k))
            && (s.published ==> e.events == [] && states[k + 1] == s)
  {
    assert Happens(hasStore, calls, states, k);
    if !states[k].published { RolledBackIsFinal(hasStore, calls, states, k); }
  }

  /** publish() refuses, without asking the backend, exactly what is rolled back or was never audited. */
  lemma PublishOutcome(hasStore: bool, s: Flags, ok: bool)
    ensures var e := Step(hasStore, s, Publish(ok));
            && (e.ending == Raised(RuntimeError) <==> s.rolledBack || !s.audited)
            && (e.ending == Raised(BackendError) <==> s.audited && !s.rolledBack && !s.published && !ok)
            && (e.ending == Normal <==> s.audited && !s.rolledBack && (s.published || ok))
            && (e.ending == Normal ==> e.flags.published)
            && (s.rolledBack || !s.audited || s.published ==> e.events == [] && e.flags == s)
  {
  }

  /** The checks run in order, each result as it was given, up to the first one that throws. */
  lemma {:induction false} RanMeans(checks: seq<CheckRun>)
    ensures var r := Ran(checks);
            && |r| <= |checks| && (forall i :: 0 <= i < |r| ==> checks[i] == Gave(r[i]))
            && (|r| == |checks| || checks[|r|].Threw?)
    decreases |checks|
  {
    if checks != [] && checks[0].Gave? { RanMeans(checks[1..]); }
  }

  /** The report of an audit whose checks all ran. */
  function ReportAfter(s: Flags, c: Call): seq<CheckResult>
    requires c.Audit?
  {
    s.results + Ran(c.checks)
  }

  /** When and how an audit ends. */
  lemma AuditOutcome(hasStore: bool, s: Flags, c: Call)
    requires c.Audit?
    ensures var ending, passed := Step(hasStore, s, c).ending, AllPassed(ReportAfter(s, c));
            var ran := RanAllChecks(hasStore, c);
            && (ending == Raised(ValueError) <==> c.onFailure != "stop" && c.onFailure != "continue")
            && (ending == Raised(CheckError) <==> StartsChecks(hasStore, c) && !NoneThrew(c.checks))
            && (ending == Raised(UserError) <==> ran && !passed && c.notify == Some(false))
            && (ending == Raised(AuditFailed) <==> ran && !passed && c.notify != Some(false) && c.onFailure == "stop")
            && (ending == Normal <==>
                  ran && if passed then hasStore ==> c.writeOk
                         else c.notify != Some(false) && c.onFailure == "continue")
  {
  }

  /** With a store the old signal is deleted before anything else, and once; without one nothing is. */
  lemma AuditDeletesFirst(hasStore: bool, s: Flags, c: Call)
    requires c.Audit?
    ensures var events, valid := Step(hasStore, s, c).events, c.onFailure == "stop" || c.onFailure == "continue";
            && (hasStore && valid ==> events != [] && events[0] == SignalDeleted(c.deleteOk))
            && (forall i :: 0 <= i < |events| && events[i].SignalDeleted? ==> hasStore && valid && i == 0)
  {
  }

  /** Which calls an audit makes over a failing report. */
  lemma AuditOverFailures(hasStore: bool, s: Flags, c: Call, ok: bool)
    requires c.Audit?
    ensures var events := Step(hasStore, s, c).events;
            var failed := RanAllChecks(hasStore, c) && !AllPassed(ReportAfter(s, c));
            && (Notified(ok) in events <==> failed && c.notify == Some(ok))
            && (RolledBack(ok) in events <==>
                  failed && c.notify != Some(false) && c.onFailure == "stop" && ok == c.undoOk)
  {
  }

  /** The callback is told before the rollback. */
  lemma AuditNotifiesFirst(hasStore: bool, s: Flags, c: Call, i: nat, j: nat)
    requires c.Audit? && i < |Step(hasStore, s, c).events| && j < |Step(hasStore, s, c).events|
    requires Step(hasStore, s, c).events[i].Notified? && Step(hasStore, s, c).events[j].RolledBack?
    ensures i < j
  {
  }

  /** An audit writes its signal exactly over a report that passed; it never stages and never publishes. */
  lemma AuditOverPasses(hasStore: bool, s: Flags, c: Call, ok: bool)
    requires c.Audit?
    ensures var events := Step(hasStore, s, c).events;
            var passed := RanAllChecks(hasStore, c) && AllPassed(ReportAfter(s, c));
            && (SignalWritten(ok) in events <==> hasStore && passed && ok == c.writeOk)
            && Staged(ok) !in events && Published(ok) !in events
  {
  }
}
