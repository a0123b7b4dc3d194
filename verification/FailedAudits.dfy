/**
  What becomes of a session whose report holds a failed result: docs/dq-checks.md promises that
  the staged version is rolled back and production stays untouched.
*/
module FailedAudits {
  import opened Wrappers
  import opened Session
  import opened SessionSafety

  /** An audit that gets as far as its checks. */
  predicate StartsChecks(hasStore: bool, c: Call) {
    c.Audit? && (c.onFailure == "stop" || c.onFailure == "continue") && (hasStore ==> c.deleteOk)
  }

  /**
    A stop audit that leaves a failing report asks for a rollback, and bars publishing, exactly when
    neither the delete of the old signal, nor a check, nor the callback raises.
  */
  lemma FailedStopAudit(hasStore: bool, s: Flags, c: Call)
    requires c.Audit? && c.onFailure == "stop" && !s.rolledBack
    requires !AllPassed(Step(hasStore, s, c).flags.results)
    ensures var e := Step(hasStore, s, c);
            var returned := (hasStore ==> c.deleteOk) && NoneThrew(c.checks) && c.notify != Some(false);
            && (e.flags.rolledBack <==> returned)
            && (returned <==> RolledBack(c.undoOk) in e.events)
  {
  }

  // ---------- Whole runs ----------

  /** A check of audit number i gave a failed result. */
  predicate FailsAt(hasStore: bool, calls: seq<Call>, i: nat)
    requires i < |calls|
  {
    StartsChecks(hasStore, calls[i]) && !AllPassed(Ran(calls[i].checks))
  }

  /** Audit number i left a failing report, and then went on by request, or a check or its callback raised. */
  predicate LeavesOpenAt(hasStore: bool, calls: seq<Call>, states: seq<Flags>, i: nat)
    requires i < |calls| && |states| == |calls| + 1
  {
    && StartsChecks(hasStore, calls[i]) && !AllPassed(states[i + 1].results)
    && (calls[i].onFailure == "continue" || !NoneThrew(calls[i].checks) ||
        Notified(false) in Emits(hasStore, calls, states, i))
  }

  lemma StepResults(hasStore: bool, s: Flags, c: Call)
    ensures Step(hasStore, s, c).flags.results == s.results + if StartsChecks(hasStore, c) then Ran(c.checks) else []
  {
  }

  lemma ConcatPasses(a: seq<CheckResult>, b: seq<CheckResult>)
    ensures AllPassed(a + b) <==> AllPassed(a) && AllPassed(b)
  {
    forall r ensures r in a + b <==> r in a || r in b {}
  }

  /** The report fails exactly when a check of some audit so far did. */
  lemma {:induction false} ReportFails(hasStore: bool, calls: seq<Call>, states: seq<Flags>, k: nat)
    requires IsRun(hasStore, calls, states) && k <= |calls|
    ensures !AllPassed(states[k].results) <==> exists i :: 0 <= i < k && FailsAt(hasStore, calls, i)
    decreases k
  {
    if k > 0 {
      ReportFails(hasStore, calls, states, k - 1);
      assert Happens(hasStore, calls, states, k - 1);
      var c := calls[k - 1];
      StepResults(hasStore, states[k - 1], c);
      ConcatPasses(states[k - 1].results, if StartsChecks(hasStore, c) then Ran(c.checks) else []);
      assert FailsAt(hasStore, calls, k - 1) <==> StartsChecks(hasStore, c) && !AllPassed(Ran(c.checks));
    }
  }

  /** A step that spoils the report and leaves the session open is one of the audits above. */
  lemma SpoilingStep(hasStore: bool, s: Flags, c: Call)
    requires AllPassed(s.results) && !s.rolledBack
    requires !AllPassed(Step(hasStore, s, c).flags.results) && !Step(hasStore, s, c).flags.rolledBack
    ensures StartsChecks(hasStore, c)
    ensures c.onFailure == "continue" || !NoneThrew(c.checks) || Notified(false) in Step(hasStore, s, c).events
  {
    StepResults(hasStore, s, c);
    if c.Audit? && c.onFailure == "stop" { FailedStopAudit(hasStore, s, c); }
  }

  /**
    A session that is not rolled back holds a failed result exactly when some audit before left a failing
    report and went on because it was told to, because a check raised, or because its callback did.
  */
  lemma {:induction false} OpenWithFailure(hasStore: bool, calls: seq<Call>, states: seq<Flags>, k: nat)
    requires IsRun(hasStore, calls, states) && k <= |calls| && !states[k].rolledBack
    ensures !AllPassed(states[k].results) <==> exists i :: 0 <= i < k && LeavesOpenAt(hasStore, calls, states, i)
    decreases k
  {
    if k > 0 {
      FlagsOnlyGoUp(hasStore, calls, states, k - 1, k);
      OpenWithFailure(hasStore, calls, states, k - 1);
      assert Happens(hasStore, calls, states, k - 1);
      if AllPassed(states[k - 1].results) && !AllPassed(states[k].results) {
        SpoilingStep(hasStore, states[k - 1], calls[k - 1]);
        assert LeavesOpenAt(hasStore, calls, states, k - 1);
      }
      if !AllPassed(states[k - 1].results) { FailureStays(states[k - 1].results, states[k].results); }
    }
  }

  /** Exactly when the backend is asked to publish a version with a failed result. */
  lemma PublishesFailure(hasStore: bool, calls: seq<Call>, states: seq<Flags>, k: nat, ok: bool)
    requires IsRun(hasStore, calls, states) && k < |calls|
    ensures Published(ok) in Emits(hasStore, calls, states, k) && !AllPassed(states[k].results) <==>
            && calls[k] == Publish(ok) && !states[k].rolledBack && !states[k].published
            && (exists j :: 0 <= j < k && RanAllChecks(hasStore, calls[j]))
            && (exists i :: 0 <= i < k && LeavesOpenAt(hasStore, calls, states, i))
  {
    StepPublishes(hasStore, states[k], calls[k], ok);
    AuditedMeans(hasStore, calls, states, k);
    if !states[k].rolledBack { OpenWithFailure(hasStore, calls, states, k); }
  }

  /** The version is published by call j, after an audit left it open with a failure or before an audit found one. */
  predicate PublishesBadAt(hasStore: bool, calls: seq<Call>, states: seq<Flags>, j: nat)
    requires j < |calls| && |states| == |calls| + 1
  {
    && PublishesAt(hasStore, calls, states, j)
    && ((exists i :: 0 <= i < j && LeavesOpenAt(hasStore, calls, states, i)) ||
        (exists i :: j < i < |calls| && FailsAt(hasStore, calls, i)))
  }

  lemma FailuresAround(hasStore: bool, calls: seq<Call>, states: seq<Flags>, j: nat)
    requires IsRun(hasStore, calls, states) && j < |calls| && PublishesAt(hasStore, calls, states, j)
    ensures !AllPassed(states[|calls|].results) <==> PublishesBadAt(hasStore, calls, states, j)
  {
    StepPublishes(hasStore, states[j], calls[j], true);
    OpenWithFailure(hasStore, calls, states, j);
    ReportFails(hasStore, calls, states, j);
    ReportFails(hasStore, calls, states, |calls|);
    if i :| 0 <= i < |calls| && FailsAt(hasStore, calls, i) { assert i < j || i == j || j < i; }
  }

  /** Exactly when a run ends with failed data in production. */
  lemma FailedDataPublished(hasStore: bool, calls: seq<Call>, states: seq<Flags>)
    requires IsRun(hasStore, calls, states)
    ensures states[|calls|].published && !AllPassed(states[|calls|].results) <==>
            exists j :: 0 <= j < |calls| && PublishesBadAt(hasStore, calls, states, j)
  {
    PublishedMeans(hasStore, calls, states, |calls|);
    forall j | 0 <= j < |calls| && PublishesAt(hasStore, calls, states, j)
      ensures !AllPassed(states[|calls|].results) <==> PublishesBadAt(hasStore, calls, states, j)
    {
      FailuresAround(hasStore, calls, states, j);
    }
  }

  // ---------- Runs that publish failed data although every audit was to stop ----------

  lemma FailedFirst(failed: CheckResult, rest: seq<CheckRun>)
    requires !failed.passed
    ensures !AllPassed(Ran([Gave(failed)] + rest))
  {
    assert ([Gave(failed)] + rest)[1..] == rest;
    assert Ran([Gave(failed)] + rest)[0] == failed;
  }

  /** A callback that raises. */
  lemma CallbackLeavesOpen() returns (calls: seq<Call>)
    ensures forall c :: c in calls && c.Audit? ==> c.onFailure == "stop"
    ensures var last := States(false, FRESH, calls)[|calls|];
            last.published && !AllPassed(last.results)
  {
    var failed := CheckResult("rows", false, "");
    calls := [Audit([Gave(failed)], "stop", Some(false), true, true, true), Publish(true)];
    EveryCallSequenceRuns(false, FRESH, calls);
    var states := States(false, FRESH, calls);
    FailedFirst(failed, []);
    assert [Gave(failed)] + [] == [Gave(failed)];
    assert FailsAt(false, calls, 0);
    ReportFails(false, calls, states, 2);
    assert Happens(false, calls, states, 0) && Happens(false, calls, states, 1);
  }

  /** A check that raises after another one failed, in a second audit. */
  lemma CheckLeavesOpen() returns (calls: seq<Call>)
    ensures forall c :: c in calls && c.Audit? ==> c.onFailure == "stop" && c.notify == None
    ensures var last := States(false, FRESH, calls)[|calls|];
            last.published && !AllPassed(last.results)
  {
    var good, failed := CheckResult("rows", true, ""), CheckResult("nulls", false, "");
    var second := [Gave(failed)] + [Threw];
    var first := [Gave(good)];
    var third := Publish(true);
    calls := [Audit(first, "stop", None, true, true, true), Audit(second, "stop", None, true, true, true), third];
    EveryCallSequenceRuns(false, FRESH, calls);
    var states := States(false, FRESH, calls);
    FailedFirst(failed, [Threw]);
    assert FailsAt(false, calls, 1);
    ReportFails(false, calls, states, 3);
    assert Ran([Gave(good)]) == [good] + Ran([]);
    assert second[1] == Threw && Threw in second;
    assert Happens(false, calls, states, 0) && Happens(false, calls, states, 1) && Happens(false, calls, states, 2);
  }
}
