/**
  The write-audit-publish session: three flags, the accumulated report, and the calls it makes
  to the backend, the signal store and the caller's functions. Any of those calls may raise;
  the arguments of a step say which ones do.
*/
module Session {
  import opened Wrappers

  datatype CheckResult = CheckResult(name: string, passed: bool, details: string)

  /** What one check.run does. */
  datatype CheckRun = Gave(result: CheckResult) | Threw

  /** The calls a session makes, with their success. */
  datatype Event =
    | Staged(ok: bool)
    | Published(ok: bool)
    | RolledBack(ok: bool)
    | Notified(ok: bool)
    | SignalDeleted(ok: bool)
    | SignalWritten(ok: bool)

  datatype Exception = UserError | BackendError | StoreError | CheckError | ValueError | RuntimeError | AuditFailed

  datatype Ending = Normal | Raised(e: Exception)

  datatype Flags = Flags(published: bool, rolledBack: bool, audited: bool, results: seq<CheckResult>)

  const FRESH := Flags(false, false, false, [])

  /** A method call on a session; each ...Ok says that the external call it makes, if made, returns. */
  datatype Call =
    | Write(fnOk: bool, undoOk: bool)
    | Audit(checks: seq<CheckRun>, onFailure: string, notify: Option<bool>, deleteOk: bool, undoOk: bool, writeOk: bool)
    | Publish(publishOk: bool)
    | Rollback(undoOk: bool)
    | Exit(undoOk: bool)
    | Del(undoOk: bool)

  datatype Effect = Effect(flags: Flags, events: seq<Event>, ending: Ending)

  predicate AllPassed(results: seq<CheckResult>) {
    forall r :: r in results ==> r.passed
  }

  /** The results of the checks before the first one that throws. */
  function Ran(checks: seq<CheckRun>): seq<CheckResult> {
    if checks == [] || checks[0].Threw? then [] else [checks[0].result] + Ran(checks[1..])
  }

  predicate NoneThrew(checks: seq<CheckRun>) {
    forall c :: c in checks ==> c.Gave?
  }

  function AuditEffect(hasStore: bool, s: Flags, c: Call): Effect
    requires c.Audit?
  {
    var deleted := if hasStore then [SignalDeleted(c.deleteOk)] else [];
    if c.onFailure != "stop" && c.onFailure != "continue" then Effect(s, [], Raised(ValueError))
    else if hasStore && !c.deleteOk then Effect(s, deleted, Raised(StoreError))
    else
      var report := s.results + Ran(c.checks);
      if !NoneThrew(c.checks) then Effect(s.(results := report), deleted, Raised(CheckError))
      else
        var t := s.(results := report, audited := true);
        if AllPassed(report) then
          if !hasStore then Effect(t, [], Normal)
          else Effect(t, deleted + [SignalWritten(c.writeOk)], if c.writeOk then Normal else Raised(StoreError))
        else
          var notified := deleted + if c.notify.Some? then [Notified(c.notify.value)] else [];
          if c.notify == Some(false) then Effect(t, notified, Raised(UserError))
          else if c.onFailure == "stop" then
            Effect(t.(rolledBack := true), notified + [RolledBack(c.undoOk)], Raised(AuditFailed))
          else Effect(t, notified, Normal)
  }

  /** __exit__ and __del__: roll back what was never decided, and swallow what the backend raises. */
  function Abandon(s: Flags, undoOk: bool): Effect {
    if !s.published && !s.rolledBack then Effect(s.(rolledBack := true), [RolledBack(undoOk)], Normal)
    else Effect(s, [], Normal)
  }

  function Step(hasStore: bool, s: Flags, c: Call): Effect {
    match c
    case Write(fnOk, undoOk) =>
      if fnOk then Effect(s, [Staged(true)], Normal)
      else if undoOk then Effect(s.(rolledBack := true), [Staged(false), RolledBack(true)], Raised(UserError))
      else Effect(s, [Staged(false), RolledBack(false)], Raised(BackendError))
    case Audit(_, _, _, _, _, _) => AuditEffect(hasStore, s, c)
    case Publish(ok) =>
      if s.rolledBack || !s.audited then Effect(s, [], Raised(RuntimeError))
      else if s.published then Effect(s, [], Normal)
      else if ok then Effect(s.(published := true), [Published(true)], Normal)
      else Effect(s, [Published(false)], Raised(BackendError))
    case Rollback(ok) =>
      if s.published then Effect(s, [], Raised(RuntimeError))
      else if s.rolledBack then Effect(s, [], Normal)
      else if ok then Effect(s.(rolledBack := true), [RolledBack(true)], Normal)
      else Effect(s, [RolledBack(false)], Raised(BackendError))
    case Exit(ok) => Abandon(s, ok)
    case Del(ok) => Abandon(s, ok)
  }

  class TollkeeperSession {
    var published: bool
    var rolledBack: bool
    var audited: bool
    var results: seq<CheckResult>
    const hasStore: bool
    ghost var log: seq<Event>  // the external calls so far

    ghost function State(): Flags
      reads this
    {
      Flags(published, rolledBack, audited, results)
    }

    constructor (hasStore: bool)
      ensures State() == FRESH && log == [] && this.hasStore == hasStore
    {
      this.hasStore := hasStore;
      published, rolledBack, audited, results, log := false, false, false, [], [];
    }

    /** What a method must have done: the effect of the call on the state it found. */
    twostate predicate Did(c: Call, ending: Ending)
      reads this
    {
      var e := Step(hasStore, old(State()), c);
      State() == e.flags && log == old(log) + e.events && ending == e.ending
    }

    method Write(fnOk: bool, undoOk: bool) returns (ending: Ending)
      modifies this
      ensures Did(Call.Write(fnOk, undoOk), ending)
    {
      log := log + [Staged(fnOk)];
      if !fnOk {
        log := log + [RolledBack(undoOk)];
        if !undoOk {
          return Raised(BackendError);
        }
        rolledBack := true;
        return Raised(UserError);
      }
      return Normal;
    }

    /** results.extend over the generator of check runs: what came before a throw stays in the report. */
    method RunChecks(checks: seq<CheckRun>) returns (ok: bool)
      modifies this`results
      ensures results == old(results) + Ran(checks) && ok == NoneThrew(checks)
    {
      for i := 0 to |checks|
        invariant results == old(results) + Ran(checks[..i]) && NoneThrew(checks[..i])
      {
        RanPrefix(checks, i);
        match checks[i] {
          case Threw => return false;
          case Gave(r) => results := results + [r];
        }
      }
      assert checks[..|checks|] == checks;
      return true;
    }

    method Audit(checks: seq<CheckRun>, onFailure: string, notify: Option<bool>,
        deleteOk: bool, undoOk: bool, writeOk: bool)
        returns (ending: Ending)
      modifies this
      ensures Did(Call.Audit(checks, onFailure, notify, deleteOk, undoOk, writeOk), ending)
    {
      if onFailure != "stop" && onFailure != "continue" {
        return Raised(ValueError);
      }
      ghost var start, events := log, [];
      if hasStore {
        events := [SignalDeleted(deleteOk)];
        log := start + events;
        if !deleteOk {
          return Raised(StoreError);
        }
      }
      var ok := RunChecks(checks);
      if !ok {
        return Raised(CheckError);
      }
      audited := true;
      if !AllPassed(results) {
        if notify.Some? {
          events := events + [Notified(notify.value)];
          log := start + events;
          if !notify.value {
            return Raised(UserError);
          }
        }
        if onFailure == "stop" {
          events := events + [RolledBack(undoOk)];
          log := start + events;
          rolledBack := true;
          return Raised(AuditFailed);
        }
      }
      if hasStore && AllPassed(results) {
        events := events + [SignalWritten(writeOk)];
        log := start + events;
        if !writeOk {
          return Raised(StoreError);
        }
      }
      return Normal;
    }

    method Publish(publishOk: bool) returns (ending: Ending)
      modifies this
      ensures Did(Call.Publish(publishOk), ending)
    {
      if rolledBack || !audited {
        return Raised(RuntimeError);
      }
      if !published {
        log := log + [Published(publishOk)];
        if !publishOk {
          return Raised(BackendError);
        }
        published := true;
      }
      return Normal;
    }

    method Rollback(undoOk: bool) returns (ending: Ending)
      modifies this
      ensures Did(Call.Rollback(undoOk), ending)
    {
      if published {
        return Raised(RuntimeError);
      }
      if !rolledBack {
        log := log + [RolledBack(undoOk)];
        if !undoOk {
          return Raised(BackendError);
        }
        rolledBack := true;
      }
      return Normal;
    }

    method Exit(undoOk: bool)
      modifies this
      ensures Did(Call.Exit(undoOk), Normal)
    {
      if !published && !rolledBack {
        log := log + [RolledBack(undoOk)];
        rolledBack := true;
      }
    }

    method Del(undoOk: bool)
      modifies this
      ensures Did(Call.Del(undoOk), Normal)
    {
      if !published && !rolledBack {
        log := log + [RolledBack(undoOk)];
        rolledBack := true;
      }
    }
  }

  lemma {:induction false} RanPrefix(checks: seq<CheckRun>, i: nat)
    requires i < |checks| && NoneThrew(checks[..i])
    ensures checks[i].Gave? ==>
              Ran(checks[..i + 1]) == Ran(checks[..i]) + [checks[i].result] && NoneThrew(checks[..i + 1])
    ensures checks[i].Threw? ==> Ran(checks) == Ran(checks[..i]) && !NoneThrew(checks)
    decreases i
  {
    if i > 0 {
      assert checks[..i][0] == checks[0] && checks[0] in checks[..i];
      assert checks[..i][1..] == checks[1..][..i - 1] && checks[..i + 1][1..] == checks[1..][..i];
      forall c | c in checks[1..][..i - 1] ensures c.Gave? { assert c in checks[..i]; }
      RanPrefix(checks[1..], i - 1);
      if checks[i].Gave? {
        forall c | c in checks[..i + 1] ensures c.Gave? { assert c in checks[..i] || c == checks[i]; }
      } else {
        assert checks[i] in checks;
      }
    } else {
      assert checks[..1] == [checks[0]];
      assert checks[..1][1..] == [] && Ran([]) == [];
      assert checks[0] in checks;
    }
  }
}
