/** SqliteSignalStore: three tables changed in place, with ON CONFLICT upserts. */
module SqliteStore {
  import opened Wrappers
  import opened Json
  import opened ContextKey
  import opened Tables
  import opened Cascade
  import opened StoreModel

  class SqliteSignalStore {
    var signals: seq<Row<Node, SignalVal>>
    var dq: seq<Row<DqKey, DqVal>>
    var deps: seq<Row<DepKey, Policy>>
    const hasCallback: bool
    ghost var calls: seq<Call>  // the on_delete_callback calls so far

    ghost function Contents(): State
      reads this
    {
      State(signals, dq, deps, hasCallback, calls)
    }

    constructor (hasCallback: bool)
      ensures Contents() == Empty(hasCallback)
    {
      this.hasCallback := hasCallback;
      signals, dq, deps, calls := [], [], [], [];
    }

    method Write(signal: Signal, now: int)
      modifies this`signals
      ensures Contents() == Step(Sqlite, old(Contents()), Op.Write(signal, now)).state
    {
      var val := SignalVal(signal.status, signal.executionTs, now, signal.summary, Dumps(signal.metadata));
      signals := Upsert(signals, NodeOf(signal.table, signal.ctx), val);
    }

    /** Deletes a signal and follows its dependency rows. The callback is taken not to change the store. */
    method Delete(table: string, ctx: Context, budget: nat) returns (r: Answer)
      modifies this`signals, this`calls
      ensures var walk := Visit(Links(deps), NodeOf(table, ctx), budget);
              Contents() == After(old(Contents()), walk) && r == Verdict(walk)
      decreases budget, 0
    {
      ghost var before, n := Contents(), NodeOf(table, ctx);
      if budget == 0 {
        AfterNothing(before, false);
        return Raised(RecursionError);
      }
      AfterVisit(before, n, budget);
      signals := Without(signals, NodeOf(table, ctx));
      r := FollowAll(table, ctx, budget - 1);
    }

    /** The loop over the dependents of a deleted signal. */
    method FollowAll(table: string, ctx: Context, budget: nat) returns (r: Answer)
      modifies this`signals, this`calls
      ensures var walk := VisitRows(Links(deps), Downstream(Links(deps), NodeOf(table, ctx)), budget);
              Contents() == After(old(Contents()), walk) && r == Verdict(walk)
      decreases budget, 2
    {
      ghost var before, links := Contents(), Links(deps);
      ghost var rows := Downstream(links, NodeOf(table, ctx));
      ghost var deleted: seq<Node>, called: seq<Link> := [], [];
      var dependents := GetDownstream(table, ctx);
      DownstreamFollows(deps, table, ctx);
      ResumeStart(links, rows, budget);
      AfterNothing(before, true);
      for i := 0 to |dependents|
        invariant deps == before.deps
        invariant Contents() == After(before, Walk(true, deleted, called))
        invariant VisitRows(links, rows, budget) == Resume(links, rows, i, budget, deleted, called)
      {
        ghost var step := VisitRow(links, rows[i], budget);
        ResumeStep(links, rows, i, budget, deleted, called);
        AfterTwice(before, deleted, called, step);
        r := Follow(table, dependents[i], budget, rows[i]);
        deleted, called := deleted + step.deleted, called + step.called;
        if r != Done {
          return;
        }
      }
      ResumeEnd(links, rows, budget, deleted, called);
      return Done;
    }

    /** One turn of that loop. */
    method Follow(table: string, d: Dependent, budget: nat, ghost link: Link) returns (r: Answer)
      requires Follows(table, d, link)
      modifies this`signals, this`calls
      ensures var walk := VisitRow(Links(deps), link, budget);
              Contents() == After(old(Contents()), walk) && r == Verdict(walk)
      decreases budget, 1
    {
      if d.policy == Cascade {
        r := Delete(d.table, d.ctx, budget);
      } else {
        AfterNothing(Contents(), true);
        if hasCallback {
          calls := calls + [Call(table, d.table, d.ctx)];
        }
        r := Done;
      }
    }

    method Check(table: string, ctx: Context) returns (found: Option<Signal>)
      ensures Found(found) == Step(Sqlite, Contents(), Op.Check(table, ctx)).answer
    {
      var n := NodeOf(table, ctx);
      match Find(signals, n) {
        case None => found := None;
        case Some(v) => found := Some(SignalAt(n, v));
      }
    }

    method WriteDqResult(result: DqResult)
      modifies this`dq
      ensures Contents() == Step(Sqlite, old(Contents()), WriteDq(result)).state
    {
      var key := DqKey(NodeOf(result.table, result.ctx), result.check);
      dq := Upsert(dq, key, DqVal(result.passed, result.details, result.executedAt));
    }

    method GetDqResults(table: string, ctx: Context) returns (results: seq<DqResult>)
      ensures Results(results) == Step(Sqlite, Contents(), GetDq(table, ctx)).answer
      ensures forall x :: x in results <==> HasResult(dq, NodeOf(table, ctx), x)
    {
      results := ResultsOf(dq, NodeOf(table, ctx));
      forall x ensures x in results <==> HasResult(dq, NodeOf(table, ctx), x) {
        ResultsMembers(dq, NodeOf(table, ctx), x);
      }
    }

    method DeleteDqResults(table: string, ctx: Context)
      modifies this`dq
      ensures Contents() == Step(Sqlite, old(Contents()), DeleteDq(table, ctx)).state
    {
      dq := ClearResults(dq, NodeOf(table, ctx));
    }

    method RegisterDep(up: string, down: string, policy: string, upCtx: Context, downCtx: Context) returns (r: Answer)
      modifies this`deps
      ensures Outcome(Contents(), r) == Step(Sqlite, old(Contents()), Op.RegisterDep(up, down, policy, upCtx, downCtx))
    {
      if policy != "notify" && policy != "cascade" {
        return Raised(ValueError);
      }
      var key := DepKey(NodeOf(up, upCtx), NodeOf(down, downCtx));
      deps := Reinsert(deps, key, if policy == "notify" then Notify else Cascade);
      return Done;
    }

    method GetDownstream(table: string, ctx: Context) returns (dependents: seq<Dependent>)
      ensures dependents == DependentsOf(deps, NodeOf(table, ctx))
      ensures Dependents(dependents) == Step(Sqlite, Contents(), Op.GetDownstream(table, ctx)).answer
      ensures ListsRows(dependents, deps, NodeOf(table, ctx))
    {
      DependentsListed(deps, NodeOf(table, ctx));
      dependents := DependentsOf(deps, NodeOf(table, ctx));
    }
  }
}
