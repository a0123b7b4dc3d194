/** What a client of a signal store is told, operation by operation, in terms of what was asked before. */
module StoreAnswers {
  import opened Wrappers
  import opened Json
  import opened PrintedForm
  import opened ContextKey
  import opened Tables
  import opened Cascade
  import opened StoreModel

  /** Another table, or a context with another key. */
  predicate IsElsewhere(table: string, ctx: Context, other: string, otherCtx: Context) {
    other != table || Split(SortKeys(OrEmpty(otherCtx))) != Split(SortKeys(OrEmpty(ctx)))
  }

  lemma ElsewhereIsOther(table: string, ctx: Context, other: string, otherCtx: Context)
    ensures IsElsewhere(table, ctx, other, otherCtx) <==> NodeOf(other, otherCtx) != NodeOf(table, ctx)
  {
    KeyIdentifies(ctx, otherCtx);
  }

  // ---------- Each operation keeps to its table ----------

  /** Writes and deletes of signals, of results and of dependencies leave the other two tables alone. */
  lemma OperationsKeepApart(f: Flavour, s: State, op: Op)
    ensures var t := Step(f, s, op).state;
            && (t.signals != s.signals ==> op.Write? || op.Delete?)
            && (t.dq != s.dq ==> op.WriteDq? || op.DeleteDq?)
            && (t.deps != s.deps ==> op.RegisterDep?)
            && (t.calls != s.calls ==> op.Delete? && s.hasCallback)
            && t.hasCallback == s.hasCallback
  {
    if op.Delete? {
      var w := Visit(Links(s.deps), NodeOf(op.table, op.ctx), op.budget);
      if !s.hasCallback { assert s.calls + Log(false, w.called) == s.calls; }
    }
  }

  // ---------- Check results ----------

  function ResultsAt(dq: seq<Row<DqKey, DqVal>>, n: Node): seq<Row<DqKey, DqVal>> {
    Select(dq, (k: DqKey) => k.node == n)
  }

  lemma ResultsKept(dq: seq<Row<DqKey, DqVal>>, n: Node, m: Node)
    requires m != n
    ensures ResultsAt(ClearResults(dq, n), m) == ResultsAt(dq, m)
  {
    SelectTwice(dq, (k: DqKey) => k.node != n, (k: DqKey) => k.node == m, (k: DqKey) => k.node == m);
  }

  /** delete_dq_results clears the table and context it is given, and nothing else. */
  lemma DeletedResults(f: Flavour, s: State, table: string, ctx: Context, other: string, otherCtx: Context)
    ensures var t := Step(f, s, DeleteDq(table, ctx)).state;
            && Step(f, t, GetDq(table, ctx)).answer == Results([])
            && (IsElsewhere(table, ctx, other, otherCtx) ==>
                  Step(f, t, GetDq(other, otherCtx)).answer == Step(f, s, GetDq(other, otherCtx)).answer)
            && t == s.(dq := t.dq)
  {
    var n, m := NodeOf(table, ctx), NodeOf(other, otherCtx);
    ClearedResults(s.dq, n);
    ElsewhereIsOther(table, ctx, other, otherCtx);
    if m != n { ResultsKept(s.dq, n, m); }
  }

  lemma {:induction false} UpsertSpares(dq: seq<Row<DqKey, DqVal>>, key: DqKey, val: DqVal, m: Node)
    requires key.node != m
    ensures ResultsAt(Upsert(dq, key, val), m) == ResultsAt(dq, m)
    decreases |dq|
  {
    if dq == [] {
      assert [Row(key, val)][1..] == [];
    } else if dq[0].key == key {
      assert ([Row(key, val)] + dq[1..])[1..] == dq[1..];
    } else {
      UpsertSpares(dq[1..], key, val, m);
      assert ([dq[0]] + Upsert(dq[1..], key, val))[1..] == Upsert(dq[1..], key, val);
    }
  }

  lemma {:induction false} WithoutSpares(dq: seq<Row<DqKey, DqVal>>, key: DqKey, m: Node)
    requires key.node != m
    ensures ResultsAt(Without(dq, key), m) == ResultsAt(dq, m)
    decreases |dq|
  {
    if dq != [] {
      var rest := Without(dq[1..], key);
      WithoutSpares(dq[1..], key, m);
      assert ([dq[0]] + rest)[1..] == rest && [] + rest == rest;
    }
  }

  lemma PutSpares(f: Flavour, dq: seq<Row<DqKey, DqVal>>, key: DqKey, val: DqVal, m: Node)
    requires key.node != m
    ensures ResultsAt(Put(f, dq, key, val), m) == ResultsAt(dq, m)
  {
    UpsertSpares(dq, key, val, m);
    WithoutSpares(dq, key, m);
    SelectAppend(Without(dq, key), Row(key, val), (k: DqKey) => k.node == m);
  }

  /** A result written for one table and context does not show at another. */
  lemma ResultSparesOthers(f: Flavour, s: State, r: DqResult, other: string, otherCtx: Context)
    requires IsElsewhere(r.table, r.ctx, other, otherCtx)
    ensures var t := Step(f, s, WriteDq(r)).state;
            Step(f, t, GetDq(other, otherCtx)).answer == Step(f, s, GetDq(other, otherCtx)).answer
  {
    ElsewhereIsOther(r.table, r.ctx, other, otherCtx);
    var key := DqKey(NodeOf(r.table, r.ctx), r.check);
    PutSpares(f, s.dq, key, DqVal(r.passed, r.details, r.executedAt), NodeOf(other, otherCtx));
  }

  // ---------- Dependencies ----------

  /** register_dep takes the two policies that there are; any other raises and changes nothing. */
  lemma PolicyAnswers(f: Flavour, s: State, up: string, down: string, policy: string, upCtx: Context, downCtx: Context)
    ensures var o := Step(f, s, RegisterDep(up, down, policy, upCtx, downCtx));
            && (o.answer == Done <==> policy in {"notify", "cascade"})
            && (o.answer == Raised(ValueError) <==> policy !in {"notify", "cascade"})
            && (o.answer != Done ==> o.state == s)
  {
  }

  lemma PutIsListed(deps: seq<Row<DepKey, Policy>>, key: DepKey, policy: Policy)
    requires Unique(deps)
    ensures var d := Dependent(key.down.table, ParseKey(key.down.key), policy);
            d in DependentsOf(Put(DbApi, deps, key, policy), key.up)
  {
    var after, row := Put(DbApi, deps, key, policy), Row(key, policy);
    PutDependency(deps, key, policy, row);
    DependentsListed(after, key.up);
    SelectMembers(after, (k: DepKey) => k.up == key.up);
    assert row in after && HasDependent(after, key.up, DependentAt(row));
  }

  /** What register_dep takes, get_downstream lists with the policy it was given. */
  lemma RegisteredAnswers(f: Flavour, s: State, up: string, down: string, policy: string,
      upCtx: Context, downCtx: Context)
    requires Valid(s) && (policy == "notify" || policy == "cascade")
    ensures var t := Step(f, s, RegisterDep(up, down, policy, upCtx, downCtx)).state;
            exists d :: d in DependentsOf(t.deps, NodeOf(up, upCtx)) && d.table == down &&
                        d.ctx == ParseKey(CtxKey(downCtx)) && (d.policy == Cascade <==> policy == "cascade")
  {
    var key, val := DepKey(NodeOf(up, upCtx), NodeOf(down, downCtx)), if policy == "notify" then Notify else Cascade;
    var t := Step(f, s, RegisterDep(up, down, policy, upCtx, downCtx)).state;
    assert t.deps == Put(DbApi, s.deps, key, val);
    PutIsListed(s.deps, key, val);
    assert Dependent(down, ParseKey(CtxKey(downCtx)), val) in DependentsOf(t.deps, NodeOf(up, upCtx));
  }

  /** The callback gets the two tables of a notify row and its parsed downstream context, in the order of the walk. */
  lemma CallsNameTheirRows(f: Flavour, s: State, table: string, ctx: Context, budget: nat, i: nat)
    requires s.hasCallback && i < |Visit(Links(s.deps), NodeOf(table, ctx), budget).called|
    ensures var called := Visit(Links(s.deps), NodeOf(table, ctx), budget).called;
            var calls := Step(f, s, Delete(table, ctx, budget)).state.calls;
            && |calls| == |s.calls| + |called|
            && calls[|s.calls| + i].up == called[i].key.up.table
            && calls[|s.calls| + i].down == called[i].key.down.table
            && calls[|s.calls| + i].ctx == ParseKey(called[i].key.down.key)
  {
  }
}
