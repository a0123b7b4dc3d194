/**
  The two stores agree: run side by side they hold permutations of the same rows and give the
  same answers, whatever order the rows of a table come back in.
*/
module Agreement {
  import opened Json
  import opened Tables
  import opened Cascade
  import opened StoreModel

  /** The same rows, in whatever order, and the same callback calls. */
  ghost predicate Same(s: State, t: State) {
    && Valid(s) && Valid(t)
    && multiset(s.signals) == multiset(t.signals)
    && multiset(s.dq) == multiset(t.dq)
    && multiset(s.deps) == multiset(t.deps)
    && s.hasCallback == t.hasCallback
    && multiset(s.calls) == multiset(t.calls)
  }

  /** Single answers are equal and listings have the same elements. */
  ghost predicate SameAnswer(a: Answer, b: Answer) {
    match (a, b)
    case (Results(x), Results(y)) => multiset(x) == multiset(y)
    case (Dependents(x), Dependents(y)) => multiset(x) == multiset(y)
    case _ => a == b
  }

  lemma SamePut<K(!new), V(!new)>(a: seq<Row<K, V>>, b: seq<Row<K, V>>, f: Flavour, g: Flavour, key: K, val: V)
    requires Unique(a) && Unique(b) && multiset(a) == multiset(b)
    ensures multiset(Put(f, a, key, val)) == multiset(Put(g, b, key, val))
  {
    SameRows(a, b);
    PutView(f, a, key, val);
    PutView(g, b, key, val);
    SameRows(Put(f, a, key, val), Put(g, b, key, val));
  }

  lemma SameSelect<K(!new), V(!new)>(a: seq<Row<K, V>>, b: seq<Row<K, V>>, p: K -> bool, q: K -> bool)
    requires Unique(a) && Unique(b) && multiset(a) == multiset(b)
    requires forall k :: p(k) <==> q(k)
    ensures multiset(Select(a, p)) == multiset(Select(b, q))
  {
    SelectSame(b, p, q);
    SameRows(a, b);
    SelectView(a, p);
    SelectView(b, p);
    SameRows(Select(a, p), Select(b, p));
  }

  lemma SameLinks(a: seq<Row<DepKey, Policy>>, b: seq<Row<DepKey, Policy>>)
    requires multiset(a) == multiset(b)
    ensures multiset(Links(a)) == multiset(Links(b))
  {
    var f := (d: Row<DepKey, Policy>) => Row(d.key, Hop(d.val, Target(d.key)));
    MapPermuted(a, b, f);
    assert Links(a) == MapAll(a, f) && Links(b) == MapAll(b, f);
  }

  lemma SameDelete(s: State, t: State, n: Node, budget: nat)
    requires Same(s, t)
    ensures var v, w := Visit(Links(s.deps), n, budget), Visit(Links(t.deps), n, budget);
            && v.done == w.done
            && (v.done ==>
                  && multiset(After(s, v).signals) == multiset(After(t, w).signals)
                  && multiset(After(s, v).calls) == multiset(After(t, w).calls))
  {
    var v, w := Visit(Links(s.deps), n, budget), Visit(Links(t.deps), n, budget);
    SameLinks(s.deps, t.deps);
    OrderIrrelevant(Links(s.deps), Links(t.deps), n, budget);
    if v.done {
      forall m ensures m in v.deleted <==> m in w.deleted {
        assert m in v.deleted <==> m in multiset(v.deleted);
        assert m in w.deleted <==> m in multiset(w.deleted);
      }
      SameSelect(s.signals, t.signals, (m: Node) => m !in v.deleted, (m: Node) => m !in w.deleted);
      MapPermuted(v.called, w.called, CallFor);
    }
  }

  lemma SameFind(s: State, t: State, n: Node)
    requires Same(s, t)
    ensures Find(s.signals, n) == Find(t.signals, n)
  {
    SameRows(s.signals, t.signals);
    FindView(s.signals, n);
    FindView(t.signals, n);
  }

  lemma AnswersAgree(s: State, t: State, op: Op)
    requires Same(s, t)
    ensures SameAnswer(Step(Sqlite, s, op).answer, Step(DbApi, t, op).answer)
  {
    match op
    case Delete(table, ctx, budget) =>
      SameDelete(s, t, NodeOf(table, ctx), budget);
    case Check(table, ctx) =>
      SameFind(s, t, NodeOf(table, ctx));
    case GetDq(table, ctx) =>
      var n := NodeOf(table, ctx);
      SameSelect(s.dq, t.dq, (k: DqKey) => k.node == n, (k: DqKey) => k.node == n);
      MapPermuted(Select(s.dq, (k: DqKey) => k.node == n), Select(t.dq, (k: DqKey) => k.node == n), ResultAt);
    case GetDownstream(table, ctx) =>
      var n := NodeOf(table, ctx);
      SameSelect(s.deps, t.deps, (k: DepKey) => k.up == n, (k: DepKey) => k.up == n);
      MapPermuted(DownstreamRows(s.deps, n), DownstreamRows(t.deps, n), DependentAt);
    case _ =>
  }

  lemma RowsAgree(s: State, t: State, op: Op)
    requires Same(s, t) && Step(Sqlite, s, op).answer != Raised(RecursionError)
    ensures var u, v := Step(Sqlite, s, op).state, Step(DbApi, t, op).state;
            && multiset(u.signals) == multiset(v.signals) && multiset(u.dq) == multiset(v.dq)
            && multiset(u.deps) == multiset(v.deps) && multiset(u.calls) == multiset(v.calls)
  {
    match op
    case Write(g, now) =>
      SamePut(s.signals, t.signals, Sqlite, DbApi, NodeOf(g.table, g.ctx),
              SignalVal(g.status, g.executionTs, now, g.summary, Dumps(g.metadata)));
    case Delete(table, ctx, budget) =>
      SameDelete(s, t, NodeOf(table, ctx), budget);
    case WriteDq(r) =>
      SamePut(s.dq, t.dq, Sqlite, DbApi, DqKey(NodeOf(r.table, r.ctx), r.check),
              DqVal(r.passed, r.details, r.executedAt));
    case DeleteDq(table, ctx) =>
      var n := NodeOf(table, ctx);
      SameSelect(s.dq, t.dq, (k: DqKey) => k.node != n, (k: DqKey) => k.node != n);
    case RegisterDep(up, down, policy, upCtx, downCtx) =>
      SamePut(s.deps, t.deps, DbApi, DbApi, DepKey(NodeOf(up, upCtx), NodeOf(down, downCtx)),
              if policy == "notify" then Notify else Cascade);
    case _ =>
  }

  /** One operation on two stores that hold the same rows. */
  lemma StepsAgree(s: State, t: State, op: Op)
    requires Same(s, t)
    ensures SameAnswer(Step(Sqlite, s, op).answer, Step(DbApi, t, op).answer)
    ensures Step(Sqlite, s, op).answer != Raised(RecursionError) ==>
            Same(Step(Sqlite, s, op).state, Step(DbApi, t, op).state)
  {
    StepKeepsValid(Sqlite, s, op);
    StepKeepsValid(DbApi, t, op);
    AnswersAgree(s, t, op);
    if Step(Sqlite, s, op).answer != Raised(RecursionError) { RowsAgree(s, t, op); }
  }

  /** A run stops at the first RecursionError, which leaves a delete half done. */
  datatype History = History(answers: seq<Answer>, state: State, aborted: bool)

  function Run(f: Flavour, s: State, ops: seq<Op>): History
    decreases |ops|
  {
    if ops == [] then History([], s, false)
    else
      var o := Step(f, s, ops[0]);
      if o.answer == Raised(RecursionError) then History([o.answer], o.state, true)
      else
        var rest := Run(f, o.state, ops[1..]);
        rest.(answers := [o.answer] + rest.answers)
  }

  /**
    After every sequence of operations, recursive deletes included, the two stores have given
    the same answers and, unless the last delete ran out of stack in both, hold the same rows.
  */
  lemma {:induction false} StoresAgree(s: State, t: State, ops: seq<Op>)
    requires Same(s, t)
    ensures var a, b := Run(Sqlite, s, ops), Run(DbApi, t, ops);
            && |a.answers| == |b.answers|
            && (forall i :: 0 <= i < |a.answers| ==> SameAnswer(a.answers[i], b.answers[i]))
            && a.aborted == b.aborted
            && (!a.aborted ==> Same(a.state, b.state))
    decreases |ops|
  {
    if ops != [] {
      StepsAgree(s, t, ops[0]);
      var o, p := Step(Sqlite, s, ops[0]), Step(DbApi, t, ops[0]);
      if o.answer != Raised(RecursionError) {
        StoresAgree(o.state, p.state, ops[1..]);
      }
    }
  }

  /** From two empty stores. */
  lemma EmptyStoresAgree(hasCallback: bool, ops: seq<Op>)
    ensures var a, b := Run(Sqlite, Empty(hasCallback), ops), Run(DbApi, Empty(hasCallback), ops);
            && |a.answers| == |b.answers|
            && (forall i :: 0 <= i < |a.answers| ==> SameAnswer(a.answers[i], b.answers[i]))
            && (!a.aborted ==> Same(a.state, b.state))
  {
    StoresAgree(Empty(hasCallback), Empty(hasCallback), ops);
  }
}
