/**
  What the operations of a signal store do to its three tables, for both stores at once: the
  SQLite store rewrites an existing row where it stands, the DB-API store deletes it and
  inserts a new one.
*/
module StoreModel {
  import opened Wrappers
  import opened Json
  import opened ContextKey
  import opened KeyStability
  import opened PrintedForm
  import opened Tables
  import opened Cascade

  /** Timestamps and summaries are carried through unread. */
  datatype Signal = Signal(
    table: string, ctx: Context, status: string, executionTs: int, summary: string, metadata: Json)

  datatype SignalVal = SignalVal(status: string, executionTs: int, updatedAt: int, summary: string, metadata: Text)

  datatype DqResult = DqResult(
    table: string, check: string, passed: bool, details: string, ctx: Context, executedAt: int)

  datatype DqKey = DqKey(node: Node, check: string)
  datatype DqVal = DqVal(passed: bool, details: string, executedAt: int)

  /** The arguments of one on_delete_callback call. */
  datatype Call = Call(up: string, down: string, ctx: Context)

  datatype Dependent = Dependent(table: string, ctx: Context, policy: Policy)

  datatype Error = ValueError | RecursionError | TimeoutError

  datatype State = State(
    signals: seq<Row<Node, SignalVal>>,
    dq: seq<Row<DqKey, DqVal>>,
    deps: seq<Row<DepKey, Policy>>,
    hasCallback: bool,
    calls: seq<Call>)

  datatype Flavour = Sqlite | DbApi

  function NodeOf(table: string, ctx: Context): Node {
    Node(table, CtxKey(ctx))
  }

  /** Where a cascade row leads: the stored context text is parsed and turned into a key again. */
  function Target(key: DepKey): Node {
    NodeOf(key.down.table, ParseKey(key.down.key))
  }

  function Links(deps: seq<Row<DepKey, Policy>>): (links: seq<Link>)
    ensures |links| == |deps|
    ensures forall i :: 0 <= i < |deps| ==> links[i] == Row(deps[i].key, Hop(deps[i].val, Target(deps[i].key)))
  {
    seq(|deps|, i requires 0 <= i < |deps| => Row(deps[i].key, Hop(deps[i].val, Target(deps[i].key))))
  }

  function Put<K(==,!new), V(!new)>(f: Flavour, rows: seq<Row<K, V>>, key: K, val: V): seq<Row<K, V>> {
    if f.Sqlite? then Upsert(rows, key, val) else Reinsert(rows, key, val)
  }

  function Purge(rows: seq<Row<Node, SignalVal>>, dead: seq<Node>): seq<Row<Node, SignalVal>> {
    Select(rows, n => n !in dead)
  }

  function SignalAt(n: Node, v: SignalVal): Signal {
    var metadata := match Loads(v.metadata) case Some(m) => m case None => Null;
    Signal(n.table, ParseKey(n.key), v.status, v.executionTs, v.summary, metadata)
  }

  function ResultAt(r: Row<DqKey, DqVal>): DqResult {
    DqResult(r.key.node.table, r.key.check, r.val.passed, r.val.details, ParseKey(r.key.node.key), r.val.executedAt)
  }

  function DependentAt(r: Row<DepKey, Policy>): Dependent {
    Dependent(r.key.down.table, ParseKey(r.key.down.key), r.val)
  }

  function CallFor(l: Link): Call {
    Call(l.key.up.table, l.key.down.table, ParseKey(l.key.down.key))
  }

  function DownstreamRows(deps: seq<Row<DepKey, Policy>>, n: Node): seq<Row<DepKey, Policy>> {
    Select(deps, (k: DepKey) => k.up == n)
  }

  function DependentsOf(deps: seq<Row<DepKey, Policy>>, n: Node): seq<Dependent> {
    MapAll(DownstreamRows(deps, n), DependentAt)
  }

  function ResultsOf(dq: seq<Row<DqKey, DqVal>>, n: Node): seq<DqResult> {
    MapAll(Select(dq, (k: DqKey) => k.node == n), ResultAt)
  }

  function ClearResults(dq: seq<Row<DqKey, DqVal>>, n: Node): seq<Row<DqKey, DqVal>> {
    Select(dq, (k: DqKey) => k.node != n)
  }

  // ---------- Operations ----------

  /** budget is the depth of nested calls the interpreter still allows a delete. */
  datatype Op =
    | Write(signal: Signal, now: int)
    | Delete(table: string, ctx: Context, budget: nat)
    | Check(table: string, ctx: Context)
    | WriteDq(result: DqResult)
    | GetDq(table: string, ctx: Context)
    | DeleteDq(table: string, ctx: Context)
    | RegisterDep(up: string, down: string, policy: string, upCtx: Context, downCtx: Context)
    | GetDownstream(table: string, ctx: Context)

  datatype Answer =
    | Done
    | Found(signal: Option<Signal>)
    | Results(results: seq<DqResult>)
    | Dependents(dependents: seq<Dependent>)
    | Raised(error: Error)

  datatype Outcome = Outcome(state: State, answer: Answer)

  /** The store after a delete that walked w: calls are logged only when there is a callback. */
  function After(s: State, w: Walk): State {
    s.(signals := Purge(s.signals, w.deleted),
       calls := s.calls + Log(s.hasCallback, w.called))
  }

  function Verdict(w: Walk): Answer {
    if w.done then Done else Raised(RecursionError)
  }

  function Step(f: Flavour, s: State, op: Op): Outcome {
    match op
    case Write(g, now) =>
      var val := SignalVal(g.status, g.executionTs, now, g.summary, Dumps(g.metadata));
      Outcome(s.(signals := Put(f, s.signals, NodeOf(g.table, g.ctx), val)), Done)
    case Delete(table, ctx, budget) =>
      var w := Visit(Links(s.deps), NodeOf(table, ctx), budget);
      Outcome(After(s, w), Verdict(w))
    case Check(table, ctx) =>
      var n := NodeOf(table, ctx);
      var found := match Find(s.signals, n) case None => None case Some(v) => Some(SignalAt(n, v));
      Outcome(s, Found(found))
    case WriteDq(r) =>
      var key := DqKey(NodeOf(r.table, r.ctx), r.check);
      Outcome(s.(dq := Put(f, s.dq, key, DqVal(r.passed, r.details, r.executedAt))), Done)
    case GetDq(table, ctx) =>
      var n := NodeOf(table, ctx);
      Outcome(s, Results(ResultsOf(s.dq, n)))
    case DeleteDq(table, ctx) =>
      Outcome(s.(dq := ClearResults(s.dq, NodeOf(table, ctx))), Done)
    case RegisterDep(up, down, policy, upCtx, downCtx) =>
      if policy != "notify" && policy != "cascade" then Outcome(s, Raised(ValueError))
      else
        var key := DepKey(NodeOf(up, upCtx), NodeOf(down, downCtx));
        Outcome(s.(deps := Reinsert(s.deps, key, if policy == "notify" then Notify else Cascade)), Done)
    case GetDownstream(table, ctx) =>
      Outcome(s, Dependents(DependentsOf(s.deps, NodeOf(table, ctx))))
  }

  function Empty(hasCallback: bool): State {
    State([], [], [], hasCallback, [])
  }

  // ---------- What every operation keeps ----------

  /** Primary keys are unique and every stored context text is the key of some context. */
  ghost predicate Valid(s: State) {
    && Unique(s.signals) && Unique(s.dq) && Unique(s.deps)
    && (forall r :: r in s.signals ==> IsKey(r.key.key))
    && (forall r :: r in s.dq ==> IsKey(r.key.node.key))
    && (forall r :: r in s.deps ==> IsKey(r.key.up.key) && IsKey(r.key.down.key))
  }

  lemma PutView<K(!new), V(!new)>(f: Flavour, rows: seq<Row<K, V>>, key: K, val: V)
    requires Unique(rows)
    ensures Unique(Put(f, rows, key, val))
    ensures View(Put(f, rows, key, val)) == View(rows)[key := val]
    ensures forall r :: r in Put(f, rows, key, val) ==> r.key == key || r in rows
  {
    UpsertView(rows, key, val);
    ReinsertView(rows, key, val);
    UpsertMembers(rows, key, val);
    SelectMembers(rows, (k: K) => k != key);
  }

  lemma StepKeepsValid(f: Flavour, s: State, op: Op)
    requires Valid(s)
    ensures Valid(Step(f, s, op).state)
  {
    match op
    case Write(g, now) =>
      PutView(f, s.signals, NodeOf(g.table, g.ctx),
              SignalVal(g.status, g.executionTs, now, g.summary, Dumps(g.metadata)));
      assert IsKey(CtxKey(g.ctx));
    case Delete(table, ctx, budget) =>
      var w := Visit(Links(s.deps), NodeOf(table, ctx), budget);
      SelectMembers(s.signals, (n: Node) => n !in w.deleted);
      SelectUnique(s.signals, (n: Node) => n !in w.deleted);
    case WriteDq(r) =>
      PutView(f, s.dq, DqKey(NodeOf(r.table, r.ctx), r.check), DqVal(r.passed, r.details, r.executedAt));
      assert IsKey(CtxKey(r.ctx));
    case DeleteDq(table, ctx) =>
      var n := NodeOf(table, ctx);
      SelectMembers(s.dq, (k: DqKey) => k.node != n);
      SelectUnique(s.dq, (k: DqKey) => k.node != n);
    case RegisterDep(up, down, policy, upCtx, downCtx) =>
      if policy == "notify" || policy == "cascade" {
        PutView(DbApi, s.deps, DepKey(NodeOf(up, upCtx), NodeOf(down, downCtx)),
                if policy == "notify" then Notify else Cascade);
        assert IsKey(CtxKey(upCtx)) && IsKey(CtxKey(downCtx));
      }
    case _ =>
  }

  lemma LinksUnique(deps: seq<Row<DepKey, Policy>>)
    requires Unique(deps)
    ensures Unique(Links(deps))
  {
  }

  lemma LinksCons(d: Row<DepKey, Policy>, rest: seq<Row<DepKey, Policy>>)
    ensures Links([d] + rest) == [Row(d.key, Hop(d.val, Target(d.key)))] + Links(rest)
  {
  }

  lemma {:induction false} LinksSelect(deps: seq<Row<DepKey, Policy>>, n: Node)
    ensures Downstream(Links(deps), n) == Links(DownstreamRows(deps, n))
    decreases |deps|
  {
    if deps != [] {
      var link := Row(deps[0].key, Hop(deps[0].val, Target(deps[0].key)));
      LinksSelect(deps[1..], n);
      assert deps == [deps[0]] + deps[1..];
      LinksCons(deps[0], deps[1..]);
      assert Links(deps)[1..] == Links(deps[1..]);
      if deps[0].key.up == n { LinksCons(deps[0], DownstreamRows(deps[1..], n)); }
    }
  }

  lemma PurgeTwice(rows: seq<Row<Node, SignalVal>>, a: seq<Node>, b: seq<Node>)
    ensures Purge(Purge(rows, a), b) == Purge(rows, a + b)
  {
    SelectTwice(rows, (n: Node) => n !in a, (n: Node) => n !in b, (n: Node) => n !in a + b);
  }

  lemma {:induction false} PurgeOne(rows: seq<Row<Node, SignalVal>>, n: Node)
    ensures Purge(rows, [n]) == Without(rows, n)
    decreases |rows|
  {
    if rows != [] { PurgeOne(rows[1..], n); }
  }

  lemma DownstreamLength(deps: seq<Row<DepKey, Policy>>, n: Node)
    ensures |Downstream(Links(deps), n)| == |DependentsOf(deps, n)|
  {
    LinksSelect(deps, n);
  }

  /** get_downstream hands the cascade the node, and the callback the arguments, of each link. */
  lemma DownstreamPair(deps: seq<Row<DepKey, Policy>>, table: string, ctx: Context, i: nat)
    requires i < |Downstream(Links(deps), NodeOf(table, ctx))|
    requires i < |DependentsOf(deps, NodeOf(table, ctx))|
    ensures Follows(table, DependentsOf(deps, NodeOf(table, ctx))[i], Downstream(Links(deps), NodeOf(table, ctx))[i])
  {
    var n := NodeOf(table, ctx);
    var rows := Downstream(Links(deps), n);
    LinksSelect(deps, n);
    SelectMembers(Links(deps), (k: DepKey) => k.up == n);
    assert rows[i] in rows;
  }

  /** The dependent d of a table, as get_downstream returns it, stands for this link. */
  ghost predicate Follows(table: string, d: Dependent, link: Link) {
    link.val == Hop(d.policy, NodeOf(d.table, d.ctx)) && CallFor(link) == Call(table, d.table, d.ctx)
  }

  /** The dependents, as get_downstream lists them, stand one by one for the links. */
  ghost predicate AllFollow(table: string, dependents: seq<Dependent>, rows: seq<Link>) {
    |dependents| == |rows| && forall i :: 0 <= i < |rows| ==> Follows(table, dependents[i], rows[i])
  }

  lemma DownstreamFollows(deps: seq<Row<DepKey, Policy>>, table: string, ctx: Context)
    ensures AllFollow(table, DependentsOf(deps, NodeOf(table, ctx)), Downstream(Links(deps), NodeOf(table, ctx)))
  {
    var dependents, rows := DependentsOf(deps, NodeOf(table, ctx)), Downstream(Links(deps), NodeOf(table, ctx));
    DownstreamLength(deps, NodeOf(table, ctx));
    forall i | 0 <= i < |rows| ensures Follows(table, dependents[i], rows[i]) { DownstreamPair(deps, table, ctx, i); }
  }

  /** A delete of n that has dealt with the first i of its rows, as the walk it will come to be. */
  ghost function Resume(links: seq<Link>, rows: seq<Link>, i: nat, budget: nat,
      deleted: seq<Node>, called: seq<Link>): Walk
    requires i <= |rows|
  {
    var rest := VisitRows(links, rows[i..], budget);
    Walk(rest.done, deleted + rest.deleted, called + rest.called)
  }

  lemma ResumeStep(links: seq<Link>, rows: seq<Link>, i: nat, budget: nat, deleted: seq<Node>, called: seq<Link>)
    requires i < |rows|
    ensures var step := VisitRow(links, rows[i], budget);
            Resume(links, rows, i, budget, deleted, called) ==
            if step.done then Resume(links, rows, i + 1, budget, deleted + step.deleted, called + step.called)
            else Walk(false, deleted + step.deleted, called + step.called)
  {
  }

  lemma ResumeStart(links: seq<Link>, rows: seq<Link>, budget: nat)
    ensures VisitRows(links, rows, budget) == Resume(links, rows, 0, budget, [], [])
  {
    assert rows[0..] == rows;
  }

  lemma ResumeEnd(links: seq<Link>, rows: seq<Link>, budget: nat, deleted: seq<Node>, called: seq<Link>)
    ensures Resume(links, rows, |rows|, budget, deleted, called) == Walk(true, deleted, called)
  {
  }

  function Log(hasCallback: bool, called: seq<Link>): seq<Call> {
    if hasCallback then MapAll(called, CallFor) else []
  }

  lemma LogConcat(hasCallback: bool, log: seq<Call>, a: seq<Link>, b: seq<Link>)
    ensures log + Log(hasCallback, a) + Log(hasCallback, b) == log + Log(hasCallback, a + b)
  {
    MapAllConcat(a, b, CallFor);
    if hasCallback { assert log + Log(true, a) + Log(true, b) == log + (Log(true, a) + Log(true, b)); }
  }

  lemma {:induction false} PurgeNothing(rows: seq<Row<Node, SignalVal>>)
    ensures Purge(rows, []) == rows
    decreases |rows|
  {
    if rows != [] {
      PurgeNothing(rows[1..]);
      assert Purge(rows, []) == [rows[0]] + Purge(rows[1..], []);
    }
  }

  lemma AfterNothing(s: State, done: bool)
    ensures After(s, Walk(done, [], [])) == s
  {
    PurgeNothing(s.signals);
  }

  lemma AfterOne(s: State, n: Node)
    ensures After(s, Walk(true, [n], [])) == s.(signals := Without(s.signals, n))
  {
    PurgeOne(s.signals, n);
  }

  lemma AfterTwice(s: State, deleted: seq<Node>, called: seq<Link>, w: Walk)
    ensures After(After(s, Walk(true, deleted, called)), w) ==
            After(s, Walk(w.done, deleted + w.deleted, called + w.called))
  {
    PurgeTwice(s.signals, deleted, w.deleted);
    LogConcat(s.hasCallback, s.calls, called, w.called);
  }

  /** A delete removes its own signal and then walks the rows of its node. */
  lemma AfterVisit(s: State, n: Node, budget: nat)
    requires budget > 0
    ensures var links := Links(s.deps);
            var rest := VisitRows(links, Downstream(links, n), budget - 1);
            var walk := Visit(links, n, budget);
            After(s.(signals := Without(s.signals, n)), rest) == After(s, walk) && rest.done == walk.done
  {
    var links := Links(s.deps);
    AfterOne(s, n);
    AfterTwice(s, [n], [], VisitRows(links, Downstream(links, n), budget - 1));
  }

  // ---------- Cascade delete over the stored rows ----------

  /**
    A delete that ends removes a signal exactly when its row's node is reachable by zero or more
    cascade rows, keeps every other signal row, and leaves dependencies and DQ results alone.
  */
  lemma DeleteExact(f: Flavour, s: State, table: string, ctx: Context, budget: nat)
    requires Valid(s)
    requires Step(f, s, Delete(table, ctx, budget)).answer == Done
    ensures var after := Step(f, s, Delete(table, ctx, budget)).state;
            && after.deps == s.deps && after.dq == s.dq
            && (forall r :: r in after.signals <==>
                  r in s.signals && !Reaches(Links(s.deps), NodeOf(table, ctx), r.key))
  {
    var links, n := Links(s.deps), NodeOf(table, ctx);
    var w := Visit(links, n, budget);
    LinksUnique(s.deps);
    SelectMembers(s.signals, (m: Node) => m !in w.deleted);
    forall m: Node ensures m in w.deleted <==> Reaches(links, n, m) { DeletedExact(links, n, m, budget); }
  }

  /** A delete ends exactly when no cascade cycle is reachable, given a depth above the number of rows. */
  lemma DeleteEnds(f: Flavour, s: State, table: string, ctx: Context)
    ensures AcyclicFrom(Links(s.deps), NodeOf(table, ctx)) <==>
            Step(f, s, Delete(table, ctx, |s.deps| + 1)).answer == Done
    ensures !AcyclicFrom(Links(s.deps), NodeOf(table, ctx)) ==>
            forall budget: nat :: Step(f, s, Delete(table, ctx, budget)).answer == Raised(RecursionError)
  {
    var links, n := Links(s.deps), NodeOf(table, ctx);
    DeleteTerminates(links, n);
    if !AcyclicFrom(links, n) {
      forall budget: nat ensures Step(f, s, Delete(table, ctx, budget)).answer == Raised(RecursionError) {
        assert !Visit(links, n, budget).done;
      }
    }
  }

  /** Even a delete that is cut off removes no signal that the start does not reach. */
  lemma DeleteOnlyReached(f: Flavour, s: State, table: string, ctx: Context, budget: nat, r: Row<Node, SignalVal>)
    requires r in s.signals && !Reaches(Links(s.deps), NodeOf(table, ctx), r.key)
    ensures r in Step(f, s, Delete(table, ctx, budget)).state.signals
  {
    var links, n := Links(s.deps), NodeOf(table, ctx);
    var w := Visit(links, n, budget);
    SelectMembers(s.signals, (m: Node) => m !in w.deleted);
    if r.key in w.deleted { DeletedIsReached(links, n, r.key, budget); }
  }

  /** The callback log of a delete that ends, with one entry per path and notify row. */
  lemma CallsPerPath(f: Flavour, s: State, table: string, ctx: Context, budget: nat, d: Row<DepKey, Policy>)
      returns (called: seq<Link>, paths: set<seq<Link>>)
    requires Valid(s) && s.hasCallback && d in s.deps && d.val == Notify
    requires Step(f, s, Delete(table, ctx, budget)).answer == Done
    ensures Step(f, s, Delete(table, ctx, budget)).state.calls == s.calls + MapAll(called, CallFor)
    ensures forall p :: p in paths <==> IsPath(Links(s.deps), NodeOf(table, ctx), p, d.key.up)
    ensures multiset(called)[Row(d.key, Hop(Notify, Target(d.key)))] == |paths|
  {
    var links := Links(s.deps);
    LinksUnique(s.deps);
    var i :| 0 <= i < |s.deps| && s.deps[i] == d;
    var l := links[i];
    called := Visit(links, NodeOf(table, ctx), budget).called;
    paths := NotifiedPerPath(links, NodeOf(table, ctx), l, budget);
  }

  /** A cascade row leads to the node that a write for its table and context stores exactly for aligned contexts. */
  lemma TargetIsStored(up: Node, down: string, ctx: Context)
    ensures Target(DepKey(up, NodeOf(down, ctx))) == NodeOf(down, ctx) <==> Aligned(SortKeys(OrEmpty(ctx)))
  {
    RekeyIsStable(ctx);
  }

  /** No path of cascade rows comes to the node of a context that is not aligned. */
  lemma OnlyAlignedReached(s: State, a: Node, down: string, ctx: Context)
    requires Valid(s) && Reaches(Links(s.deps), a, NodeOf(down, ctx)) && a != NodeOf(down, ctx)
    ensures Aligned(SortKeys(OrEmpty(ctx)))
  {
    var links, n := Links(s.deps), NodeOf(down, ctx);
    var p :| IsPath(links, a, p, n);
    SplitPath(links, a, p, n, |p| - 1);
    var i :| 0 <= i < |links| && links[i] == p[|p| - 1];
    assert s.deps[i] in s.deps;
    RekeyedIsAligned(s.deps[i].key.down.key, ctx);
  }

  /** A cascade row with an aligned context is a path to the node that it names. */
  lemma AlignedReached(s: State, a: Node, down: string, ctx: Context)
    requires Row(DepKey(a, NodeOf(down, ctx)), Cascade) in s.deps && Aligned(SortKeys(OrEmpty(ctx)))
    ensures Reaches(Links(s.deps), a, NodeOf(down, ctx))
  {
    var links, n := Links(s.deps), NodeOf(down, ctx);
    TargetIsStored(a, down, ctx);
    var i :| 0 <= i < |s.deps| && s.deps[i] == Row(DepKey(a, n), Cascade);
    assert links[i] in links && IsPath(links, n, [], n);
    assert [links[i]][1..] == [];
    assert IsPath(links, a, [links[i]], n);
  }

  /**
    A delete that ends removes the signal of a table and context registered for a cascade from the deleted one
    exactly when that context is aligned; the signal of one that is not stays behind.
  */
  lemma CascadeHits(f: Flavour, s: State, up: string, upCtx: Context, down: string, ctx: Context, budget: nat,
                    r: Row<Node, SignalVal>)
    requires Valid(s) && r in s.signals && r.key == NodeOf(down, ctx) != NodeOf(up, upCtx)
    requires Row(DepKey(NodeOf(up, upCtx), NodeOf(down, ctx)), Cascade) in s.deps
    requires Step(f, s, Delete(up, upCtx, budget)).answer == Done
    ensures r !in Step(f, s, Delete(up, upCtx, budget)).state.signals <==> Aligned(SortKeys(OrEmpty(ctx)))
  {
    var a := NodeOf(up, upCtx);
    DeleteExact(f, s, up, upCtx, budget);
    if Reaches(Links(s.deps), a, NodeOf(down, ctx)) {
      OnlyAlignedReached(s, a, down, ctx);
    } else if Aligned(SortKeys(OrEmpty(ctx))) {
      AlignedReached(s, a, down, ctx);
    }
  }

  /** With such a context the cascade goes to a node that no write for that context stores. */
  lemma CascadeMisses(up: Node, down: string) returns (ctx: Context)
    ensures ctx == Obj([Field([0xD83D, 0xDE00], Null), Field([0xE000], Null)])
    ensures Target(DepKey(up, NodeOf(down, ctx))) != NodeOf(down, ctx)
  {
    ctx := RekeyMisses();
  }

  // ---------- Reading back ----------

  /** A check after a write gives back the signal, context and metadata as their texts read; clean ones unchanged. */
  lemma ReadYourWrite(f: Flavour, s: State, g: Signal, now: int)
    requires Valid(s)
    ensures var answer := Step(f, Step(f, s, Write(g, now)).state, Check(g.table, g.ctx)).answer;
            var ctx := ParseKey(CtxKey(g.ctx));
            && answer == Found(Some(g.(ctx := ctx, metadata := Load(g.metadata))))
            && (Clean(g.ctx) ==> Meaning(ctx) == Meaning(OrEmpty(g.ctx)))
            && (WellKeyed(g.metadata) && Clean(g.metadata) ==> Load(g.metadata) == g.metadata)
  {
    var n := NodeOf(g.table, g.ctx);
    var val := SignalVal(g.status, g.executionTs, now, g.summary, Dumps(g.metadata));
    PutView(f, s.signals, n, val);
    FindView(Put(f, s.signals, n, val), n);
    ReadBack(g.metadata);
    KeyRoundTrip(g.ctx);
    if WellKeyed(g.metadata) { LoadFixes(g.metadata); }
  }

  /** Contexts isolate: a write is invisible to a check for another table or for a context with another key. */
  lemma WriteSparesOthers(f: Flavour, s: State, g: Signal, now: int, table: string, ctx: Context)
    requires Valid(s)
    requires table != g.table || Split(SortKeys(OrEmpty(ctx))) != Split(SortKeys(OrEmpty(g.ctx)))
    ensures Step(f, Step(f, s, Write(g, now)).state, Check(table, ctx)).answer == Step(f, s, Check(table, ctx)).answer
  {
    KeyIdentifies(ctx, g.ctx);
    var n, m := NodeOf(g.table, g.ctx), NodeOf(table, ctx);
    var val := SignalVal(g.status, g.executionTs, now, g.summary, Dumps(g.metadata));
    PutView(f, s.signals, n, val);
    FindView(s.signals, m);
    FindView(Put(f, s.signals, n, val), m);
  }

  /** Some row of the node holds the result. */
  predicate HasResult(dq: seq<Row<DqKey, DqVal>>, n: Node, x: DqResult) {
    exists row :: row in dq && row.key.node == n && ResultAt(row) == x
  }

  lemma ResultsMembers(dq: seq<Row<DqKey, DqVal>>, n: Node, x: DqResult)
    ensures x in ResultsOf(dq, n) <==> HasResult(dq, n, x)
  {
    var p := (k: DqKey) => k.node == n;
    var rows := Select(dq, p);
    SelectMembers(dq, p);
    assert ResultsOf(dq, n) == MapAll(rows, ResultAt);
    if x in MapAll(rows, ResultAt) {
      var i :| 0 <= i < |rows| && MapAll(rows, ResultAt)[i] == x;
      assert rows[i] in rows;
    }
    if row :| row in dq && row.key.node == n && ResultAt(row) == x {
      assert row in rows;
      var i :| 0 <= i < |rows| && rows[i] == row;
      assert MapAll(rows, ResultAt)[i] == x;
    }
  }

  /** The positions of the rows whose upstream is n. */
  function RowsAt(deps: seq<Row<DepKey, Policy>>, n: Node): set<int> {
    set i | 0 <= i < |deps| && deps[i].key.up == n
  }

  predicate HasDependent(deps: seq<Row<DepKey, Policy>>, n: Node, d: Dependent) {
    exists r :: r in deps && r.key.up == n && DependentAt(r) == d
  }

  /** The parsed dependent of each row of the node, once per row, and nothing else. */
  ghost predicate ListsRows(dependents: seq<Dependent>, deps: seq<Row<DepKey, Policy>>, n: Node) {
    (forall d :: d in dependents <==> HasDependent(deps, n, d)) && |dependents| == |RowsAt(deps, n)|
  }

  lemma DependentsListed(deps: seq<Row<DepKey, Policy>>, n: Node)
    ensures ListsRows(DependentsOf(deps, n), deps, n)
  {
    var rows := DownstreamRows(deps, n);
    SelectMembers(deps, (k: DepKey) => k.up == n);
    RowsCounted(deps, n);
    forall d ensures d in MapAll(rows, DependentAt) <==> HasDependent(deps, n, d) {
      if HasDependent(deps, n, d) {
        var r :| r in deps && r.key.up == n && DependentAt(r) == d;
        var i :| 0 <= i < |rows| && rows[i] == r;
        assert MapAll(rows, DependentAt)[i] == d;
      }
      if d in MapAll(rows, DependentAt) {
        var i :| 0 <= i < |rows| && MapAll(rows, DependentAt)[i] == d;
        assert rows[i] in rows;
      }
    }
  }

  lemma RowsAtAppend(deps: seq<Row<DepKey, Policy>>, last: Row<DepKey, Policy>, n: Node)
    ensures |RowsAt(deps + [last], n)| == |RowsAt(deps, n)| + if last.key.up == n then 1 else 0
  {
    var one := if last.key.up == n then {|deps|} else {};
    assert RowsAt(deps + [last], n) == RowsAt(deps, n) + one;
  }

  lemma DownstreamAppend(deps: seq<Row<DepKey, Policy>>, last: Row<DepKey, Policy>, n: Node)
    ensures |DownstreamRows(deps + [last], n)| == |DownstreamRows(deps, n)| + if last.key.up == n then 1 else 0
  {
    SelectAppend(deps, last, (k: DepKey) => k.up == n);
  }

  lemma {:induction false} RowsCounted(deps: seq<Row<DepKey, Policy>>, n: Node)
    ensures |DownstreamRows(deps, n)| == |RowsAt(deps, n)|
    decreases |deps|
  {
    if deps != [] {
      var front, last := deps[..|deps| - 1], deps[|deps| - 1];
      RowsCounted(front, n);
      assert deps == front + [last];
      RowsAtAppend(front, last, n);
      DownstreamAppend(front, last, n);
    }
  }

  /** Of the rows of n after an upsert, the one of the check that was written is the new one. */
  lemma PutResult(f: Flavour, dq: seq<Row<DqKey, DqVal>>, k: DqKey, v: DqVal, x: DqResult)
    requires Unique(dq)
    ensures var listed := ResultsOf(Put(f, dq, k, v), k.node);
            ResultAt(Row(k, v)) in listed && (x in listed && x.check == k.check ==> x == ResultAt(Row(k, v)))
  {
    var after := Put(f, dq, k, v);
    PutView(f, dq, k, v);
    ViewRows(after);
    assert Row(k, v) in after;
    ResultsMembers(after, k.node, ResultAt(Row(k, v)));
    ResultsMembers(after, k.node, x);
    if row :| row in after && row.key.node == k.node && ResultAt(row) == x && x.check == k.check {
      assert row.key == k;
    }
  }

  /** The stored result of a check is the last one written. */
  lemma ResultsReadBack(f: Flavour, s: State, r: DqResult, x: DqResult)
    requires Valid(s)
    ensures var listed := ResultsOf(Step(f, s, WriteDq(r)).state.dq, NodeOf(r.table, r.ctx));
            var stored := r.(ctx := ParseKey(CtxKey(r.ctx)));
            stored in listed && (x in listed && x.check == r.check ==> x == stored)
  {
    PutResult(f, s.dq, DqKey(NodeOf(r.table, r.ctx), r.check), DqVal(r.passed, r.details, r.executedAt), x);
  }

  /** Clearing the results of a table and context leaves none of them, and every other one. */
  lemma ClearedResults(dq: seq<Row<DqKey, DqVal>>, n: Node)
    ensures ResultsOf(ClearResults(dq, n), n) == []
    ensures forall r :: r in ClearResults(dq, n) <==> r in dq && r.key.node != n
  {
    var gone, p := ClearResults(dq, n), (k: DqKey) => k.node == n;
    SelectMembers(dq, (k: DqKey) => k.node != n);
    SelectMembers(gone, p);
    if Select(gone, p) != [] { assert Select(gone, p)[0] in Select(gone, p); }
  }

  lemma PutDependency(deps: seq<Row<DepKey, Policy>>, key: DepKey, policy: Policy, x: Row<DepKey, Policy>)
    requires Unique(deps)
    ensures x in DownstreamRows(Put(DbApi, deps, key, policy), key.up) <==>
            x == Row(key, policy) || (x in deps && x.key.up == key.up && x.key != key)
  {
    var after := Put(DbApi, deps, key, policy);
    PutView(DbApi, deps, key, policy);
    ViewRows(after);
    ViewRows(deps);
    SelectMembers(after, (k: DepKey) => k.up == key.up);
  }

  /** A registered dependency is listed once, with the policy registered last; the others stay. */
  lemma RegisteredIsListed(f: Flavour, s: State, up: string, down: string, policy: string,
      upCtx: Context, downCtx: Context,
                           x: Row<DepKey, Policy>)
    requires Valid(s) && (policy == "notify" || policy == "cascade")
    ensures var row := Row(DepKey(NodeOf(up, upCtx), NodeOf(down, downCtx)),
                    if policy == "notify" then Notify else Cascade);
            x in DownstreamRows(Step(f, s, RegisterDep(up, down, policy, upCtx, downCtx)).state.deps,
              NodeOf(up, upCtx)) <==>
            x == row || (x in s.deps && x.key.up == row.key.up && x.key != row.key)
  {
    var row := Row(DepKey(NodeOf(up, upCtx), NodeOf(down, downCtx)), if policy == "notify" then Notify else Cascade);
    PutDependency(s.deps, row.key, row.val, x);
  }
}
