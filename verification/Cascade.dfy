/**
  The recursive delete of the signal stores as a walk over the dependency rows: which nodes it
  removes, which callbacks it fires and how often, and when it comes to an end.

  A node is a table with the key of a context. The walk keeps no visited set, so it follows
  every path of cascade rows. Its budget is the number of nested calls the interpreter still
  allows: Python ends a recursion that goes too deep with RecursionError.
*/
module Cascade {
  import opened Json
  import opened Tables

  datatype Node = Node(table: string, key: Text)

  datatype Policy = Notify | Cascade

  datatype DepKey = DepKey(up: Node, down: Node)

  /** What following a row means: its policy, and the node that a cascade goes on from. */
  datatype Hop = Hop(policy: Policy, target: Node)

  type Link = Row<DepKey, Hop>

  /** The rows of get_downstream. */
  function Downstream(links: seq<Link>, n: Node): seq<Link> {
    Select(links, (k: DepKey) => k.up == n)
  }

  /** A walk: whether it ended normally, the nodes it deleted and the notify rows it called for, in order. */
  datatype Walk = Walk(done: bool, deleted: seq<Node>, called: seq<Link>)

  function Visit(links: seq<Link>, n: Node, budget: nat): Walk
    decreases budget, 0
  {
    if budget == 0 then Walk(false, [], [])
    else
      var w := VisitRows(links, Downstream(links, n), budget - 1);
      Walk(w.done, [n] + w.deleted, w.called)
  }

  function VisitRow(links: seq<Link>, d: Link, budget: nat): Walk
    decreases budget, 1
  {
    if d.val.policy.Cascade? then Visit(links, d.val.target, budget) else Walk(true, [], [d])
  }

  function VisitRows(links: seq<Link>, rows: seq<Link>, budget: nat): Walk
    decreases budget, 2, |rows|
  {
    if rows == [] then Walk(true, [], [])
    else
      var first := VisitRow(links, rows[0], budget);
      if !first.done then first
      else
        var rest := VisitRows(links, rows[1..], budget);
        Walk(rest.done, first.deleted + rest.deleted, first.called + rest.called)
  }

  /** A row whose cascade raises ends the walk: what comes after it is not followed. */
  lemma {:induction false} RaiseEndsWalk(links: seq<Link>, before: seq<Link>, d: Link, after: seq<Link>, budget: nat)
    requires !VisitRow(links, d, budget).done
    ensures VisitRows(links, before + ([d] + after), budget) == VisitRows(links, before + [d], budget)
    ensures !VisitRows(links, before + [d], budget).done
    decreases |before|
  {
    var long, short := before + ([d] + after), before + [d];
    if before == [] {
      assert long[0] == d && short[0] == d;
    } else {
      assert long[0] == before[0] == short[0];
      assert long[1..] == before[1..] + ([d] + after) && short[1..] == before[1..] + [d];
      RaiseEndsWalk(links, before[1..], d, after, budget);
    }
  }

  // ---------- Paths: what the walk is compared with ----------

  /** p is a chain of cascade rows that leads from a to b. */
  predicate IsPath(links: seq<Link>, a: Node, p: seq<Link>, b: Node)
    decreases |p|
  {
    if p == [] then a == b
    else p[0] in links && p[0].val.policy.Cascade? && p[0].key.up == a && IsPath(links, p[0].val.target, p[1..], b)
  }

  ghost predicate Reaches(links: seq<Link>, a: Node, b: Node) {
    exists p: seq<Link> :: IsPath(links, a, p, b)
  }

  /** No node that the walk can come to lies on a cycle of cascade rows. */
  ghost predicate AcyclicFrom(links: seq<Link>, a: Node) {
    forall p: seq<Link>, m, q :: IsPath(links, a, p, m) && IsPath(links, m, q, m) ==> q == []
  }

  /** Every path from a is shorter than the budget. */
  ghost predicate Shallow(links: seq<Link>, a: Node, budget: nat) {
    forall p: seq<Link>, m :: IsPath(links, a, p, m) ==> |p| < budget
  }

  lemma {:induction false} JoinPaths(links: seq<Link>, a: Node, p: seq<Link>, m: Node, q: seq<Link>, b: Node)
    requires IsPath(links, a, p, m) && IsPath(links, m, q, b)
    ensures IsPath(links, a, p + q, b)
    decreases |p|
  {
    if p == [] {
      assert p + q == q;
    } else {
      JoinPaths(links, p[0].val.target, p[1..], m, q, b);
      assert (p + q)[0] == p[0] && (p + q)[1..] == p[1..] + q;
    }
  }

  function End(a: Node, p: seq<Link>): Node {
    if p == [] then a else p[|p| - 1].val.target
  }

  lemma {:induction false} SplitPath(links: seq<Link>, a: Node, p: seq<Link>, b: Node, i: nat)
    requires IsPath(links, a, p, b) && i <= |p|
    ensures End(a, p) == b
    ensures IsPath(links, a, p[..i], End(a, p[..i])) && IsPath(links, End(a, p[..i]), p[i..], b)
    ensures i < |p| ==> p[i] in links && p[i].val.policy.Cascade? && p[i].key.up == End(a, p[..i])
    decreases |p|
  {
    if p != [] {
      SplitPath(links, p[0].val.target, p[1..], b, if i == 0 then 0 else i - 1);
      if i > 0 {
        assert p[..i][1..] == p[1..][..i - 1];
        assert p[i..] == p[1..][i - 1..];
      } else {
        assert p[..0] == [] && p[0..] == p;
      }
    }
  }

  // ---------- Termination ----------

  lemma {:induction false} VisitEnds(links: seq<Link>, n: Node, budget: nat)
    ensures Visit(links, n, budget).done <==> Shallow(links, n, budget)
    decreases budget, 0
  {
    if budget == 0 {
      assert IsPath(links, n, [], n);
    } else {
      var rows := Downstream(links, n);
      SelectMembers(links, (k: DepKey) => k.up == n);
      VisitRowsEnd(links, rows, budget - 1);
      if Visit(links, n, budget).done {
        forall p: seq<Link>, m | IsPath(links, n, p, m) ensures |p| < budget {
          if p != [] {
            assert p[0] in rows;
            assert Shallow(links, p[0].val.target, budget - 1);
            assert IsPath(links, p[0].val.target, p[1..], m);
          }
        }
      }
      if Shallow(links, n, budget) {
        forall d | d in rows && d.val.policy.Cascade? ensures Shallow(links, d.val.target, budget - 1) {
          forall p: seq<Link>, m | IsPath(links, d.val.target, p, m) ensures |p| < budget - 1 {
            assert ([d] + p)[1..] == p;
            assert IsPath(links, n, [d] + p, m);
          }
        }
      }
    }
  }

  lemma {:induction false} VisitRowsEnd(links: seq<Link>, rows: seq<Link>, budget: nat)
    ensures VisitRows(links, rows, budget).done <==>
            forall d :: d in rows && d.val.policy.Cascade? ==> Shallow(links, d.val.target, budget)
    decreases budget, 1, |rows|
  {
    if rows != [] {
      VisitRowsEnd(links, rows[1..], budget);
      assert rows == [rows[0]] + rows[1..];
      if rows[0].val.policy.Cascade? { VisitEnds(links, rows[0].val.target, budget); }
    }
  }

  lemma {:induction false} PathRows(links: seq<Link>, a: Node, p: seq<Link>, b: Node)
    requires IsPath(links, a, p, b)
    ensures forall d :: d in p ==> d in links
    decreases |p|
  {
    if p != [] {
      PathRows(links, p[0].val.target, p[1..], b);
      assert p == [p[0]] + p[1..];
    }
  }

  /** A path longer than the number of dependency rows repeats a row, and so goes round a cycle. */
  lemma LongPathCycles(links: seq<Link>, a: Node, p: seq<Link>, b: Node)
    requires IsPath(links, a, p, b) && |p| > |links|
    ensures !AcyclicFrom(links, a)
  {
    PathRows(links, a, p, b);
    var i, j := Pigeonhole(p, links);
    var v := p[i].key.up;
    SplitPath(links, a, p, b, j);
    SplitPath(links, a, p, b, i);
    SplitPath(links, a, p[..j], End(a, p[..j]), i);
    assert p[..j][..i] == p[..i] && p[..j][i..] == p[i..j];
    assert IsPath(links, a, p[..i], v) && IsPath(links, v, p[i..j], v) && p[i..j] != [];
  }

  /** Without a reachable cycle no path is longer than the number of dependency rows. */
  lemma AcyclicIsShallow(links: seq<Link>, a: Node)
    requires AcyclicFrom(links, a)
    ensures Shallow(links, a, |links| + 1)
  {
    forall p: seq<Link>, m | IsPath(links, a, p, m) ensures |p| <= |links| {
      if |p| > |links| {
        LongPathCycles(links, a, p, m);
      }
    }
  }

  lemma {:induction false} Pump(links: seq<Link>, v: Node, q: seq<Link>, k: nat) returns (p: seq<Link>)
    requires IsPath(links, v, q, v) && q != []
    ensures IsPath(links, v, p, v) && |p| >= k
    decreases k
  {
    if k == 0 {
      p := [];
    } else {
      p := Pump(links, v, q, k - 1);
      JoinPaths(links, v, q, v, p, v);
      p := q + p;
    }
  }

  /**
    The delete ends exactly when no cycle of cascade rows is reachable: a recursion one deeper
    than the number of rows is then enough, and with a reachable cycle no depth is.
  */
  lemma DeleteTerminates(links: seq<Link>, n: Node)
    ensures AcyclicFrom(links, n) <==> Visit(links, n, |links| + 1).done
    ensures AcyclicFrom(links, n) <==> exists budget :: Visit(links, n, budget).done
    ensures AcyclicFrom(links, n) ==> forall budget :: budget > |links| ==> Visit(links, n, budget).done
  {
    if AcyclicFrom(links, n) {
      AcyclicIsShallow(links, n);
      forall budget: nat | budget > |links| ensures Visit(links, n, budget).done {
        VisitEnds(links, n, budget);
      }
    }
    if budget :| Visit(links, n, budget).done {
      VisitEnds(links, n, budget);
      forall p: seq<Link>, m, q | IsPath(links, n, p, m) && IsPath(links, m, q, m) ensures q == [] {
        if q != [] {
          var long := Pump(links, m, q, budget);
          JoinPaths(links, n, p, m, long, m);
        }
      }
    }
  }

  // ---------- Which nodes are deleted, and along how many paths ----------

  /** The paths from n to m of fewer than budget rows. */
  ghost function Paths(links: seq<Link>, n: Node, m: Node, budget: nat): set<seq<Link>>
    decreases budget, 1
  {
    if budget == 0 then {}
    else (if n == m then {[]} else {}) + PathsVia(links, Downstream(links, n), m, budget - 1)
  }

  /** The paths to m whose first row is one of the cascade rows given. */
  ghost function PathsVia(links: seq<Link>, rows: seq<Link>, m: Node, budget: nat): set<seq<Link>>
    decreases budget, 2, |rows|
  {
    if rows == [] then {}
    else
      (if rows[0].val.policy.Cascade? then Prefixed(rows[0], Paths(links, rows[0].val.target, m, budget)) else {})
      + PathsVia(links, rows[1..], m, budget)
  }

  ghost function Prefixed(d: Link, ps: set<seq<Link>>): set<seq<Link>> {
    set p | p in ps :: [d] + p
  }

  lemma {:induction false} PrefixedSize(d: Link, ps: set<seq<Link>>)
    ensures |Prefixed(d, ps)| == |ps|
    decreases |ps|
  {
    if ps != {} {
      var p :| p in ps;
      PrefixedSize(d, ps - {p});
      var rest := Prefixed(d, ps - {p});
      assert Prefixed(d, ps) == rest + {[d] + p};
      forall q | q in ps - {p} ensures [d] + q != [d] + p {
        assert ([d] + q)[1..] == q && ([d] + p)[1..] == p;
      }
    }
  }

  lemma {:induction false} PathsExact(links: seq<Link>, n: Node, m: Node, budget: nat)
    ensures forall p :: p in Paths(links, n, m, budget) <==> IsPath(links, n, p, m) && |p| < budget
    decreases budget, 1
  {
    if budget > 0 {
      var rows := Downstream(links, n);
      SelectMembers(links, (k: DepKey) => k.up == n);
      PathsViaExact(links, rows, m, budget - 1);
    }
  }

  lemma {:induction false} PathsViaExact(links: seq<Link>, rows: seq<Link>, m: Node, budget: nat)
    ensures forall p: seq<Link> :: p in PathsVia(links, rows, m, budget) <==>
              p != [] && p[0] in rows && p[0].val.policy.Cascade?
              && IsPath(links, p[0].val.target, p[1..], m) && |p| <= budget
    decreases budget, 2, |rows|
  {
    if rows != [] {
      var d := rows[0];
      var ps := Paths(links, d.val.target, m, budget);
      PathsExact(links, d.val.target, m, budget);
      PathsViaExact(links, rows[1..], m, budget);
      assert rows == [d] + rows[1..];
      forall p ensures p in Prefixed(d, ps) <==> p != [] && p[0] == d && p[1..] in ps {
        if p != [] && p[0] == d && p[1..] in ps { assert p == [d] + p[1..]; }
        if p in Prefixed(d, ps) { var q :| q in ps && p == [d] + q; assert p[1..] == q; }
      }
    }
  }

  lemma AddEmptyPath(via: set<seq<Link>>)
    requires [] !in via
    ensures |{[]} + via| == 1 + |via|
  {
  }

  lemma PathsSplit(links: seq<Link>, n: Node, m: Node, budget: nat)
    requires budget > 0
    ensures |Paths(links, n, m, budget)| ==
            (if n == m then 1 else 0) + |PathsVia(links, Downstream(links, n), m, budget - 1)|
  {
    var via := PathsVia(links, Downstream(links, n), m, budget - 1);
    PathsViaExact(links, Downstream(links, n), m, budget - 1);
    AddEmptyPath(via);
    assert {} + via == via;
  }

  /** A walk that ends deletes each node once for every path that leads to it. */
  lemma {:induction false} DeletedCount(links: seq<Link>, n: Node, m: Node, budget: nat)
    requires Unique(links) && Visit(links, n, budget).done
    ensures multiset(Visit(links, n, budget).deleted)[m] == |Paths(links, n, m, budget)|
    decreases budget, 1
  {
    SelectUnique(links, (k: DepKey) => k.up == n);
    DeletedCountRows(links, Downstream(links, n), m, budget - 1);
    PathsSplit(links, n, m, budget);
  }

  lemma {:induction false} DeletedCountRows(links: seq<Link>, rows: seq<Link>, m: Node, budget: nat)
    requires Unique(links) && Unique(rows) && VisitRows(links, rows, budget).done
    ensures multiset(VisitRows(links, rows, budget).deleted)[m] == |PathsVia(links, rows, m, budget)|
    decreases budget, 2, |rows|
  {
    if rows != [] {
      var d := rows[0];
      UniqueHead(rows);
      DeletedCountRows(links, rows[1..], m, budget);
      if d.val.policy.Cascade? {
        DeletedCount(links, d.val.target, m, budget);
        var ps := Paths(links, d.val.target, m, budget);
        var via := PathsVia(links, rows[1..], m, budget);
        PrefixedSize(d, ps);
        PathsViaExact(links, rows[1..], m, budget);
        assert Prefixed(d, ps) !! via;
        assert |Prefixed(d, ps) + via| == |Prefixed(d, ps)| + |via|;
      }
    }
  }

  /** A walk that ends calls for each notify row once for every time it deletes the row's upstream. */
  lemma {:induction false} CalledCount(links: seq<Link>, n: Node, d: Link, budget: nat)
    requires Unique(links) && Visit(links, n, budget).done
    ensures multiset(Visit(links, n, budget).called)[d] ==
            if d in links && d.val.policy.Notify? then multiset(Visit(links, n, budget).deleted)[d.key.up] else 0
    decreases budget, 1
  {
    var rows := Downstream(links, n);
    SelectMembers(links, (k: DepKey) => k.up == n);
    SelectUnique(links, (k: DepKey) => k.up == n);
    CountUnique(rows, d);
    CalledCountRows(links, rows, d, budget - 1);
  }

  lemma {:induction false} CalledCountRows(links: seq<Link>, rows: seq<Link>, d: Link, budget: nat)
    requires Unique(links) && (forall r :: r in rows ==> r in links) && VisitRows(links, rows, budget).done
    ensures multiset(VisitRows(links, rows, budget).called)[d] ==
            if d in links && d.val.policy.Notify?
            then multiset(rows)[d] + multiset(VisitRows(links, rows, budget).deleted)[d.key.up]
            else 0
    decreases budget, 2, |rows|
  {
    if rows != [] {
      assert rows == [rows[0]] + rows[1..];
      CalledCountRows(links, rows[1..], d, budget);
      if rows[0].val.policy.Cascade? { CalledCount(links, rows[0].val.target, d, budget); }
    }
  }

  /** Even a walk that is cut off deletes only nodes that the start reaches. */
  lemma {:induction false} DeletedIsReached(links: seq<Link>, n: Node, m: Node, budget: nat)
    requires m in Visit(links, n, budget).deleted
    ensures Reaches(links, n, m)
    decreases budget, 1
  {
    if n == m {
      assert IsPath(links, n, [], m);
    } else {
      SelectMembers(links, (k: DepKey) => k.up == n);
      var d := DeletedByRow(links, Downstream(links, n), m, budget - 1);
      var p :| IsPath(links, d.val.target, p, m);
      assert ([d] + p)[1..] == p;
      assert IsPath(links, n, [d] + p, m);
    }
  }

  lemma {:induction false} DeletedByRow(links: seq<Link>, rows: seq<Link>, m: Node, budget: nat) returns (d: Link)
    requires m in VisitRows(links, rows, budget).deleted
    ensures d in rows && d.val.policy.Cascade? && Reaches(links, d.val.target, m)
    decreases budget, 2, |rows|
  {
    if m in VisitRow(links, rows[0], budget).deleted {
      d := rows[0];
      DeletedIsReached(links, d.val.target, m, budget);
    } else {
      d := DeletedByRow(links, rows[1..], m, budget);
    }
  }

  /** A walk that ends deletes exactly the nodes that the start reaches by zero or more cascade rows. */
  lemma DeletedExact(links: seq<Link>, n: Node, m: Node, budget: nat)
    requires Unique(links) && Visit(links, n, budget).done
    ensures m in Visit(links, n, budget).deleted <==> Reaches(links, n, m)
  {
    DeletedCount(links, n, m, budget);
    PathsExact(links, n, m, budget);
    VisitEnds(links, n, budget);
    if p :| IsPath(links, n, p, m) {
      assert p in Paths(links, n, m, budget);
    }
    if m in Visit(links, n, budget).deleted { DeletedIsReached(links, n, m, budget); }
  }

  /**
    Notification counting: on a walk that ends, the callback of a notify row fires as often as
    there are distinct cascade paths from the deleted node to the row's upstream node.
  */
  lemma NotifiedPerPath(links: seq<Link>, n: Node, d: Link, budget: nat) returns (paths: set<seq<Link>>)
    requires Unique(links) && d in links && d.val.policy.Notify?
    requires Visit(links, n, budget).done
    ensures forall p :: p in paths <==> IsPath(links, n, p, d.key.up)
    ensures multiset(Visit(links, n, budget).called)[d] == |paths|
  {
    paths := Paths(links, n, d.key.up, budget);
    PathsExact(links, n, d.key.up, budget);
    VisitEnds(links, n, budget);
    CalledCount(links, n, d, budget);
    DeletedCount(links, n, d.key.up, budget);
  }

  // ---------- The order of the rows does not matter ----------

  lemma {:induction false} SamePaths(a: seq<Link>, b: seq<Link>, n: Node, p: seq<Link>, m: Node)
    requires forall d :: d in a <==> d in b
    ensures IsPath(a, n, p, m) <==> IsPath(b, n, p, m)
    decreases |p|
  {
    if p != [] { SamePaths(a, b, p[0].val.target, p[1..], m); }
  }

  /** Over the same rows in another order a walk ends alike, deletes and calls for the same with the same counts. */
  lemma OrderIrrelevant(a: seq<Link>, b: seq<Link>, n: Node, budget: nat)
    requires Unique(a) && Unique(b) && multiset(a) == multiset(b)
    ensures Visit(a, n, budget).done <==> Visit(b, n, budget).done
    ensures Visit(a, n, budget).done ==>
              && multiset(Visit(a, n, budget).deleted) == multiset(Visit(b, n, budget).deleted)
              && multiset(Visit(a, n, budget).called) == multiset(Visit(b, n, budget).called)
  {
    forall d ensures d in a <==> d in b {
      assert d in a <==> d in multiset(a);
      assert d in b <==> d in multiset(b);
    }
    forall p: seq<Link>, m ensures IsPath(a, n, p, m) <==> IsPath(b, n, p, m) { SamePaths(a, b, n, p, m); }
    VisitEnds(a, n, budget);
    VisitEnds(b, n, budget);
    if Visit(a, n, budget).done {
      var x, y := Visit(a, n, budget), Visit(b, n, budget);
      forall m ensures multiset(x.deleted)[m] == multiset(y.deleted)[m] {
        DeletedCount(a, n, m, budget);
        DeletedCount(b, n, m, budget);
        PathsExact(a, n, m, budget);
        PathsExact(b, n, m, budget);
        assert Paths(a, n, m, budget) == Paths(b, n, m, budget);
      }
      forall d ensures multiset(x.called)[d] == multiset(y.called)[d] {
        CalledCount(a, n, d, budget);
        CalledCount(b, n, d, budget);
      }
    }
  }
}
