// Dependency graphs: cycles, topological orders and the greedy order of Kahn's algorithm.
module Dag {
  import opened IdOrder

  /** A node maps to the set of nodes it depends on. */
  type Graph = map<TaskId, set<TaskId>>

  ghost predicate Closed(g: Graph) {
    forall x :: x in g ==> g[x] <= g.Keys
  }

  ghost predicate Ready(g: Graph, done: set<TaskId>, x: TaskId) {
    x in g && x !in done && g[x] <= done
  }

  /** Every element of `o` is a node, occurs once, and comes after its dependencies. */
  ghost predicate Ordered(g: Graph, o: seq<TaskId>) {
    Distinct(o) && forall k :: 0 <= k < |o| ==> o[k] in g && g[o[k]] <= Elems(o[..k])
  }

  ghost predicate Topological(g: Graph, o: seq<TaskId>) {
    Ordered(g, o) && Elems(o) == g.Keys
  }

  /** `o` always takes the least node that is ready. */
  ghost predicate Greedy(g: Graph, o: seq<TaskId>) {
    o == [] || (var k := |o| - 1; Greedy(g, o[..k]) && Least(g, Elems(o[..k]), o[k]))
  }

  lemma {:induction false} GreedyAt(g: Graph, o: seq<TaskId>, k: nat)
    requires Greedy(g, o) && k < |o|
    ensures Least(g, Elems(o[..k]), o[k])
  {
    var front := o[..|o| - 1];
    if k < |front| {
      GreedyAt(g, front, k);
      assert front[..k] == o[..k];
    }
  }

  ghost predicate Least(g: Graph, done: set<TaskId>, x: TaskId) {
    Ready(g, done, x) && forall y :: Ready(g, done, y) ==> Leq(x, y)
  }

  ghost predicate Stuck(g: Graph, done: set<TaskId>) {
    forall x :: !Ready(g, done, x)
  }

  /** A closed walk along dependency links. */
  ghost predicate IsCycle(g: Graph, p: seq<TaskId>) {
    |p| >= 2 && p[0] == p[|p| - 1] && IsWalk(g, p)
  }

  ghost predicate IsWalk(g: Graph, p: seq<TaskId>) {
    forall i :: 0 <= i < |p| - 1 ==> p[i] in g && p[i + 1] in g[p[i]]
  }

  ghost predicate Acyclic(g: Graph) {
    forall p :: !IsCycle(g, p)
  }

  /** `a` comes no later than `b` when sequences are compared position by position. */
  ghost predicate LexLeq(a: seq<TaskId>, b: seq<TaskId>) {
    a <= b || exists k :: 0 <= k < |a| && k < |b| && a[..k] == b[..k] && a[k] != b[k] && Leq(a[k], b[k])
  }

  /** What Kahn's loop followed by its fallback produces. */
  ghost predicate KahnResult(g: Graph, out: seq<TaskId>, n: nat) {
    && n <= |out|
    && Distinct(out) && Elems(out) == g.Keys
    && Greedy(g, out[..n]) && Stuck(g, Elems(out[..n]))
    && Sorted(out[n..])
  }

  lemma GreedyIsOrdered(g: Graph, o: seq<TaskId>)
    requires Greedy(g, o)
    ensures Ordered(g, o)
  {
    forall i, j | 0 <= i < j < |o| ensures o[i] != o[j] {
      GreedyAt(g, o, j);
      assert o[i] == o[..j][i];
    }
    forall k | 0 <= k < |o| ensures o[k] in g && g[o[k]] <= Elems(o[..k]) {
      GreedyAt(g, o, k);
    }
  }

  /** Following a walk that enters `o` leads to ever earlier positions of `o`. */
  lemma {:induction false} WalkDescends(g: Graph, o: seq<TaskId>, p: seq<TaskId>, k: nat) returns (m: nat)
    requires Ordered(g, o) && IsWalk(g, p) && p != []
    requires k < |o| && o[k] == p[0]
    ensures m + |p| <= k + 1 && o[m] == p[|p| - 1]
  {
    if |p| == 1 {
      m := k;
    } else {
      assert p[1] in g[p[0]];
      assert p[1] in o[..k];
      var j :| 0 <= j < k && o[j] == p[1];
      assert IsWalk(g, p[1..]) by {
        forall i | 0 <= i < |p[1..]| - 1 ensures p[1..][i] in g && p[1..][i + 1] in g[p[1..][i]] {
          assert p[i + 1] in g && p[i + 2] in g[p[i + 1]];
        }
      }
      m := WalkDescends(g, o, p[1..], j);
    }
  }

  /** No node of a cycle can appear in an order that respects dependencies. */
  lemma CycleAvoidsOrder(g: Graph, o: seq<TaskId>, p: seq<TaskId>)
    requires Ordered(g, o) && IsCycle(g, p)
    ensures p[0] !in o
  {
    if p[0] in o {
      var k :| 0 <= k < |o| && o[k] == p[0];
      var m := WalkDescends(g, o, p, k);
    }
  }

  /** In a set where every node depends on another node of the set, walks go on for ever. */
  lemma {:induction false} WalkInside(g: Graph, r: set<TaskId>, x: TaskId, n: nat) returns (p: seq<TaskId>)
    requires r <= g.Keys && x in r
    requires forall y :: y in r ==> g[y] * r != {}
    ensures |p| == n + 1 && p[0] == x && IsWalk(g, p) && Elems(p) <= r
    decreases n
  {
    if n == 0 {
      p := [x];
    } else {
      var y :| y in g[x] * r;
      var q := WalkInside(g, r, y, n - 1);
      p := [x] + q;
      assert Elems(p) == {x} + Elems(q) by {
        forall z ensures z in Elems(p) <==> z in {x} + Elems(q) {
          assert z in p <==> z == x || z in q;
        }
      }
      forall i | 0 <= i < |p| - 1 ensures p[i] in g && p[i + 1] in g[p[i]] {
        if i > 0 { assert p[i] == q[i - 1] && p[i + 1] == q[i]; }
      }
    }
  }

  lemma SubsetCardinality<T>(a: set<T>, b: set<T>)
    requires a <= b
    ensures |a| <= |b|
  {
    assert b == a + (b - a);
  }

  /** A node set that cannot be left along dependencies contains a cycle. */
  lemma TrappedHasCycle(g: Graph, r: set<TaskId>) returns (c: seq<TaskId>)
    requires r <= g.Keys && r != {}
    requires forall y :: y in r ==> g[y] * r != {}
    ensures IsCycle(g, c)
  {
    var x :| x in r;
    var p := WalkInside(g, r, x, |r|);
    if Distinct(p) {
      DistinctCardinality(p);
      SubsetCardinality(Elems(p), r);
      assert false;
    }
    var i, j :| 0 <= i < j < |p| && p[i] == p[j];
    c := p[i..j + 1];
    forall k | 0 <= k < |c| - 1 ensures c[k] in g && c[k + 1] in g[c[k]] {
      assert c[k] == p[i + k] && c[k + 1] == p[i + k + 1];
    }
  }

  /** Nodes that Kahn's loop leaves over can only be there because of a cycle, and conversely. */
  lemma LeftoverIffCycle(g: Graph, o: seq<TaskId>)
    requires Closed(g) && Greedy(g, o) && Stuck(g, Elems(o))
    ensures Elems(o) != g.Keys <==> !Acyclic(g)
  {
    GreedyIsOrdered(g, o);
    assert Elems(o) <= g.Keys;
    if Elems(o) != g.Keys {
      var r := g.Keys - Elems(o);
      var z :| z in g.Keys && z !in Elems(o);
      assert z in r;
      forall y | y in r ensures g[y] * r != {} {
        assert !Ready(g, Elems(o), y);
        var d :| d in g[y] && d !in Elems(o);
        assert d in g[y] * r;
      }
      var c := TrappedHasCycle(g, r);
    }
    if !Acyclic(g) {
      var p :| IsCycle(g, p);
      CycleAvoidsOrder(g, o, p);
      assert p[0] in g;
    }
  }

  /** An acyclic graph's greedy order is least among all its topological orders. */
  lemma GreedyIsLexLeast(g: Graph, a: seq<TaskId>, b: seq<TaskId>)
    requires Greedy(g, a) && Topological(g, a) && Topological(g, b)
    ensures LexLeq(a, b)
  {
    DistinctCardinality(a);
    DistinctCardinality(b);
    if a != b {
      var k := FirstDifference(a, b);
      var done := Elems(a[..k]);
      GreedyAt(g, a, k);
      assert Ready(g, done, b[k]) by {
        assert b[k] !in b[..k];
      }
    }
  }

  lemma {:induction false} FirstDifference(a: seq<TaskId>, b: seq<TaskId>) returns (k: nat)
    requires |a| == |b| && a != b
    ensures k < |a| && a[..k] == b[..k] && a[k] != b[k]
  {
    if a[0] != b[0] {
      k := 0;
    } else {
      assert a == [a[0]] + a[1..] && b == [b[0]] + b[1..];
      var j := FirstDifference(a[1..], b[1..]);
      k := j + 1;
      assert a[..k] == [a[0]] + a[1..][..j] && b[..k] == [b[0]] + b[1..][..j];
    }
  }

  /**
   * The order Kahn's algorithm returns: complete in every case; topological exactly when there is no
   * cycle, and then the least topological order; the fallback runs exactly when there is a cycle.
   */
  lemma KahnCorrect(g: Graph, out: seq<TaskId>, n: nat)
    requires Closed(g) && KahnResult(g, out, n)
    ensures n == |out| <==> Acyclic(g)
    ensures Topological(g, out) <==> Acyclic(g)
    ensures Acyclic(g) ==> forall o :: Topological(g, o) ==> LexLeq(out, o)
  {
    var main := out[..n];
    LeftoverIffCycle(g, main);
    GreedyIsOrdered(g, main);
    if n == |out| {
      assert main == out;
    } else {
      assert out[n] in g.Keys && out[n] !in Elems(main);
    }
    if Topological(g, out) && !Acyclic(g) {
      var p :| IsCycle(g, p);
      CycleAvoidsOrder(g, out, p);
    }
    if Acyclic(g) {
      forall o | Topological(g, o) ensures LexLeq(out, o) {
        GreedyIsLexLeast(g, out, o);
      }
    }
  }
}
