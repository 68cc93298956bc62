// Session lineage: the ancestor chain and the descendants of a session, with cycle detection.
module Lineage {
  import opened Text
  import opened IdOrder

  datatype SessionId = SessionId(text: string)

  /** The branch-parent table: at most one parent for each session. */
  type Parents = map<SessionId, SessionId>

  // ---- chains ----

  /** The `n`-th parent of `x` in the table. */
  function Up(p: Parents, x: SessionId, n: nat): Option<SessionId>
    decreases n
  {
    if n == 0 then Some(x) else if x in p then Up(p, p[x], n - 1) else None
  }

  /** The `n`-th ancestor of `x` as the tracer walks: an empty parent id ends the chain. */
  function Ancestor(p: Parents, x: SessionId, n: nat): Option<SessionId>
    decreases n
  {
    if n == 0 then Some(x) else if x in p && p[x].text != "" then Ancestor(p, p[x], n - 1) else None
  }

  ghost predicate ChainRepeats(p: Parents, x: SessionId) {
    exists i: nat, j: nat :: i < j && Ancestor(p, x, i).Some? && Ancestor(p, x, i) == Ancestor(p, x, j)
  }

  ghost predicate OnLoop(p: Parents, x: SessionId) {
    exists n: nat :: n > 0 && Up(p, x, n) == Some(x)
  }

  ghost predicate DescendsFrom(p: Parents, d: SessionId, s: SessionId) {
    exists n: nat :: n > 0 && Up(p, d, n) == Some(s)
  }

  ghost predicate IsAncestorOf(p: Parents, s: SessionId, d: SessionId) {
    exists n: nat :: n > 0 && Ancestor(p, d, n) == Some(s)
  }

  lemma {:induction false} AncestorStep(p: Parents, x: SessionId, n: nat)
    ensures Ancestor(p, x, n + 1) ==
            match Ancestor(p, x, n) case None => None case Some(y) => Ancestor(p, y, 1)
    decreases n
  {
    if n > 0 && x in p && p[x].text != "" {
      AncestorStep(p, p[x], n - 1);
    }
  }

  lemma {:induction false} UpStep(p: Parents, x: SessionId, n: nat)
    ensures Up(p, x, n + 1) == match Up(p, x, n) case None => None case Some(y) => Up(p, y, 1)
    decreases n
  {
    if n > 0 && x in p {
      UpStep(p, p[x], n - 1);
    }
  }

  // ---- tracing ----

  datatype Trace = Lineage(ancestors: seq<SessionId>, descendants: seq<SessionId>) | InvalidLineage(at: SessionId)

  /** `anc` lists the first ancestors of `x`. */
  ghost predicate ListsAncestors(p: Parents, x: SessionId, anc: seq<SessionId>) {
    forall k :: 0 <= k < |anc| ==> Ancestor(p, x, k + 1) == Some(anc[k])
  }

  ghost predicate Complete(p: Parents, x: SessionId, anc: seq<SessionId>) {
    ListsAncestors(p, x, anc) && Ancestor(p, x, |anc| + 1) == None
  }

  ghost predicate AllDescendants(p: Parents, x: SessionId, desc: seq<SessionId>) {
    Distinct(desc) && forall d :: d in desc <==> DescendsFrom(p, d, x)
  }

  method Children(p: Parents, node: SessionId) returns (children: seq<SessionId>)
    ensures Distinct(children)
    ensures forall c :: c in children <==> c in p && p[c] == node
  {
    children := [];
    var rest := p.Keys;
    while rest != {}
      invariant rest <= p.Keys && Distinct(children)
      invariant forall c :: c in children <==> c in p && c !in rest && p[c] == node
      decreases rest
    {
      var c :| c in rest;
      rest := rest - {c};
      if p[c] == node { children := children + [c]; }
    }
  }

  /** The walk so far: `x` followed by its first ancestors, all different and all but the last with a parent. */
  ghost predicate Walked(p: Parents, x: SessionId, anc: seq<SessionId>) {
    && ListsAncestors(p, x, anc) && Distinct([x] + anc)
    && forall k :: 0 <= k < |anc| ==> ([x] + anc)[k] in p
  }

  lemma WalkedBound(p: Parents, x: SessionId, anc: seq<SessionId>)
    requires Walked(p, x, anc)
    ensures |anc| <= |p|
  {
    var front := ([x] + anc)[..|anc|];
    forall i, j | 0 <= i < j < |front| ensures front[i] != front[j] {
      assert ([x] + anc)[i] != ([x] + anc)[j];
    }
    DistinctCardinality(front);
    assert Elems(front) <= p.Keys;
    assert p.Keys == Elems(front) + (p.Keys - Elems(front));
  }

  lemma WalkStep(p: Parents, x: SessionId, anc: seq<SessionId>, next: SessionId)
    requires Walked(p, x, anc) && Ancestor(p, x, |anc| + 1) == Some(next)
    ensures next in [x] + anc ==> ChainRepeats(p, x)
    ensures next !in [x] + anc ==> Walked(p, x, anc + [next])
  {
    var full := [x] + anc;
    AncestorStep(p, x, |anc|);
    assert full[|anc|] in p by {
      assert Ancestor(p, x, |anc|) == Some(full[|anc|]);
    }
    if next in full {
      var k :| 0 <= k < |full| && full[k] == next;
      assert Ancestor(p, x, k) == Some(next);
    } else {
      assert [x] + (anc + [next]) == full + [next];
    }
  }

  method TraceAncestors(p: Parents, x: SessionId) returns (anc: seq<SessionId>, cycle: Option<SessionId>)
    ensures cycle.Some? ==> ChainRepeats(p, x)
    ensures cycle.None? ==> Complete(p, x, anc) && Distinct([x] + anc)
  {
    anc := [];
    var seen := {x};
    var current := if x in p then Some(p[x]) else None;
    assert Ancestor(p, x, 0) == Some(x);
    while current.Some? && current.value.text != ""
      invariant Walked(p, x, anc) && seen == Elems([x] + anc)
      invariant Ancestor(p, x, |anc| + 1) == if current.Some? && current.value.text != "" then current else None
      decreases |p| - |anc|
    {
      var c := current.value;
      WalkStep(p, x, anc, c);
      if c in seen { return anc, Some(c); }
      seen := seen + {c};
      assert [x] + (anc + [c]) == [x] + anc + [c];
      AncestorStep(p, x, |anc| + 1);
      anc := anc + [c];
      current := if c in p then Some(p[c]) else None;
      WalkedBound(p, x, anc);
    }
    return anc, None;
  }

  /** A complete chain without repetition never repeats further on. */
  lemma CompleteNeverRepeats(p: Parents, x: SessionId, anc: seq<SessionId>)
    requires Complete(p, x, anc) && Distinct([x] + anc)
    ensures !ChainRepeats(p, x)
  {
    forall i: nat, j: nat | i < j && Ancestor(p, x, i).Some? ensures Ancestor(p, x, i) != Ancestor(p, x, j) {
      var full := [x] + anc;
      forall k: nat ensures Ancestor(p, x, k) == if k <= |anc| then Some(full[k]) else None {
        if k > |anc| { NoneStays(p, x, |anc| + 1, k); }
      }
    }
  }

  lemma {:induction false} NoneStays(p: Parents, x: SessionId, n: nat, m: nat)
    requires n <= m && Ancestor(p, x, n) == None
    ensures Ancestor(p, x, m) == None
    decreases m - n
  {
    if n < m {
      AncestorStep(p, x, n);
      NoneStays(p, x, n + 1, m);
    }
  }

  // ---- descendants ----

  /** `order[i]` was found as a child of an earlier session that has been expanded. */
  ghost predicate FoundBelow(p: Parents, order: seq<SessionId>, k: nat, i: nat)
    requires i < |order| && k <= |order|
  {
    order[i] in p && exists j :: 0 <= j < i && j < k && order[j] == p[order[i]]
  }

  /** Every child of an expanded session has been found. */
  ghost predicate ChildrenFound(p: Parents, order: seq<SessionId>, k: nat)
    requires k <= |order|
  {
    forall c :: c in p && p[c] in order[..k] ==> c in order[1..]
  }

  /** The breadth-first walk over child links: `order` has been found, its first `k` sessions have been expanded. */
  ghost predicate Explored(p: Parents, x: SessionId, order: seq<SessionId>, k: nat) {
    && k <= |order| && order != [] && order[0] == x && Distinct(order) && ChildrenFound(p, order, k)
    && forall i {:trigger FoundBelow(p, order, k, i)} :: 0 < i < |order| ==> FoundBelow(p, order, k, i)
  }

  lemma {:induction false} FoundReachRoot(p: Parents, x: SessionId, order: seq<SessionId>, k: nat, i: nat)
    returns (n: nat)
    requires Explored(p, x, order, k) && i < |order|
    ensures Up(p, order[i], n) == Some(x) && (i > 0 ==> n > 0)
    decreases i
  {
    if i == 0 {
      n := 0;
    } else {
      assert FoundBelow(p, order, k, i);
      var j :| 0 <= j < i && j < k && order[j] == p[order[i]];
      var m := FoundReachRoot(p, x, order, k, j);
      n := m + 1;
    }
  }

  /** A child that was already visited can only be the root itself, which then lies on a loop. */
  lemma RevisitIsLoop(p: Parents, x: SessionId, order: seq<SessionId>, k: nat, c: SessionId)
    requires Explored(p, x, order, k) && k < |order| && c in p && p[c] == order[k] && c in order
    ensures OnLoop(p, x)
  {
    var i :| 0 <= i < |order| && order[i] == c;
    NotFoundTwice(p, x, order, k, i);
    var n := FoundReachRoot(p, x, order, k, k);
    assert Up(p, x, n + 1) == Some(x);
  }

  lemma NotFoundTwice(p: Parents, x: SessionId, order: seq<SessionId>, k: nat, i: nat)
    requires Explored(p, x, order, k) && k < |order| && i < |order|
    ensures i > 0 ==> order[i] in p && p[order[i]] != order[k]
  {
    if i > 0 {
      assert FoundBelow(p, order, k, i);
    }
  }

  lemma ExpandNode(p: Parents, x: SessionId, order: seq<SessionId>, k: nat, children: seq<SessionId>)
    requires Explored(p, x, order, k) && k < |order| && Distinct(children)
    requires forall c :: c in children <==> c in p && p[c] == order[k]
    requires forall c :: c in children ==> c !in order
    ensures Explored(p, x, order + children, k + 1)
  {
    var next, m := order + children, k + 1;
    DistinctConcat(order, children);
    forall i | 0 < i < |next| ensures FoundBelow(p, next, m, i) {
      if i < |order| {
        assert FoundBelow(p, order, k, i);
        var j :| 0 <= j < i && j < k && order[j] == p[order[i]];
        assert next[j] == p[next[i]];
      } else {
        assert next[i] in children && next[k] == p[next[i]];
      }
    }
    ChildrenFoundNext(p, order, k, children);
  }

  lemma ChildrenFoundNext(p: Parents, order: seq<SessionId>, k: nat, children: seq<SessionId>)
    requires k < |order| && ChildrenFound(p, order, k)
    requires forall c :: c in children <==> c in p && p[c] == order[k]
    ensures ChildrenFound(p, order + children, k + 1)
  {
    var next := order + children;
    assert next[1..] == order[1..] + children;
    assert next[..k + 1] == order[..k] + [order[k]];
  }

  lemma ExploredBound(p: Parents, x: SessionId, order: seq<SessionId>, k: nat)
    requires Explored(p, x, order, k)
    ensures |order| <= |p| + 1
  {
    var found := order[1..];
    forall i, j | 0 <= i < j < |found| ensures found[i] != found[j] {
      assert order[i + 1] != order[j + 1];
    }
    DistinctCardinality(found);
    forall i | 0 <= i < |found| ensures found[i] in p {
      assert FoundBelow(p, order, k, i + 1);
    }
    assert Elems(found) <= p.Keys;
    assert p.Keys == Elems(found) + (p.Keys - Elems(found));
  }

  /** Everything below the root has been found once every found session has been expanded. */
  lemma {:induction false} FullyExplored(p: Parents, x: SessionId, order: seq<SessionId>, d: SessionId, n: nat)
    requires Explored(p, x, order, |order|) && n > 0 && Up(p, d, n) == Some(x)
    ensures d in order[1..]
    decreases n
  {
    if n > 1 {
      FullyExplored(p, x, order, p[d], n - 1);
    }
    assert order[..|order|] == order == [x] + order[1..];
  }

  lemma ExploredIsComplete(p: Parents, x: SessionId, order: seq<SessionId>)
    requires Explored(p, x, order, |order|)
    ensures AllDescendants(p, x, order[1..]) && !OnLoop(p, x)
  {
    var desc := order[1..];
    forall d ensures d in desc <==> DescendsFrom(p, d, x) {
      if d in desc {
        var i :| 0 <= i < |desc| && desc[i] == d;
        var n := FoundReachRoot(p, x, order, |order|, i + 1);
      }
      if DescendsFrom(p, d, x) {
        var n: nat :| n > 0 && Up(p, d, n) == Some(x);
        FullyExplored(p, x, order, d, n);
      }
    }
    assert x !in desc;
  }

  // ---- nearest first ----

  /** How far below `x` the sessions are never decreases along the list. */
  ghost predicate NearestFirst(p: Parents, x: SessionId, desc: seq<SessionId>) {
    forall i, j, n: nat, m: nat | 0 <= i <= j < |desc| && Up(p, desc[i], n) == Some(x) && Up(p, desc[j], m) == Some(x) :: n <= m
  }

  /** `order[i]` was found while `order[from[i]]` was expanded; the first `k` were expanded one after the other. */
  ghost predicate FoundInTurn(p: Parents, order: seq<SessionId>, from: seq<nat>, k: nat) {
    && |from| == |order|
    && (forall i :: 0 < i < |order| ==> order[i] in p && from[i] < i && from[i] < k && order[from[i]] == p[order[i]])
    && forall i, j :: 0 < i < j < |order| ==> from[i] <= from[j]
  }

  lemma ExpandInTurn(p: Parents, order: seq<SessionId>, from: seq<nat>, k: nat, children: seq<SessionId>)
    returns (from': seq<nat>)
    requires FoundInTurn(p, order, from, k) && k < |order|
    requires forall c :: c in children ==> c in p && p[c] == order[k]
    ensures FoundInTurn(p, order + children, from', k + 1)
  {
    from' := from + seq(|children|, _ => k);
    var next := order + children;
    forall i | 0 < i < |next| ensures next[i] in p && from'[i] < i && from'[i] < k + 1 && next[from'[i]] == p[next[i]] {
      if i >= |order| { assert children[i - |order|] in children && next[i] == children[i - |order|]; }
    }
  }

  /** A session is below another one at one distance only, unless that one lies on a loop. */
  lemma {:induction false} DistanceUnique(p: Parents, x: SessionId, d: SessionId, n: nat, m: nat)
    requires !OnLoop(p, x) && Up(p, d, n) == Some(x) && Up(p, d, m) == Some(x)
    ensures n == m
    decreases n
  {
    if n > 0 && m > 0 { DistanceUnique(p, x, p[d], n - 1, m - 1); }
  }

  lemma {:induction false} DistancesGrow(p: Parents, x: SessionId, order: seq<SessionId>, from: seq<nat>, k: nat, i: nat, j: nat, n: nat, m: nat)
    requires FoundInTurn(p, order, from, k) && Distinct(order) && i <= j < |order| && order[0] == x && !OnLoop(p, x)
    requires Up(p, order[i], n) == Some(x) && Up(p, order[j], m) == Some(x)
    ensures n <= m
    decreases j
  {
    if i == j {
      DistanceUnique(p, x, order[i], n, m);
    } else if i == 0 {
      DistanceUnique(p, x, x, n, 0);
    } else if n > 0 {
      assert order[j] != order[0];
      assert order[from[i]] == p[order[i]] && order[from[j]] == p[order[j]];
      DistancesGrow(p, x, order, from, k, from[i], from[j], n - 1, m - 1);
    }
  }

  lemma FoundNearestFirst(p: Parents, x: SessionId, order: seq<SessionId>, from: seq<nat>, k: nat)
    requires FoundInTurn(p, order, from, k) && Distinct(order) && order != [] && order[0] == x && !OnLoop(p, x)
    ensures NearestFirst(p, x, order[1..])
  {
    var desc := order[1..];
    forall i, j, n: nat, m: nat | 0 <= i <= j < |desc| && Up(p, desc[i], n) == Some(x) && Up(p, desc[j], m) == Some(x) ensures n <= m {
      DistancesGrow(p, x, order, from, k, i + 1, j + 1, n, m);
    }
  }

  /** The inner loop: the children are visited, listed and queued, up to one that was visited before. */
  method Visit(children: seq<SessionId>, visited0: set<SessionId>, desc0: seq<SessionId>, queue0: seq<SessionId>)
    returns (visited: set<SessionId>, desc: seq<SessionId>, queue: seq<SessionId>, again: Option<SessionId>)
    requires Distinct(children)
    ensures again.Some? ==> again.value in children && again.value in visited0
    ensures again.None? ==> visited == visited0 + Elems(children) && desc == desc0 + children && queue == queue0 + children
    ensures again.None? ==> forall c :: c in children ==> c !in visited0
  {
    visited, desc, queue := visited0, desc0, queue0;
    for j := 0 to |children|
      invariant visited == visited0 + Elems(children[..j]) && desc == desc0 + children[..j] && queue == queue0 + children[..j]
      invariant forall c :: c in children[..j] ==> c !in visited0
    {
      var child := children[j];
      assert children[..j + 1] == children[..j] + [child] && child !in children[..j];
      if child in visited { return visited, desc, queue, Some(child); }
      visited := visited + {child};
      desc := desc + [child];
      queue := queue + [child];
    }
    assert children[..|children|] == children;
    return visited, desc, queue, None;
  }

  /** The walk has found `order` and expanded its first `k` sessions; the rest is queued. */
  ghost predicate Searching(p: Parents, x: SessionId, order: seq<SessionId>, from: seq<nat>, k: nat, queue: seq<SessionId>,
                            visited: set<SessionId>, desc: seq<SessionId>)
  {
    Explored(p, x, order, k) && FoundInTurn(p, order, from, k) && Queued(x, order, k, queue, visited, desc)
  }

  ghost predicate Queued<T>(x: T, order: seq<T>, k: nat, queue: seq<T>, visited: set<T>, desc: seq<T>) {
    k <= |order| && order == [x] + desc && queue == order[k..] && visited == Elems(order)
  }

  lemma QueuedStep<T>(x: T, order: seq<T>, k: nat, queue: seq<T>, visited: set<T>, desc: seq<T>, children: seq<T>)
    requires Queued(x, order, k, queue, visited, desc) && queue != []
    ensures k < |order| && queue[0] == order[k] && forall c :: c in order ==> c in visited
    ensures Queued(x, order + children, k + 1, queue[1..] + children, visited + Elems(children), desc + children)
  {
    Associative([x], desc, children);
  }

  lemma Expand(p: Parents, x: SessionId, order: seq<SessionId>, k: nat, children: seq<SessionId>)
    requires Explored(p, x, order, k) && k < |order| && Distinct(children)
    requires forall c :: c in children <==> c in p && p[c] == order[k]
    requires forall c :: c in children ==> c !in order
    ensures Explored(p, x, order + children, k + 1) && k < |p| + 1
  {
    ExpandNode(p, x, order, k, children);
    ExploredBound(p, x, order + children, k + 1);
  }

  lemma SearchStep(p: Parents, x: SessionId, order: seq<SessionId>, from: seq<nat>, k: nat, queue: seq<SessionId>,
                   visited: set<SessionId>, desc: seq<SessionId>, children: seq<SessionId>)
    returns (order': seq<SessionId>, from': seq<nat>, k': nat)
    requires Searching(p, x, order, from, k, queue, visited, desc) && queue != [] && Distinct(children)
    requires forall c :: c in children <==> c in p && p[c] == queue[0]
    requires forall c :: c in children ==> c !in visited
    ensures Searching(p, x, order', from', k', queue[1..] + children, visited + Elems(children), desc + children)
    ensures k < k' <= |p| + 1
  {
    order', k' := order + children, k + 1;
    QueuedStep(x, order, k, queue, visited, desc, children);
    Expand(p, x, order, k, children);
    from' := ExpandInTurn(p, order, from, k, children);
  }

  method TraceDescendants(p: Parents, x: SessionId) returns (desc: seq<SessionId>, cycle: Option<SessionId>)
    ensures cycle.Some? ==> OnLoop(p, x)
    ensures cycle.None? ==> AllDescendants(p, x, desc) && NearestFirst(p, x, desc) && !OnLoop(p, x)
  {
    desc := [];
    var queue, visited := [x], {x};
    ghost var order, from: seq<nat>, k := [x], [0], 0;
    while queue != []
      invariant Searching(p, x, order, from, k, queue, visited, desc) && k <= |p| + 1
      decreases |p| + 1 - k
    {
      var children := Children(p, queue[0]);
      var visited', desc', queue', again := Visit(children, visited, desc, queue[1..]);
      if again.Some? {
        RevisitIsLoop(p, x, order, k, again.value);
        return desc', again;
      }
      order, from, k := SearchStep(p, x, order, from, k, queue, visited, desc, children);
      visited, desc, queue := visited', desc', queue';
    }
    Searched(p, x, order, from, k, visited, desc);
    return desc, None;
  }

  lemma Searched(p: Parents, x: SessionId, order: seq<SessionId>, from: seq<nat>, k: nat, visited: set<SessionId>, desc: seq<SessionId>)
    requires Searching(p, x, order, from, k, [], visited, desc)
    ensures AllDescendants(p, x, desc) && NearestFirst(p, x, desc) && !OnLoop(p, x)
  {
    assert k == |order| && order[1..] == desc;
    ExploredIsComplete(p, x, order);
    FoundNearestFirst(p, x, order, from, k);
  }

  /**
   * `traceSession` always returns or throws: it throws exactly when the ancestor chain repeats or the session lies
   * on a loop of the table, and otherwise lists the whole chain and every descendant once, both nearest first.
   */
  method TraceSession(p: Parents, x: SessionId) returns (r: Trace)
    ensures r.InvalidLineage? <==> ChainRepeats(p, x) || OnLoop(p, x)
    ensures r.Lineage? ==> Complete(p, x, r.ancestors) && Distinct([x] + r.ancestors)
    ensures r.Lineage? ==> AllDescendants(p, x, r.descendants) && NearestFirst(p, x, r.descendants) && x !in r.descendants
  {
    var anc, cycle := TraceAncestors(p, x);
    if cycle.Some? { return InvalidLineage(cycle.value); }
    CompleteNeverRepeats(p, x, anc);
    var desc, again := TraceDescendants(p, x);
    if again.Some? { return InvalidLineage(again.value); }
    r := Lineage(anc, desc);
  }

  // ---- tables without empty parent ids ----

  ghost predicate NoEmptyParents(p: Parents) { forall c :: c in p ==> p[c].text != "" }

  lemma {:induction false} UpIsAncestor(p: Parents, x: SessionId, n: nat)
    requires NoEmptyParents(p)
    ensures Up(p, x, n) == Ancestor(p, x, n)
    decreases n
  {
    if n > 0 && x in p {
      UpIsAncestor(p, p[x], n - 1);
    }
  }

  /** Without empty parent ids the second cycle check never fires: the first one has already thrown. */
  lemma SecondCheckIsDead(p: Parents, x: SessionId)
    requires NoEmptyParents(p) && OnLoop(p, x)
    ensures ChainRepeats(p, x)
  {
    var n: nat :| n > 0 && Up(p, x, n) == Some(x);
    UpIsAncestor(p, x, n);
    assert Ancestor(p, x, 0) == Ancestor(p, x, n) == Some(x);
  }

  /** Ancestors and descendants are each other's inverse. */
  lemma AncestorsAndDescendantsDual(p: Parents, s: SessionId, d: SessionId)
    requires NoEmptyParents(p)
    ensures DescendsFrom(p, d, s) <==> IsAncestorOf(p, s, d)
  {
    forall n: nat ensures Up(p, d, n) == Ancestor(p, d, n) {
      UpIsAncestor(p, d, n);
    }
  }

  /** The ancestors listed are all ancestors. */
  lemma ListedAreAncestors(p: Parents, x: SessionId, anc: seq<SessionId>, s: SessionId)
    requires Complete(p, x, anc)
    ensures s in anc <==> IsAncestorOf(p, s, x)
  {
    if s in anc {
      var k :| 0 <= k < |anc| && anc[k] == s;
      assert Ancestor(p, x, k + 1) == Some(s);
    }
    if IsAncestorOf(p, s, x) {
      var n: nat :| n > 0 && Ancestor(p, x, n) == Some(s);
      if n > |anc| { NoneStays(p, x, |anc| + 1, n); }
      assert anc[n - 1] == s;
    }
  }

  /**
   * The duality fails as soon as some session has the empty id for its parent: that session is found below the
   * empty id although the empty id is not among its ancestors; and it fails only then.
   */
  lemma DualityIffNoEmptyParents(p: Parents)
    ensures NoEmptyParents(p) <==> forall s, d :: DescendsFrom(p, d, s) <==> IsAncestorOf(p, s, d)
  {
    if NoEmptyParents(p) {
      forall s, d ensures DescendsFrom(p, d, s) <==> IsAncestorOf(p, s, d) {
        AncestorsAndDescendantsDual(p, s, d);
      }
    } else {
      var c :| c in p && p[c].text == "";
      assert Up(p, c, 1) == Some(p[c]);
      assert DescendsFrom(p, c, p[c]);
      forall n: nat | n > 0 ensures Ancestor(p, c, n) == None {}
      assert !IsAncestorOf(p, p[c], c);
    }
  }
}
