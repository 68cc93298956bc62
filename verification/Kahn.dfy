// The planner's topological sort: Kahn's algorithm with a queue that is re-sorted after every step.
module Kahn {
  import opened IdOrder
  import opened Dag

  datatype TaskNode = TaskNode(id: TaskId, title: string, entityScope: seq<string>, dependsOn: seq<TaskId>)

  function Ids(tasks: seq<TaskNode>): (ids: seq<TaskId>)
    ensures |ids| == |tasks| && forall i :: 0 <= i < |tasks| ==> ids[i] == tasks[i].id
  {
    seq(|tasks|, i requires 0 <= i < |tasks| => tasks[i].id)
  }

  ghost function GraphOf(tasks: seq<TaskNode>): (g: Graph)
    requires Distinct(Ids(tasks))
    ensures g.Keys == Elems(Ids(tasks))
    ensures forall i :: 0 <= i < |tasks| ==> g[tasks[i].id] == Elems(tasks[i].dependsOn)
  {
    var ids := Ids(tasks);
    assert forall i :: 0 <= i < |tasks| ==> tasks[i].id == ids[i];
    var g := map i | 0 <= i < |tasks| :: tasks[i].id := Elems(tasks[i].dependsOn);
    assert forall x :: x in g.Keys <==> x in ids;
    g
  }

  /** What the planner hands to the sort: distinct ids, and no dependency listed twice. */
  ghost predicate WellFormed(tasks: seq<TaskNode>) {
    && Distinct(Ids(tasks))
    && forall i :: 0 <= i < |tasks| ==> Distinct(tasks[i].dependsOn)
  }

  type Dependents = map<TaskId, seq<TaskId>>

  function Lookup(dependents: Dependents, d: TaskId): seq<TaskId> {
    if d in dependents then dependents[d] else []
  }

  /** `dependents` lists under each key exactly the tasks that depend on it. */
  ghost predicate Inverts(dependents: Dependents, g: Graph) {
    forall d :: Distinct(Lookup(dependents, d)) && forall x :: x in Lookup(dependents, d) <==> x in g && d in g[x]
  }

  ghost predicate InDegrees(indegree: map<TaskId, int>, g: Graph, done: set<TaskId>) {
    (forall x :: x in indegree <==> x in g) && forall x {:trigger indegree[x]} :: x in g ==> indegree[x] == |g[x] - done|
  }

  method Register(t: TaskNode, dependents0: Dependents) returns (dependents: Dependents)
    requires Distinct(t.dependsOn)
    ensures forall d :: Lookup(dependents, d) == Lookup(dependents0, d) + if d in t.dependsOn then [t.id] else []
  {
    dependents := dependents0;
    for j := 0 to |t.dependsOn|
      invariant forall d :: Lookup(dependents, d) == Lookup(dependents0, d) + if d in t.dependsOn[..j] then [t.id] else []
    {
      var d := t.dependsOn[j];
      assert d !in t.dependsOn[..j];
      assert t.dependsOn[..j + 1] == t.dependsOn[..j] + [d];
      dependents := dependents[d := Lookup(dependents, d) + [t.id]];
    }
    assert t.dependsOn[..|t.dependsOn|] == t.dependsOn;
  }

  /** The dependents listed so far, when only the tasks in `seen` have been registered. */
  ghost predicate InvertsUpTo(dependents: Dependents, g: Graph, seen: set<TaskId>) {
    forall d :: Distinct(Lookup(dependents, d)) && forall x :: x in Lookup(dependents, d) <==> x in g && x in seen && d in g[x]
  }

  lemma RegisterStep(before: Dependents, after: Dependents, g: Graph, seen: set<TaskId>, t: TaskNode)
    requires InvertsUpTo(before, g, seen) && t.id in g && t.id !in seen && g[t.id] == Elems(t.dependsOn)
    requires forall d :: Lookup(after, d) == Lookup(before, d) + if d in t.dependsOn then [t.id] else []
    ensures InvertsUpTo(after, g, seen + {t.id})
  {
    forall d ensures Distinct(Lookup(after, d))
      ensures forall x :: x in Lookup(after, d) <==> x in g && x in seen + {t.id} && d in g[x]
    {
      assert Distinct(Lookup(before, d)) && forall x :: x in Lookup(before, d) <==> x in g && x in seen && d in g[x];
      assert d in t.dependsOn <==> d in g[t.id];
    }
  }

  method BuildIndex(tasks: seq<TaskNode>) returns (indegree: map<TaskId, int>, dependents: Dependents)
    requires WellFormed(tasks)
    ensures InDegrees(indegree, GraphOf(tasks), {})
    ensures Inverts(dependents, GraphOf(tasks))
  {
    ghost var g := GraphOf(tasks);
    indegree, dependents := map[], map[];
    for i := 0 to |tasks|
      invariant indegree.Keys == Elems(Ids(tasks)[..i])
      invariant CountsAll(indegree, g)
      invariant InvertsUpTo(dependents, g, indegree.Keys)
    {
      var t := tasks[i];
      NewId(Ids(tasks), i);
      DistinctCardinality(t.dependsOn);
      ghost var seen := indegree.Keys;
      indegree := indegree[t.id := |t.dependsOn|];
      ghost var before := dependents;
      dependents := Register(t, dependents);
      RegisterStep(before, dependents, g, seen, t);
    }
    assert Ids(tasks)[..|tasks|] == Ids(tasks);
    CountsToInDegrees(indegree, g);
  }

  ghost predicate CountsAll(indegree: map<TaskId, int>, g: Graph) {
    forall x {:trigger indegree[x]} :: x in indegree ==> x in g && indegree[x] == |g[x]|
  }

  lemma CountsToInDegrees(indegree: map<TaskId, int>, g: Graph)
    requires CountsAll(indegree, g) && indegree.Keys == g.Keys
    ensures InDegrees(indegree, g, {})
  {
    forall x | x in g ensures indegree[x] == |g[x] - {}| {
      assert g[x] - {} == g[x];
    }
  }

  lemma NewId(ids: seq<TaskId>, i: nat)
    requires Distinct(ids) && i < |ids|
    ensures ids[i] in Elems(ids) && ids[i] !in Elems(ids[..i])
    ensures Elems(ids[..i + 1]) == Elems(ids[..i]) + {ids[i]}
  {
    assert ids[..i + 1] == ids[..i] + [ids[i]];
  }

  /** The ids of the tasks that satisfy `keep`, in the order of `tasks`. */
  function Select(tasks: seq<TaskNode>, keep: TaskId -> bool): (r: seq<TaskId>)
    ensures forall x :: x in r <==> x in Ids(tasks) && keep(x)
    ensures Distinct(Ids(tasks)) ==> Distinct(r)
  {
    if tasks == [] then []
    else
      var front := tasks[..|tasks| - 1];
      var last := tasks[|tasks| - 1].id;
      assert Ids(tasks) == Ids(front) + [last];
      assert Distinct(Ids(tasks)) ==> Distinct(Ids(front)) && last !in Ids(front) by {
        if Distinct(Ids(tasks)) {
          forall i | 0 <= i < |front| ensures Ids(front)[i] != last {
            assert Ids(tasks)[i] != Ids(tasks)[|front|];
          }
          forall i, j | 0 <= i < j < |front| ensures Ids(front)[i] != Ids(front)[j] {
            assert Ids(tasks)[i] != Ids(tasks)[j];
          }
        }
      }
      Select(front, keep) + if keep(last) then [last] else []
  }

  function Free(tasks: seq<TaskNode>, indegree: map<TaskId, int>): (r: seq<TaskId>)
    ensures forall x :: x in r <==> x in Ids(tasks) && (x !in indegree || indegree[x] == 0)
    ensures Distinct(Ids(tasks)) ==> Distinct(r)
  {
    Select(tasks, x => (if x in indegree then indegree[x] else 0) == 0)
  }

  function Leftover(tasks: seq<TaskNode>, out: seq<TaskId>): (r: seq<TaskId>)
    ensures forall x :: x in r <==> x in Ids(tasks) && x !in out
    ensures Distinct(Ids(tasks)) ==> Distinct(r)
  {
    Select(tasks, x => x !in out)
  }

  ghost predicate IsReadyQueue(g: Graph, done: set<TaskId>, queue: seq<TaskId>) {
    Distinct(queue) && forall x :: x in queue <==> Ready(g, done, x)
  }

  /** The counts while `id` is being taken off: already done for the dependents in `part`. */
  ghost predicate Counting(indegree: map<TaskId, int>, g: Graph, done: set<TaskId>, id: TaskId, part: seq<TaskId>) {
    (forall x :: x in indegree <==> x in g) &&
    forall x {:trigger indegree[x]} :: x in g ==> indegree[x] == |g[x] - if x in part then done + {id} else done|
  }

  lemma CountStep(indegree: map<TaskId, int>, g: Graph, done: set<TaskId>, id: TaskId, part: seq<TaskId>, next: TaskId)
    requires Counting(indegree, g, done, id, part) && next !in part && id !in done
    requires next in g && id in g[next]
    ensures Counting(indegree[next := indegree[next] - 1], g, done, id, part + [next])
    ensures indegree[next] - 1 == 0 <==> g[next] <= done + {id}
  {
    CountDown(g[next], done, id);
  }

  lemma CountDown(deps: set<TaskId>, done: set<TaskId>, id: TaskId)
    requires id in deps && id !in done
    ensures |deps - (done + {id})| == |deps - done| - 1
    ensures |deps - (done + {id})| == 0 <==> deps <= done + {id}
  {
    assert deps - done == (deps - (done + {id})) + {id};
    if deps <= done + {id} { assert deps - (done + {id}) == {}; }
    if |deps - (done + {id})| == 0 { assert deps - (done + {id}) == {}; }
  }

  lemma CountDone(indegree: map<TaskId, int>, g: Graph, done: set<TaskId>, id: TaskId, nexts: seq<TaskId>)
    requires Counting(indegree, g, done, id, nexts) && forall x :: x in nexts <==> x in g && id in g[x]
    ensures InDegrees(indegree, g, done + {id})
  {
    forall x | x in g ensures indegree[x] == |g[x] - (done + {id})| {
      if x !in nexts { assert g[x] - done == g[x] - (done + {id}); }
    }
  }

  ghost predicate ListsDependents(nexts: seq<TaskId>, g: Graph, id: TaskId) {
    Distinct(nexts) && forall x :: x in nexts <==> x in g && id in g[x]
  }

  ghost predicate Apart(a: seq<TaskId>, b: seq<TaskId>) {
    forall x :: x in a ==> x !in b
  }

  /** The ready queue without its head `id`. */
  ghost predicate IsPopped(g: Graph, done: set<TaskId>, id: TaskId, popped: seq<TaskId>) {
    Distinct(popped) && forall x :: x in popped <==> x != id && Ready(g, done, x)
  }

  /** The queue after the dependents that became free have joined. */
  ghost predicate IsGrown(g: Graph, done: set<TaskId>, id: TaskId, popped: seq<TaskId>, nexts: seq<TaskId>, queue: seq<TaskId>) {
    Distinct(queue) && forall x :: x in queue <==> x in popped || (x in nexts && x in g && g[x] <= done + {id})
  }

  lemma SplitAt(nexts: seq<TaskId>, k: nat)
    requires Distinct(nexts) && k < |nexts|
    ensures nexts[..k + 1] == nexts[..k] + [nexts[k]]
    ensures nexts[k] in nexts && nexts[k] !in nexts[..k]
  {
  }

  lemma GrowStep(g: Graph, done: set<TaskId>, id: TaskId, popped: seq<TaskId>, part: seq<TaskId>, queue: seq<TaskId>, next: TaskId)
    requires IsGrown(g, done, id, popped, part, queue) && next in g && next !in part && next !in popped
    ensures var grown := if g[next] <= done + {id} then queue + [next] else queue;
            IsGrown(g, done, id, popped, part + [next], grown)
  {
    assert next !in queue;
  }

  /** Takes `id` off the counts of its dependents; those that reach zero join the queue. */
  method Release(ghost g: Graph, ghost done: set<TaskId>, id: TaskId, nexts: seq<TaskId>,
                 indegree0: map<TaskId, int>, queue0: seq<TaskId>)
    returns (indegree: map<TaskId, int>, queue: seq<TaskId>)
    requires ListsDependents(nexts, g, id)
    requires InDegrees(indegree0, g, done) && id !in done
    requires Distinct(queue0) && Apart(queue0, nexts)
    ensures InDegrees(indegree, g, done + {id})
    ensures IsGrown(g, done, id, queue0, nexts, queue)
  {
    indegree, queue := indegree0, queue0;
    for k := 0 to |nexts|
      invariant Counting(indegree, g, done, id, nexts[..k])
      invariant IsGrown(g, done, id, queue0, nexts[..k], queue)
    {
      var next := nexts[k];
      SplitAt(nexts, k);
      GrowStep(g, done, id, queue0, nexts[..k], queue, next);
      var deg := (if next in indegree then indegree[next] else 1) - 1;
      CountStep(indegree, g, done, id, nexts[..k], next);
      indegree := indegree[next := deg];
      if deg == 0 {
        queue := queue + [next];
      }
    }
    assert nexts[..|nexts|] == nexts;
    CountDone(indegree, g, done, id, nexts);
  }

  /** Emitting `id` makes ready exactly its dependents whose other dependencies are already out. */
  lemma ReadyAfter(g: Graph, done: set<TaskId>, id: TaskId, x: TaskId)
    requires Ready(g, done, id)
    requires forall y :: y in done ==> y in g && g[y] <= done
    ensures Ready(g, done + {id}, x) <==>
            (x != id && Ready(g, done, x)) || (x in g && id in g[x] && g[x] <= done + {id})
  {
  }

  /** Taking the head off the ready queue leaves what `Release` expects. */
  lemma PopReady(g: Graph, done: set<TaskId>, queue: seq<TaskId>, nexts: seq<TaskId>)
    requires IsReadyQueue(g, done, queue) && queue != [] && Sorted(queue)
    requires ListsDependents(nexts, g, queue[0])
    ensures Least(g, done, queue[0]) && IsPopped(g, done, queue[0], queue[1..]) && Apart(queue[1..], nexts)
  {
    var id := queue[0];
    assert queue == [id] + queue[1..];
    assert id !in queue[1..];
    forall y | Ready(g, done, y) ensures Leq(id, y) {
      LeqTotal(id.text, id.text);
    }
    forall x ensures x in queue[1..] <==> x != id && Ready(g, done, x) {
      assert x in queue <==> x == id || x in queue[1..];
    }
  }

  lemma GreedyExtend(g: Graph, out: seq<TaskId>, id: TaskId)
    requires Greedy(g, out) && Least(g, Elems(out), id)
    ensures Greedy(g, out + [id]) && Ordered(g, out + [id]) && Elems(out + [id]) == Elems(out) + {id}
    ensures |out| < |g.Keys|
  {
    var next := out + [id];
    assert next[..|out|] == out;
    GreedyIsOrdered(g, next);
    GreedyIsOrdered(g, out);
    DistinctCardinality(next);
    assert Elems(next) <= g.Keys;
    SubsetCardinality(Elems(next), g.Keys);
  }

  /** Appending the sorted leftovers completes the order. */
  lemma Complete(g: Graph, ids: seq<TaskId>, main: seq<TaskId>, rest: seq<TaskId>)
    requires Distinct(ids) && g.Keys == Elems(ids)
    requires Greedy(g, main) && Stuck(g, Elems(main))
    requires Sorted(rest) && IsLeftover(rest, ids, main)
    ensures KahnResult(g, main + rest, |main|) && |main + rest| == |ids|
  {
    GreedyIsOrdered(g, main);
    forall x | x in main ensures x in ids {
      assert x in Elems(main);
    }
    Rejoin(ids, main, rest);
    var out := main + rest;
    assert out[..|main|] == main && out[|main|..] == rest;
  }

  ghost predicate IsLeftover(rest: seq<TaskId>, ids: seq<TaskId>, main: seq<TaskId>) {
    Distinct(rest) && forall x :: x in rest <==> x in ids && x !in main
  }

  lemma Rejoin(ids: seq<TaskId>, main: seq<TaskId>, rest: seq<TaskId>)
    requires Distinct(ids) && Distinct(main) && IsLeftover(rest, ids, main)
    requires forall x :: x in main ==> x in ids
    ensures Distinct(main + rest) && Elems(main + rest) == Elems(ids) && |main + rest| == |ids|
  {
    DistinctConcat(main, rest);
    var out := main + rest;
    assert Elems(out) == Elems(ids);
    DistinctCardinality(out);
    DistinctCardinality(ids);
  }

  lemma SeedQueue(g: Graph, ids: seq<TaskId>, indegree: map<TaskId, int>, free: seq<TaskId>)
    requires InDegrees(indegree, g, {}) && g.Keys == Elems(ids) && Distinct(free)
    requires forall x :: x in free <==> x in ids && (x !in indegree || indegree[x] == 0)
    ensures IsReadyQueue(g, {}, Sort(free))
  {
    SortElems(free);
    forall x ensures x in Sort(free) <==> Ready(g, {}, x) {
      SeedReady(g, ids, indegree, free, x);
    }
  }

  lemma SeedReady(g: Graph, ids: seq<TaskId>, indegree: map<TaskId, int>, free: seq<TaskId>, x: TaskId)
    requires InDegrees(indegree, g, {}) && g.Keys == Elems(ids)
    requires x in free <==> x in ids && (x !in indegree || indegree[x] == 0)
    ensures x in free <==> Ready(g, {}, x)
  {
    assert x in ids <==> x in Elems(ids);
    if x in g {
      assert g[x] - {} == g[x];
      assert indegree[x] == |g[x]|;
    }
  }

  /** After `Release`, sorting again gives the ready queue of the longer output. */
  lemma Requeue(g: Graph, out: seq<TaskId>, id: TaskId, popped: seq<TaskId>, nexts: seq<TaskId>, queue: seq<TaskId>)
    requires Greedy(g, out) && Least(g, Elems(out), id)
    requires IsPopped(g, Elems(out), id, popped) && ListsDependents(nexts, g, id)
    requires IsGrown(g, Elems(out), id, popped, nexts, queue)
    ensures IsReadyQueue(g, Elems(out) + {id}, Sort(queue))
  {
    SortElems(queue);
    forall y | y in Elems(out) ensures y in g && g[y] <= Elems(out) {
      GreedyIsOrdered(g, out);
      var k :| 0 <= k < |out| && out[k] == y;
      assert g[out[k]] <= Elems(out[..k]);
    }
    forall x ensures x in Sort(queue) <==> Ready(g, Elems(out) + {id}, x) {
      ReadyAfter(g, Elems(out), id, x);
    }
  }

  lemma Drained(g: Graph, out: seq<TaskId>)
    requires IsReadyQueue(g, Elems(out), [])
    ensures Stuck(g, Elems(out))
  {
    forall x ensures !Ready(g, Elems(out), x) {
      var none: seq<TaskId> := [];
      assert x !in none;
    }
  }

  /** The fallback: whatever the loop left over is appended in id order. */
  lemma Finish(g: Graph, ids: seq<TaskId>, out: seq<TaskId>, rest: seq<TaskId>)
    requires Distinct(ids) && g.Keys == Elems(ids)
    requires Greedy(g, out) && IsReadyQueue(g, Elems(out), [])
    requires IsLeftover(rest, ids, out)
    ensures |out| == |ids| ==> KahnResult(g, out, |out|)
    ensures KahnResult(g, out + Sort(rest), |out|) && |out + Sort(rest)| == |ids|
  {
    Drained(g, out);
    SortElems(rest);
    Complete(g, ids, out, Sort(rest));
    if |out| == |ids| {
      assert out + Sort(rest) == out;
    }
  }

  /** The main loop: emits the least ready task until none is ready. */
  method Drain(ghost g: Graph, dependents: Dependents, indegree0: map<TaskId, int>, queue0: seq<TaskId>)
    returns (out: seq<TaskId>)
    requires Inverts(dependents, g) && InDegrees(indegree0, g, {})
    requires Sorted(queue0) && IsReadyQueue(g, {}, queue0)
    ensures Greedy(g, out) && IsReadyQueue(g, Elems(out), [])
  {
    var indegree, queue := indegree0, queue0;
    ghost var done, budget := {}, |g.Keys|;
    out := [];
    while queue != []
      invariant done == Elems(out) && Greedy(g, out)
      invariant InDegrees(indegree, g, done)
      invariant Sorted(queue) && IsReadyQueue(g, done, queue)
      invariant budget + |out| == |g.Keys|
      decreases budget
    {
      var id := queue[0];
      var nexts := Lookup(dependents, id);
      assert ListsDependents(nexts, g, id);
      PopReady(g, done, queue, nexts);
      GreedyExtend(g, out, id);
      var grown;
      indegree, grown := Release(g, done, id, nexts, indegree, queue[1..]);
      Requeue(g, out, id, queue[1..], nexts, grown);
      out := out + [id];
      queue := Sort(grown);
      done, budget := done + {id}, budget - 1;
    }
  }

  /** The dependencies of the task with this id are among `done`. */
  ghost predicate IsFree(tasks: seq<TaskNode>, id: TaskId, done: seq<TaskId>) {
    forall i :: 0 <= i < |tasks| && tasks[i].id == id ==> forall d :: d in tasks[i].dependsOn ==> d in done
  }

  /** Each of the first `n` has its dependencies before it, and no smaller id was free then; none of the others is free
      behind them, and these stand in order. */
  ghost predicate ReadyFirst(tasks: seq<TaskNode>, out: seq<TaskId>, n: nat)
    requires n <= |out|
  {
    && (forall k :: 0 <= k < n ==> IsFree(tasks, out[k], out[..k]))
    && (forall k, l :: 0 <= k < n && k < l < |out| && IsFree(tasks, out[l], out[..k]) ==> LeqText(out[k].text, out[l].text))
    && (forall k :: n <= k < |out| ==> !IsFree(tasks, out[k], out[..n]))
    && forall k, l :: n <= k < l < |out| ==> LeqText(out[k].text, out[l].text)
  }

  lemma FreeMeans(tasks: seq<TaskNode>, id: TaskId, done: seq<TaskId>)
    requires Distinct(Ids(tasks)) && id in GraphOf(tasks)
    ensures IsFree(tasks, id, done) <==> GraphOf(tasks)[id] <= Elems(done)
  {
    var i :| 0 <= i < |tasks| && Ids(tasks)[i] == id;
    assert GraphOf(tasks)[tasks[i].id] == Elems(tasks[i].dependsOn);
    forall j | 0 <= j < |tasks| && tasks[j].id == id ensures j == i { assert Ids(tasks)[j] == Ids(tasks)[i]; }
    assert IsFree(tasks, id, done) <==> forall d :: d in tasks[i].dependsOn ==> d in done;
    assert forall d :: d in tasks[i].dependsOn <==> d in GraphOf(tasks)[id];
    assert forall d :: d in done <==> d in Elems(done);
  }

  lemma ResultReadyFirst(tasks: seq<TaskNode>, out: seq<TaskId>, n: nat)
    requires Distinct(Ids(tasks)) && KahnResult(GraphOf(tasks), out, n)
    ensures ReadyFirst(tasks, out, n)
  {
    var g, main := GraphOf(tasks), out[..n];
    forall k, l | 0 <= k < n && k <= l < |out|
      ensures IsFree(tasks, out[k], out[..k]) && (IsFree(tasks, out[l], out[..k]) ==> LeqText(out[k].text, out[l].text))
    {
      GreedyAt(g, main, k);
      assert main[..k] == out[..k] && out[k] in Elems(out) && out[l] in Elems(out);
      FreeMeans(tasks, out[k], out[..k]);
      FreeMeans(tasks, out[l], out[..k]);
      if IsFree(tasks, out[l], out[..k]) { assert Ready(g, Elems(out[..k]), out[l]); }
    }
    forall k | n <= k < |out| ensures !IsFree(tasks, out[k], out[..n]) {
      assert out[k] in Elems(out) && out[k] !in out[..n];
      FreeMeans(tasks, out[k], out[..n]);
      assert !Ready(g, Elems(main), out[k]);
    }
    forall k, l | n <= k < l < |out| ensures LeqText(out[k].text, out[l].text) {
      assert Leq(out[n..][k - n], out[n..][l - n]);
    }
  }

  method TopoSort(tasks: seq<TaskNode>) returns (out: seq<TaskId>)
    requires WellFormed(tasks)
    ensures exists n: nat :: KahnResult(GraphOf(tasks), out, n)
    ensures |out| == |tasks| && Distinct(out) && Elems(out) == Elems(Ids(tasks))
    ensures exists n: nat :: n <= |out| && ReadyFirst(tasks, out, n)
  {
    ghost var g := GraphOf(tasks);
    var indegree, dependents := BuildIndex(tasks);
    SeedQueue(g, Ids(tasks), indegree, Free(tasks, indegree));
    out := Drain(g, dependents, indegree, Sort(Free(tasks, indegree)));
    Finish(g, Ids(tasks), out, Leftover(tasks, out));
    if |out| != |tasks| {
      out := out + Sort(Leftover(tasks, out));
    }
    ghost var n: nat :| KahnResult(g, out, n);
    ResultReadyFirst(tasks, out, n);
  }
}
