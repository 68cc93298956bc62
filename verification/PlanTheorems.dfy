// Planner and executor together: what the input graph says about the outcome of running its plan.
module PlanTheorems {
  import opened IdOrder
  import opened Dag
  import opened Kahn
  import opened GroupPlanner
  import opened PlanExecution

  ghost predicate LinkedBy(entities: seq<Entity>, keys: seq<string>, relations: seq<Relation>, f: nat, t: nat)
    requires f < |keys| && t < |keys|
  {
    exists r :: r in relations && Links(entities, keys, r, f, t)
  }

  ghost function SourceIds(entities: seq<Entity>, keys: seq<string>, relations: seq<Relation>, t: nat): set<TaskId>
    requires t < |keys|
  {
    set f: nat | f < |keys| && LinkedBy(entities, keys, relations, f, t) :: IdOf(f)
  }

  /** The dependency graph read off the planner's input: cluster `t` depends on every cluster a relation leads from. */
  ghost function TypeGraph(entities: seq<Entity>, relations: seq<Relation>, maxTasks: int): Graph {
    var keys := TaskKeys(entities, maxTasks);
    map id | id in ClusterIds(keys) :: SourceIds(entities, keys, relations, IndexOf(keys, id))
  }

  ghost function ClusterIds(keys: seq<string>): set<TaskId> { set i: nat | i < |keys| :: IdOf(i) }

  ghost function IndexOf(keys: seq<string>, id: TaskId): (i: nat)
    requires id in ClusterIds(keys)
    ensures i < |keys| && IdOf(i) == id
  {
    var i: nat :| i < |keys| && IdOf(i) == id; i
  }

  /** Dependencies of a planned task are exactly the clusters some relation leads from. */
  lemma SourcesAreLinks(entities: seq<Entity>, keys: seq<string>, relations: seq<Relation>, edges: seq<TaskEdge>, t: nat)
    requires EdgesExact(entities, keys, relations, edges) && t < |keys|
    ensures Elems(Sources(edges, IdOf(t))) == SourceIds(entities, keys, relations, t)
  {
    forall d | d in Sources(edges, IdOf(t)) ensures d in SourceIds(entities, keys, relations, t) {
      var i :| 0 <= i < |edges| && edges[i].from == d && edges[i].to == IdOf(t);
      assert IsFirstLink(entities, keys, relations, edges[i]);
      var k, f, t' :| 0 <= k < |relations| && 0 <= f < |keys| && 0 <= t' < |keys|
        && FirstLinkAt(entities, keys, relations, k, f, t') && edges[i] == TaskEdge(IdOf(f), IdOf(t'), relations[k].kind);
      IdOfInjective(t, t');
      assert LinkedBy(entities, keys, relations, f, t);
    }
    forall d | d in SourceIds(entities, keys, relations, t) ensures d in Sources(edges, IdOf(t)) {
      var f: nat :| f < |keys| && LinkedBy(entities, keys, relations, f, t) && d == IdOf(f);
      var r :| r in relations && Links(entities, keys, r, f, t);
      assert HasEdge(edges, IdOf(f), IdOf(t));
    }
  }

  /** The plan's dependency graph is the one the input describes. */
  lemma PlanGraph(goal: string, entities: seq<Entity>, relations: seq<Relation>, maxTasks: int, plan: Plan)
    requires IsPlan(goal, entities, relations, maxTasks, plan)
    ensures GraphOf(plan.tasks) == TypeGraph(entities, relations, maxTasks)
  {
    PlannedGraph(entities, relations, maxTasks, plan.edges, plan.tasks);
  }

  lemma PlannedGraph(entities: seq<Entity>, relations: seq<Relation>, maxTasks: int, edges: seq<TaskEdge>, tasks: seq<TaskNode>)
    requires EdgesExact(entities, TaskKeys(entities, maxTasks), relations, edges) && Distinct(Ids(tasks))
    requires |tasks| == |TaskKeys(entities, maxTasks)|
    requires forall i :: 0 <= i < |tasks| ==> Node(entities, TaskKeys(entities, maxTasks), edges, i) in tasks
    ensures GraphOf(tasks) == TypeGraph(entities, relations, maxTasks)
  {
    var keys := TaskKeys(entities, maxTasks);
    var g, tg := GraphOf(tasks), TypeGraph(entities, relations, maxTasks);
    assert tg.Keys == ClusterIds(keys);
    forall id | id in ClusterIds(keys) ensures id in g && g[id] == tg[id] {
      PlannedNode(entities, keys, relations, edges, tasks, id);
    }
    AllClusters(keys, Ids(tasks), ClusterIds(keys));
  }

  lemma AllClusters(keys: seq<string>, ids: seq<TaskId>, clusters: set<TaskId>)
    requires clusters == ClusterIds(keys) && clusters <= Elems(ids) && |ids| == |keys| && Distinct(ids)
    ensures Elems(ids) == clusters
  {
    ClusterIdsCount(keys);
    DistinctCardinality(ids);
    SameSizeSubset(clusters, Elems(ids));
  }

  lemma PlannedNode(entities: seq<Entity>, keys: seq<string>, relations: seq<Relation>, edges: seq<TaskEdge>,
                    tasks: seq<TaskNode>, id: TaskId)
    requires EdgesExact(entities, keys, relations, edges) && Distinct(Ids(tasks)) && id in ClusterIds(keys)
    requires forall i :: 0 <= i < |keys| ==> Node(entities, keys, edges, i) in tasks
    ensures id in GraphOf(tasks) && GraphOf(tasks)[id] == SourceIds(entities, keys, relations, IndexOf(keys, id))
  {
    var i := IndexOf(keys, id);
    SourcesAreLinks(entities, keys, relations, edges, i);
    var node := Node(entities, keys, edges, i);
    assert node in tasks;
    var j :| 0 <= j < |tasks| && tasks[j] == node;
    assert Ids(tasks)[j] == id;
  }

  lemma SameSizeSubset<T>(a: set<T>, b: set<T>)
    requires a <= b && |a| == |b|
    ensures a == b
  {
    assert b == a + (b - a);
  }

  lemma ClusterIdsCount(keys: seq<string>)
    ensures |ClusterIds(keys)| == |keys|
  {
    var ids := seq(|keys|, i requires 0 <= i < |keys| => IdOf(i));
    forall i, j | 0 <= i < j < |ids| ensures ids[i] != ids[j] {
      if IdOf(i) == IdOf(j) { IdOfInjective(i, j); }
    }
    DistinctCardinality(ids);
    forall x ensures x in Elems(ids) <==> x in ClusterIds(keys) {
      if x in ClusterIds(keys) {
        assert ids[IndexOf(keys, x)] == x;
      }
      if x in ids {
        var i :| 0 <= i < |ids| && ids[i] == x;
        assert IdOf(i) in ClusterIds(keys);
      }
    }
    assert Elems(ids) == ClusterIds(keys);
  }

  /**
   * Planning and executing acyclic input: whatever the agents do, every task ends done, failed or skipped, and
   * exactly the tasks above a failed one are skipped.
   */
  lemma PlannedExecutionComplete(goal: string, entities: seq<Entity>, relations: seq<Relation>, maxTasks: int, plan: Plan,
                                 trace: seq<Start>, rounds: Statuses, final: Statuses)
    requires IsPlan(goal, entities, relations, maxTasks, plan)
    requires IsExecution(plan.tasks, trace, rounds, final)
    requires Acyclic(TypeGraph(entities, relations, maxTasks))
    ensures Settled(GraphOf(plan.tasks), trace, rounds, final)
  {
    PlanGraph(goal, entities, relations, maxTasks, plan);
    var n: nat :| KahnResult(GraphOf(plan.tasks), Ids(plan.tasks), n);
    KahnCorrect(GraphOf(plan.tasks), Ids(plan.tasks), n);
    OrderedPlanComplete(plan.tasks, trace, rounds, final);
  }

  /**
   * The planner does not reject cyclic input. When no agent fails, a run of its plan leaves a task pending
   * exactly when the relations between the clusters are cyclic.
   */
  lemma PendingIffCyclic(goal: string, entities: seq<Entity>, relations: seq<Relation>, maxTasks: int, plan: Plan,
                         trace: seq<Start>, rounds: Statuses, final: Statuses)
    requires IsPlan(goal, entities, relations, maxTasks, plan)
    requires IsExecution(plan.tasks, trace, rounds, final)
    requires forall x :: x in rounds ==> rounds[x] != Failed
    ensures (exists x :: x in final && final[x] == Pending) <==> !Acyclic(TypeGraph(entities, relations, maxTasks))
  {
    PlanGraph(goal, entities, relations, maxTasks, plan);
    var g := GraphOf(plan.tasks);
    if Acyclic(g) {
      PlannedExecutionComplete(goal, entities, relations, maxTasks, plan, trace, rounds, final);
      forall x | x in final ensures final[x] != Pending {
        assert SettledAt(g, trace, rounds, x, final[x]);
      }
    } else {
      var p :| IsCycle(g, p);
      CycleNeverStarts(g, trace, rounds, p);
      NothingSkipped(plan.tasks, rounds, final, p[0]);
    }
  }

  lemma NothingSkipped(tasks: seq<TaskNode>, rounds: Statuses, final: Statuses, x: TaskId)
    requires Distinct(Ids(tasks)) && SkipPass(tasks, rounds, final) && rounds.Keys == GraphOf(tasks).Keys
    requires forall y :: y in rounds ==> rounds[y] in {Done, Pending}
    requires x in rounds && rounds[x] == Pending
    ensures x in final && final[x] == Pending
  {
    assert x in Ids(tasks);
    var i :| 0 <= i < |tasks| && Ids(tasks)[i] == x;
    if final[tasks[i].id] == Skipped {
      SkippedAboveFailure(tasks, rounds, final, i);
      NoFailurePath(GraphOf(tasks), rounds, x);
    }
  }

  lemma NoFailurePath(g: Graph, rounds: Statuses, x: TaskId)
    requires forall y :: y in rounds ==> rounds[y] in {Done, Pending}
    ensures !DependsOnFailed(g, rounds, x)
  {
    forall p ensures !FailurePath(g, rounds, p) {}
  }

  /** Two clusters related both ways: the planner's comment that its input is a DAG by construction does not hold. */
  lemma PlannerAcceptsCycle()
    ensures var entities := [Entity("a", "page"), Entity("b", "form")];
            var relations := [Relation("a", "opens", "b"), Relation("b", "posts", "a")];
            !Acyclic(TypeGraph(entities, relations, 8))
  {
    var first, second := Entity("a", "page"), Entity("b", "form");
    KeysStep([], first);
    KeysStep([first], second);
    assert [] + [first] == [first] && [first] + [second] == [first, second];
    assert [first, second][1..] == [second];
    var there, back := Relation("a", "opens", "b"), Relation("b", "posts", "a");
    assert TaskKeys([first, second], 8) == ["page", "form"];
    LinksTypes([first, second], ["page", "form"], there, 0, 1);
    LinksTypes([first, second], ["page", "form"], back, 1, 0);
    MutualLinksCycle([first, second], [there, back], 8, there, back);
  }

  /** Any two clusters that are related both ways form a cycle. */
  lemma MutualLinksCycle(entities: seq<Entity>, relations: seq<Relation>, maxTasks: int, there: Relation, back: Relation)
    requires |TaskKeys(entities, maxTasks)| >= 2 && there in relations && back in relations
    requires Links(entities, TaskKeys(entities, maxTasks), there, 0, 1) && Links(entities, TaskKeys(entities, maxTasks), back, 1, 0)
    ensures !Acyclic(TypeGraph(entities, relations, maxTasks))
  {
    var keys, g := TaskKeys(entities, maxTasks), TypeGraph(entities, relations, maxTasks);
    assert LinkedBy(entities, keys, relations, 0, 1) && LinkedBy(entities, keys, relations, 1, 0);
    assert IdOf(0) in ClusterIds(keys) && IdOf(1) in ClusterIds(keys);
    IdOfInjective(IndexOf(keys, IdOf(0)), 0);
    IdOfInjective(IndexOf(keys, IdOf(1)), 1);
    assert IdOf(0) in g[IdOf(1)] && IdOf(1) in g[IdOf(0)];
    assert IsCycle(g, [IdOf(0), IdOf(1), IdOf(0)]);
  }

  /** A chain listed against its dependencies: `c` needs `b`, which needs `a`. */
  function ReversedChain(a: TaskId, b: TaskId, c: TaskId): (tasks: seq<TaskNode>)
    ensures Ids(tasks) == [c, b, a]
  {
    var tasks := [TaskNode(c, "", [], [b]), TaskNode(b, "", [], [a]), TaskNode(a, "", [], [])];
    assert Ids(tasks) == [c, b, a];
    tasks
  }

  lemma ReversedChainGraph(a: TaskId, b: TaskId, c: TaskId)
    requires a != b && b != c && a != c
    ensures GraphOf(ReversedChain(a, b, c)) == map[a := {}, b := {a}, c := {b}]
  {
    var tasks := ReversedChain(a, b, c);
    var g := GraphOf(tasks);
    assert g[tasks[0].id] == {b} && g[tasks[1].id] == {a} && g[tasks[2].id] == {};
  }

  lemma ChainAcyclic(a: TaskId, b: TaskId, c: TaskId)
    requires a != b && b != c && a != c
    ensures Acyclic(map[a := {}, b := {a}, c := {b}])
  {
    var g: Graph := map[a := {}, b := {a}, c := {b}];
    var o := [a, b, c];
    assert o[..0] == [] && o[..1] == [a] && o[..2] == [a, b];
    assert Ordered(g, o);
    forall p ensures !IsCycle(g, p) {
      if IsCycle(g, p) {
        CycleHead(g, p);
        CycleAvoidsOrder(g, o, p);
      }
    }
  }

  lemma CycleHead(g: Graph, p: seq<TaskId>)
    requires IsCycle(g, p)
    ensures p[0] in g
  {
    assert p[0] in g && p[0 + 1] in g[p[0]];
  }

  /** The skip pass alone does not settle a plan listed against its dependencies: when `a` fails, `c` stays pending. */
  lemma UnorderedPlanCanStayPending(a: TaskId, b: TaskId, c: TaskId)
    requires a != b && b != c && a != c
    ensures Acyclic(GraphOf(ReversedChain(a, b, c)))
    ensures IsExecution(ReversedChain(a, b, c), [Start(a, false)],
                        map[a := Failed, b := Pending, c := Pending], map[a := Failed, b := Skipped, c := Pending])
  {
    ReversedChainGraph(a, b, c);
    ChainAcyclic(a, b, c);
    ReversedChainTrace(a, b, c);
    ReversedChainSkips(a, b, c);
  }

  lemma ReversedChainTrace(a: TaskId, b: TaskId, c: TaskId)
    requires a != b && b != c && a != c
    ensures var g: Graph := map[a := {}, b := {a}, c := {b}];
            var trace := [Start(a, false)];
            ValidTrace(g, trace) && Exhausted(g, trace) && Reflects(g, trace, map[a := Failed, b := Pending, c := Pending])
  {
    var g: Graph := map[a := {}, b := {a}, c := {b}];
    var trace := [Start(a, false)];
    assert [] + trace == trace;
    ValidAppend(g, [], Start(a, false));
    assert trace[0] in trace;
    assert Started(trace) == {a} && Succeeded(trace) == {};
    assert b in g[c] && a in g[b];
  }

  lemma ReversedChainSkips(a: TaskId, b: TaskId, c: TaskId)
    requires a != b && b != c && a != c
    ensures SkipPass(ReversedChain(a, b, c), map[a := Failed, b := Pending, c := Pending], map[a := Failed, b := Skipped, c := Pending])
  {
    var tasks := ReversedChain(a, b, c);
    var rounds := map[a := Failed, b := Pending, c := Pending];
    var final := map[a := Failed, b := Skipped, c := Pending];
    assert a in tasks[1].dependsOn && BlockedAt(tasks, rounds, final, 1);
    assert tasks[0].dependsOn == [b];
  }
}
