// Clustering graph entities into tasks and turning relations into dependencies.
module GroupPlanner {
  import opened IdOrder
  import opened Dag
  import opened Kahn
  import opened Text

  datatype Entity = Entity(name: string, kind: string)
  datatype Relation = Relation(source: string, kind: string, target: string)
  datatype TaskEdge = TaskEdge(from: TaskId, to: TaskId, kind: string)
  datatype Plan = Plan(goal: string, tasks: seq<TaskNode>, edges: seq<TaskEdge>)

  // ---- task ids ----

  function IdOf(i: nat): TaskId { TaskId("task-" + Decimal(i + 1)) }

  lemma IdOfInjective(i: nat, j: nat)
    requires IdOf(i) == IdOf(j)
    ensures i == j
  {
    var a, b := "task-" + Decimal(i + 1), "task-" + Decimal(j + 1);
    assert a == b && a[5..] == Decimal(i + 1) && b[5..] == Decimal(j + 1);
    DecimalInjective(i + 1, j + 1);
  }

  // ---- clusters ----

  function ClusterKey(e: Entity): string { if e.kind == "" then "unknown" else e.kind }

  /** The cluster keys in order of first appearance. */
  function ClusterKeys(entities: seq<Entity>): (keys: seq<string>)
    ensures Distinct(keys)
    ensures forall e :: e in entities ==> ClusterKey(e) in keys
  {
    if entities == [] then []
    else
      var front := entities[..|entities| - 1];
      var key := ClusterKey(entities[|entities| - 1]);
      var keys := ClusterKeys(front);
      assert entities == front + [entities[|entities| - 1]];
      if key in keys then keys else keys + [key]
  }

  function Members(entities: seq<Entity>, key: string): seq<string> {
    if entities == [] then []
    else
      var last := entities[|entities| - 1];
      Members(entities[..|entities| - 1], key) + if ClusterKey(last) == key then [last.name] else []
  }

  /** The clusters that become tasks: the first `maxTasks` of them. */
  function TaskKeys(entities: seq<Entity>, maxTasks: int): (keys: seq<string>)
    ensures Distinct(keys)
  {
    var keys := ClusterKeys(entities);
    keys[..if maxTasks <= 0 then 0 else if maxTasks < |keys| then maxTasks else |keys|]
  }

  /** The raw type of the first entity called `name`; empty when there is none. */
  function TypeOf(entities: seq<Entity>, name: string): string {
    if entities == [] then "" else if entities[0].name == name then entities[0].kind else TypeOf(entities[1..], name)
  }

  // ---- edges ----

  /** Entity `i` is the first one called `name`. */
  predicate FirstNamed(entities: seq<Entity>, name: string, i: nat)
    requires i < |entities|
  {
    entities[i].name == name && forall j :: 0 <= j < i ==> entities[j].name != name
  }

  /** Some entity is the first one called `name`, and its type is `kind`. */
  predicate FirstHasKind(entities: seq<Entity>, name: string, kind: string) {
    exists i :: 0 <= i < |entities| && FirstNamed(entities, name, i) && entities[i].kind == kind
  }

  /** `r` makes cluster `f` a dependency of cluster `t`. */
  predicate Links(entities: seq<Entity>, keys: seq<string>, r: Relation, f: nat, t: nat)
    requires f < |keys| && t < |keys|
  {
    && FirstHasKind(entities, r.source, keys[f]) && FirstHasKind(entities, r.target, keys[t])
    && keys[f] != "" && keys[t] != "" && f != t
  }

  lemma {:induction false} TypeOfIsFirst(entities: seq<Entity>, name: string, kind: string)
    requires kind != ""
    ensures TypeOf(entities, name) == kind <==> FirstHasKind(entities, name, kind)
    decreases |entities|
  {
    if entities != [] {
      var rest := entities[1..];
      TypeOfIsFirst(rest, name, kind);
      if entities[0].name == name {
        assert FirstNamed(entities, name, 0);
      } else {
        if i :| 0 <= i < |rest| && FirstNamed(rest, name, i) && rest[i].kind == kind {
          assert FirstNamed(entities, name, i + 1) by {
            forall j | 0 <= j < i + 1 ensures entities[j].name != name { assert j > 0 ==> entities[j] == rest[j - 1]; }
          }
        }
        if i :| 0 <= i < |entities| && FirstNamed(entities, name, i) && entities[i].kind == kind {
          assert FirstNamed(rest, name, i - 1) && rest[i - 1].kind == kind;
        }
      }
    }
  }

  lemma LinksTypes(entities: seq<Entity>, keys: seq<string>, r: Relation, f: nat, t: nat)
    requires f < |keys| && t < |keys|
    ensures Links(entities, keys, r, f, t) <==>
            TypeOf(entities, r.source) == keys[f] != "" && TypeOf(entities, r.target) == keys[t] != "" && f != t
  {
    if keys[f] != "" { TypeOfIsFirst(entities, r.source, keys[f]); }
    if keys[t] != "" { TypeOfIsFirst(entities, r.target, keys[t]); }
  }

  function Sources(edges: seq<TaskEdge>, t: TaskId): (s: seq<TaskId>)
    ensures forall f :: f in s <==> exists i :: 0 <= i < |edges| && edges[i].from == f && edges[i].to == t
  {
    if edges == [] then []
    else
      var front, last := edges[..|edges| - 1], edges[|edges| - 1];
      assert forall i :: 0 <= i < |front| ==> edges[i] == front[i];
      Sources(front, t) + if last.to == t then [last.from] else []
  }

  ghost predicate HasEdge(edges: seq<TaskEdge>, f: TaskId, t: TaskId) {
    exists i :: 0 <= i < |edges| && edges[i].from == f && edges[i].to == t
  }

  /** One edge per linked pair of clusters among the first `n` relations, carrying the kind of the first such relation. */
  ghost predicate EdgesExact(entities: seq<Entity>, keys: seq<string>, relations: seq<Relation>, edges: seq<TaskEdge>) {
    && (forall i, j :: 0 <= i < j < |edges| ==> !(edges[i].from == edges[j].from && edges[i].to == edges[j].to))
    && (forall i :: 0 <= i < |edges| ==> IsFirstLink(entities, keys, relations, edges[i]))
    && (forall r, f, t :: r in relations && 0 <= f < |keys| && 0 <= t < |keys| && Links(entities, keys, r, f, t) ==>
          HasEdge(edges, IdOf(f), IdOf(t)))
  }

  ghost predicate IsFirstLink(entities: seq<Entity>, keys: seq<string>, relations: seq<Relation>, e: TaskEdge) {
    exists k, f, t :: 0 <= k < |relations| && 0 <= f < |keys| && 0 <= t < |keys|
      && FirstLinkAt(entities, keys, relations, k, f, t) && e == TaskEdge(IdOf(f), IdOf(t), relations[k].kind)
  }

  ghost predicate FirstLinkAt(entities: seq<Entity>, keys: seq<string>, relations: seq<Relation>, k: nat, f: nat, t: nat)
    requires k < |relations| && f < |keys| && t < |keys|
  {
    Links(entities, keys, relations[k], f, t) && forall j :: 0 <= j < k ==> !Links(entities, keys, relations[j], f, t)
  }

  /** Relation `k` is the first one that makes `e` an edge. */
  ghost predicate FirstFor(entities: seq<Entity>, keys: seq<string>, relations: seq<Relation>, k: nat, e: TaskEdge)
    requires k < |relations|
  {
    exists f, t :: 0 <= f < |keys| && 0 <= t < |keys|
      && FirstLinkAt(entities, keys, relations, k, f, t) && e == TaskEdge(IdOf(f), IdOf(t), relations[k].kind)
  }

  ghost predicate EdgesInOrder(entities: seq<Entity>, keys: seq<string>, relations: seq<Relation>, edges: seq<TaskEdge>) {
    forall i, j, k, l | 0 <= i < j < |edges| && 0 <= k < |relations| && 0 <= l < |relations|
      && FirstFor(entities, keys, relations, k, edges[i]) && FirstFor(entities, keys, relations, l, edges[j]) :: k < l
  }

  function Node(entities: seq<Entity>, keys: seq<string>, edges: seq<TaskEdge>, i: nat): TaskNode
    requires i < |keys|
  {
    TaskNode(IdOf(i), "Work on " + keys[i], Members(entities, keys[i]), Sources(edges, IdOf(i)))
  }

  /** What `GroupPlanner.plan` promises: one task per cluster, dependencies from relations, Kahn's order. */
  ghost predicate IsPlan(goal: string, entities: seq<Entity>, relations: seq<Relation>, maxTasks: int, plan: Plan) {
    var keys := TaskKeys(entities, maxTasks);
    && plan.goal == goal
    && EdgesExact(entities, keys, relations, plan.edges)
    && |plan.tasks| == |keys|
    && (forall i :: 0 <= i < |keys| ==> Node(entities, keys, plan.edges, i) in plan.tasks)
    && WellFormed(plan.tasks) && Closed(GraphOf(plan.tasks))
    && exists n: nat :: KahnResult(GraphOf(plan.tasks), Ids(plan.tasks), n)
  }

  // ---- what a plan says about its input ----

  /** Entities without a type count as unknown. */
  predicate OfKind(e: Entity, key: string) { (e.kind == key && key != "") || (e.kind == "" && key == "unknown") }

  /** The names of the entities of a kind: all of them, in order. */
  ghost predicate Selects(entities: seq<Entity>, key: string, names: seq<string>) {
    exists at: seq<nat> :: SelectedAt(entities, key, names, at)
  }

  ghost predicate SelectedAt(entities: seq<Entity>, key: string, names: seq<string>, at: seq<nat>) {
    && |at| == |names| && (forall m, n :: 0 <= m < n < |at| ==> at[m] < at[n])
    && (forall m :: 0 <= m < |at| ==> at[m] < |entities| && OfKind(entities[at[m]], key) && names[m] == entities[at[m]].name)
    && forall i :: 0 <= i < |entities| && OfKind(entities[i], key) ==> i in at
  }

  /** Kinds in order of first appearance, without repetition. */
  ghost predicate InOrderOfAppearance(entities: seq<Entity>, keys: seq<string>) {
    Distinct(keys) && forall p :: 0 <= p < |keys| ==> Appears(entities, keys, p)
  }

  /** Some entity is of kind `p`, and all before it are of earlier kinds. */
  ghost predicate Appears(entities: seq<Entity>, keys: seq<string>, p: nat)
    requires p < |keys|
  {
    exists i :: 0 <= i < |entities| && OfKind(entities[i], keys[p]) && AllAmong(entities[..i], keys[..p])
  }

  ghost predicate AllAmong(entities: seq<Entity>, keys: seq<string>) { forall e :: e in entities ==> Among(e, keys) }

  predicate Among(e: Entity, keys: seq<string>) { exists q :: 0 <= q < |keys| && OfKind(e, keys[q]) }

  /** The first `maxTasks` kinds; all of them if there are not more. */
  ghost predicate FirstKinds(entities: seq<Entity>, maxTasks: int, keys: seq<string>) {
    && InOrderOfAppearance(entities, keys)
    && |keys| <= (if maxTasks > 0 then maxTasks else 0)
    && (|keys| < maxTasks ==> AllAmong(entities, keys))
  }

  /** One task for each of the kinds: its number, its title, the entities of that kind, and what its edges come from. */
  ghost predicate TaskFor(entities: seq<Entity>, plan: Plan, key: string, p: nat, task: TaskNode) {
    && task in plan.tasks && task.id == TaskId("task-" + Decimal(p + 1)) && task.title == "Work on " + key
    && Selects(entities, key, task.entityScope)
    && forall d :: d in task.dependsOn <==> HasEdge(plan.edges, d, task.id)
  }

  ghost predicate HasTask(entities: seq<Entity>, plan: Plan, keys: seq<string>, p: nat)
    requires p < |keys|
  {
    exists task :: TaskFor(entities, plan, keys[p], p, task)
  }

  ghost predicate Reads(entities: seq<Entity>, relations: seq<Relation>, maxTasks: int, plan: Plan, keys: seq<string>) {
    && FirstKinds(entities, maxTasks, keys) && |plan.tasks| == |keys|
    && (forall p :: 0 <= p < |keys| ==> HasTask(entities, plan, keys, p))
    && EdgesExact(entities, keys, relations, plan.edges)
  }

  lemma KeyIsKind(e: Entity, key: string)
    ensures ClusterKey(e) == key <==> OfKind(e, key)
  {
  }

  lemma {:induction false} MembersSelected(entities: seq<Entity>, key: string) returns (at: seq<nat>)
    ensures SelectedAt(entities, key, Members(entities, key), at)
    decreases |entities|
  {
    if entities == [] {
      at := [];
    } else {
      var front, last := entities[..|entities| - 1], entities[|entities| - 1];
      var before := MembersSelected(front, key);
      KeyIsKind(last, key);
      if ClusterKey(last) == key {
        at := before + [|front|];
        SelectedMore(front, key, Members(front, key), before, last);
      } else {
        at := before;
        SelectedSame(front, key, Members(front, key), before, last);
        assert Members(entities, key) == Members(front, key);
      }
      assert entities == front + [last];
    }
  }

  lemma SelectedMore(front: seq<Entity>, key: string, names: seq<string>, at: seq<nat>, e: Entity)
    requires SelectedAt(front, key, names, at) && OfKind(e, key)
    ensures SelectedAt(front + [e], key, names + [e.name], at + [|front|])
  {
    var all, more := front + [e], at + [|front|];
    forall i | 0 <= i < |all| && OfKind(all[i], key) ensures i in more {
      if i < |front| { assert i in at; } else { assert more[|at|] == i; }
    }
  }

  lemma SelectedSame(front: seq<Entity>, key: string, names: seq<string>, at: seq<nat>, e: Entity)
    requires SelectedAt(front, key, names, at) && !OfKind(e, key)
    ensures SelectedAt(front + [e], key, names, at)
  {
  }

  lemma {:induction false} KeysAppear(entities: seq<Entity>)
    ensures InOrderOfAppearance(entities, ClusterKeys(entities)) && AllAmong(entities, ClusterKeys(entities))
    decreases |entities|
  {
    if entities != [] {
      var front, last := entities[..|entities| - 1], entities[|entities| - 1];
      var keys, all := ClusterKeys(front), ClusterKeys(entities);
      KeysAppear(front);
      KeyIsKind(last, ClusterKey(last));
      forall p | 0 <= p < |all| ensures Appears(entities, all, p) {
        if p < |keys| {
          AppearsMore(front, keys, p, entities, all);
        } else {
          assert entities[..|front|] == front && all[..p] == keys;
        }
      }
      AmongMore(front, keys, all);
      var q :| 0 <= q < |all| && all[q] == ClusterKey(last);
      assert OfKind(last, all[q]);
      assert entities == front + [last];
    }
  }

  lemma AmongMore(entities: seq<Entity>, keys: seq<string>, all: seq<string>)
    requires AllAmong(entities, keys) && keys <= all
    ensures AllAmong(entities, all)
  {
    forall e | e in entities ensures Among(e, all) {
      var q :| 0 <= q < |keys| && OfKind(e, keys[q]);
      assert OfKind(e, all[q]);
    }
  }

  lemma AppearsMore(entities: seq<Entity>, keys: seq<string>, p: nat, more: seq<Entity>, all: seq<string>)
    requires p < |keys| && p < |all| && Appears(entities, keys, p) && entities <= more && keys[..p + 1] == all[..p + 1]
    ensures Appears(more, all, p)
  {
    var i :| 0 <= i < |entities| && OfKind(entities[i], keys[p]) && AllAmong(entities[..i], keys[..p]);
    assert entities[..i] == more[..i] && keys[..p] == keys[..p + 1][..p] == all[..p + 1][..p] == all[..p];
    assert keys[p] == keys[..p + 1][p] == all[p] && OfKind(more[i], all[p]);
  }

  lemma KeysPrefix(entities: seq<Entity>, keys: seq<string>, n: nat)
    requires InOrderOfAppearance(entities, keys) && n <= |keys|
    ensures InOrderOfAppearance(entities, keys[..n])
  {
    forall p | 0 <= p < n ensures Appears(entities, keys[..n], p) { AppearsMore(entities, keys, p, entities, keys[..n]); }
  }

  lemma TaskKeysAreFirst(entities: seq<Entity>, maxTasks: int)
    ensures FirstKinds(entities, maxTasks, TaskKeys(entities, maxTasks))
  {
    var keys := ClusterKeys(entities);
    KeysAppear(entities);
    KeysPrefix(entities, keys, |TaskKeys(entities, maxTasks)|);
    assert |TaskKeys(entities, maxTasks)| < maxTasks ==> TaskKeys(entities, maxTasks) == keys;
  }

  lemma SourcesFor(edges: seq<TaskEdge>, t: TaskId)
    ensures forall d :: d in Sources(edges, t) <==> HasEdge(edges, d, t)
  {
  }

  lemma PlanReads(goal: string, entities: seq<Entity>, relations: seq<Relation>, maxTasks: int, plan: Plan)
    requires IsPlan(goal, entities, relations, maxTasks, plan)
    ensures Reads(entities, relations, maxTasks, plan, TaskKeys(entities, maxTasks))
    ensures exists n: nat :: n <= |plan.tasks| && ReadyFirst(plan.tasks, Ids(plan.tasks), n)
  {
    var n: nat :| KahnResult(GraphOf(plan.tasks), Ids(plan.tasks), n);
    ResultReadyFirst(plan.tasks, Ids(plan.tasks), n);
    var keys := TaskKeys(entities, maxTasks);
    TaskKeysAreFirst(entities, maxTasks);
    forall p | 0 <= p < |keys| ensures HasTask(entities, plan, keys, p) {
      var at := MembersSelected(entities, keys[p]);
      var node := Node(entities, keys, plan.edges, p);
      SourcesFor(plan.edges, node.id);
      assert TaskFor(entities, plan, keys[p], p, node);
    }
  }

  // ---- the algorithm ----

  ghost predicate Grouped(byType: map<string, seq<string>>, entities: seq<Entity>) {
    forall key :: Members(entities, key) == if key in byType then byType[key] else []
  }

  lemma GroupStep(byType: map<string, seq<string>>, entities: seq<Entity>, e: Entity)
    requires Grouped(byType, entities)
    ensures var key := ClusterKey(e);
            Grouped(byType[key := (if key in byType then byType[key] else []) + [e.name]], entities + [e])
  {
    assert (entities + [e])[..|entities|] == entities;
  }

  lemma KeysStep(entities: seq<Entity>, e: Entity)
    ensures ClusterKeys(entities + [e]) ==
            ClusterKeys(entities) + if ClusterKey(e) in ClusterKeys(entities) then [] else [ClusterKey(e)]
  {
    assert (entities + [e])[..|entities|] == entities;
  }

  ghost predicate Clustered(order: seq<string>, byType: map<string, seq<string>>, entities: seq<Entity>) {
    order == ClusterKeys(entities) && byType.Keys == Elems(order) && Grouped(byType, entities)
  }

  lemma TakeStep<T>(s: seq<T>, i: nat)
    requires i < |s|
    ensures s[..i + 1] == s[..i] + [s[i]]
  {
  }

  lemma KeysGrow<K, V>(m: map<K, V>, order: seq<K>, k: K, v: V)
    requires m.Keys == Elems(order)
    ensures m[k := v].Keys == Elems(if k in m then order else order + [k])
    ensures k in m <==> k in order
  {
    assert k in m.Keys <==> k in Elems(order);
  }

  lemma ClusterStep(order: seq<string>, byType: map<string, seq<string>>, before: seq<Entity>, e: Entity,
                    order': seq<string>, byType': map<string, seq<string>>, after: seq<Entity>)
    requires Clustered(order, byType, before) && after == before + [e]
    requires order' == (if ClusterKey(e) in byType then order else order + [ClusterKey(e)])
    requires byType' == byType[ClusterKey(e) := (if ClusterKey(e) in byType then byType[ClusterKey(e)] else []) + [e.name]]
    ensures Clustered(order', byType', after)
  {
    KeysStep(before, e);
    GroupStep(byType, before, e);
    KeysGrow(byType, order, ClusterKey(e), (if ClusterKey(e) in byType then byType[ClusterKey(e)] else []) + [e.name]);
  }

  method AddToCluster(order0: seq<string>, byType0: map<string, seq<string>>, ghost before: seq<Entity>, entity: Entity)
    returns (order: seq<string>, byType: map<string, seq<string>>)
    requires Clustered(order0, byType0, before)
    ensures Clustered(order, byType, before + [entity])
  {
    var kind := if entity.kind == "" then "unknown" else entity.kind;
    var list := if kind in byType0 then byType0[kind] else [];
    order := if kind in byType0 then order0 else order0 + [kind];
    byType := byType0[kind := list + [entity.name]];
    ClusterStep(order0, byType0, before, entity, order, byType, before + [entity]);
  }

  method Cluster(entities: seq<Entity>) returns (order: seq<string>, byType: map<string, seq<string>>)
    ensures Clustered(order, byType, entities)
    ensures InOrderOfAppearance(entities, order) && forall key :: key in byType ==> Selects(entities, key, byType[key])
  {
    order, byType := [], map[];
    for i := 0 to |entities|
      invariant Clustered(order, byType, entities[..i])
    {
      TakeStep(entities, i);
      order, byType := AddToCluster(order, byType, entities[..i], entities[i]);
    }
    assert entities[..|entities|] == entities;
    KeysAppear(entities);
    forall key | key in byType ensures Selects(entities, key, byType[key]) {
      var at := MembersSelected(entities, key);
      assert byType[key] == Members(entities, key);
    }
  }

  /** Task `k` before any dependency is known. */
  function BareNode(order: seq<string>, byType: map<string, seq<string>>, k: nat): TaskNode
    requires k < |order| && order[k] in byType
  {
    TaskNode(IdOf(k), "Work on " + order[k], byType[order[k]], [])
  }

  ghost predicate IdsUpTo(taskIdByType: map<string, TaskId>, keys: seq<string>) {
    taskIdByType.Keys == Elems(keys) && forall k :: 0 <= k < |keys| ==> taskIdByType[keys[k]] == IdOf(k)
  }

  lemma IdsExtend(taskIdByType: map<string, TaskId>, keys: seq<string>, key: string)
    requires IdsUpTo(taskIdByType, keys) && key !in keys
    ensures IdsUpTo(taskIdByType[key := IdOf(|keys|)], keys + [key])
  {
  }

  method BuildNodes(maxTasks: int, order: seq<string>, byType: map<string, seq<string>>)
    returns (tasks: seq<TaskNode>, taskIdByType: map<string, TaskId>)
    requires Distinct(order) && byType.Keys == Elems(order)
    ensures |tasks| == if maxTasks <= 0 then 0 else if maxTasks < |order| then maxTasks else |order|
    ensures forall k :: 0 <= k < |tasks| ==> tasks[k] == BareNode(order, byType, k)
    ensures IdsUpTo(taskIdByType, order[..|tasks|])
  {
    tasks, taskIdByType := [], map[];
    for i := 0 to |order|
      invariant |tasks| == i && (i == 0 || i <= maxTasks)
      invariant forall k :: 0 <= k < i ==> tasks[k] == BareNode(order, byType, k)
      invariant IdsUpTo(taskIdByType, order[..i])
    {
      if |tasks| >= maxTasks { break; }
      var key := order[i];
      assert order[..i + 1] == order[..i] + [key];
      IdsExtend(taskIdByType, order[..i], key);
      var id := TaskId("task-" + Decimal(|tasks| + 1));
      taskIdByType := taskIdByType[key := id];
      tasks := tasks + [TaskNode(id, "Work on " + key, byType[key], [])];
    }
  }

  // ---- deriving edges ----

  /** Which task a name belongs to: its first entity's raw type, when that type has a task. */
  function TaskOf(entities: seq<Entity>, taskIdByType: map<string, TaskId>, name: string): (id: seq<TaskId>)
    ensures |id| <= 1
  {
    var kind := TypeOf(entities, name);
    if kind != "" && kind in taskIdByType then [taskIdByType[kind]] else []
  }

  method FindType(entities: seq<Entity>, name: string) returns (kind: string)
    ensures kind == TypeOf(entities, name)
    ensures forall i :: 0 <= i < |entities| && FirstNamed(entities, name, i) ==> kind == entities[i].kind
    ensures (forall i :: 0 <= i < |entities| ==> entities[i].name != name) ==> kind == ""
  {
    for i := 0 to |entities|
      invariant TypeOf(entities, name) == TypeOf(entities[i..], name)
      invariant forall j :: 0 <= j < i ==> entities[j].name != name
    {
      if entities[i].name == name { return entities[i].kind; }
    }
    return "";
  }

  lemma TaskOfKey(entities: seq<Entity>, taskIdByType: map<string, TaskId>, keys: seq<string>, name: string, f: nat)
    requires IdsUpTo(taskIdByType, keys) && Distinct(keys) && f < |keys|
    ensures TaskOf(entities, taskIdByType, name) == [IdOf(f)] <==> TypeOf(entities, name) == keys[f] != ""
  {
    var kind := TypeOf(entities, name);
    if kind in taskIdByType {
      var k :| 0 <= k < |keys| && keys[k] == kind;
      if IdOf(k) == IdOf(f) { IdOfInjective(k, f); }
    } else {
      assert keys[f] in Elems(keys);
    }
  }

  /** The edge a relation asks for, if both ends belong to different tasks. */
  function EdgeOf(entities: seq<Entity>, taskIdByType: map<string, TaskId>, r: Relation): (e: seq<TaskEdge>)
    ensures |e| <= 1
  {
    var f, t := TaskOf(entities, taskIdByType, r.source), TaskOf(entities, taskIdByType, r.target);
    if f == [] || t == [] || f == t then [] else [TaskEdge(f[0], t[0], r.kind)]
  }

  /** The edges collected from the first relations, given the edge each relation asks for. */
  ghost predicate Collected(wanted: seq<seq<TaskEdge>>, edges: seq<TaskEdge>) {
    && (forall i, j :: 0 <= i < j < |edges| ==> !SamePair(edges[i], edges[j]))
    && (forall i :: 0 <= i < |edges| ==> Asked(wanted, edges[i]))
    && (forall k :: 0 <= k < |wanted| && wanted[k] != [] ==> HasEdge(edges, wanted[k][0].from, wanted[k][0].to))
  }

  /** Some relation asks for exactly `e`, and no earlier one for the same pair. */
  ghost predicate Asked(wanted: seq<seq<TaskEdge>>, e: TaskEdge) {
    exists k :: 0 <= k < |wanted| && FirstWanted(wanted, k, e)
  }

  lemma AskedExtend(wanted: seq<seq<TaskEdge>>, w: seq<TaskEdge>, e: TaskEdge)
    requires Asked(wanted, e)
    ensures Asked(wanted + [w], e)
  {
    var k :| 0 <= k < |wanted| && FirstWanted(wanted, k, e);
    assert FirstWanted(wanted + [w], k, e);
  }

  ghost predicate SamePair(a: TaskEdge, b: TaskEdge) { a.from == b.from && a.to == b.to }

  ghost predicate FirstWanted(wanted: seq<seq<TaskEdge>>, k: nat, e: TaskEdge)
    requires k < |wanted|
  {
    wanted[k] == [e] && forall j :: 0 <= j < k && wanted[j] != [] ==> !SamePair(wanted[j][0], e)
  }

  /** The edges stand in the order of the relations that first ask for them. */
  ghost predicate InTurn(wanted: seq<seq<TaskEdge>>, edges: seq<TaskEdge>) {
    forall i, j, k, l | 0 <= i < j < |edges| && 0 <= k < |wanted| && 0 <= l < |wanted|
      && FirstWanted(wanted, k, edges[i]) && FirstWanted(wanted, l, edges[j]) :: k < l
  }

  lemma FirstStays(wanted: seq<seq<TaskEdge>>, w: seq<TaskEdge>, e: TaskEdge, k: nat)
    requires k <= |wanted| && FirstWanted(wanted + [w], k, e)
    ensures k < |wanted| ==> FirstWanted(wanted, k, e)
    ensures Asked(wanted, e) ==> k < |wanted|
  {
    var all := wanted + [w];
    if k < |wanted| {
      forall j | 0 <= j < k && wanted[j] != [] ensures !SamePair(wanted[j][0], e) { assert all[j] == wanted[j]; }
    } else {
      forall j | 0 <= j < |wanted| ensures !FirstWanted(wanted, j, e) { assert all[j] == wanted[j]; }
    }
  }

  lemma InTurnSkip(wanted: seq<seq<TaskEdge>>, edges: seq<TaskEdge>, w: seq<TaskEdge>)
    requires Collected(wanted, edges) && InTurn(wanted, edges)
    ensures InTurn(wanted + [w], edges)
  {
    var all := wanted + [w];
    forall i, j, k, l | 0 <= i < j < |edges| && 0 <= k < |all| && 0 <= l < |all|
      && FirstWanted(all, k, edges[i]) && FirstWanted(all, l, edges[j]) ensures k < l
    {
      FirstStays(wanted, w, edges[i], k);
      FirstStays(wanted, w, edges[j], l);
    }
  }

  lemma InTurnAdd(wanted: seq<seq<TaskEdge>>, edges: seq<TaskEdge>, e: TaskEdge)
    requires Collected(wanted, edges) && InTurn(wanted, edges) && !HasEdge(edges, e.from, e.to)
    ensures InTurn(wanted + [[e]], edges + [e])
  {
    var all, es := wanted + [[e]], edges + [e];
    forall i, j, k, l | 0 <= i < j < |es| && 0 <= k < |all| && 0 <= l < |all|
      && FirstWanted(all, k, es[i]) && FirstWanted(all, l, es[j]) ensures k < l
    {
      assert Asked(wanted, edges[i]);
      FirstStays(wanted, [e], edges[i], k);
      if j < |edges| {
        FirstStays(wanted, [e], edges[j], l);
      }
    }
  }

  lemma CollectedSkip(wanted: seq<seq<TaskEdge>>, edges: seq<TaskEdge>, w: seq<TaskEdge>)
    requires Collected(wanted, edges)
    requires w == [] || HasEdge(edges, w[0].from, w[0].to)
    ensures Collected(wanted + [w], edges)
  {
    forall i | 0 <= i < |edges| ensures Asked(wanted + [w], edges[i]) {
      AskedExtend(wanted, w, edges[i]);
    }
    var all: seq<seq<TaskEdge>> := wanted + [w];
    forall k | 0 <= k < |all| && all[k] != [] ensures HasEdge(edges, all[k][0].from, all[k][0].to) {
      assert all[k] == if k < |wanted| then wanted[k] else w;
    }
  }

  lemma CollectedAdd(wanted: seq<seq<TaskEdge>>, edges: seq<TaskEdge>, e: TaskEdge)
    requires Collected(wanted, edges) && !HasEdge(edges, e.from, e.to)
    ensures Collected(wanted + [[e]], edges + [e])
  {
    var w, es := wanted + [[e]], edges + [e];
    forall i, j | 0 <= i < j < |es| ensures !SamePair(es[i], es[j]) {
      if j == |edges| {
        assert es[i] == edges[i] && es[j] == e;
        assert !HasEdge(edges, e.from, e.to);
      } else {
        assert !SamePair(edges[i], edges[j]);
      }
    }
    forall i | 0 <= i < |es| ensures Asked(w, es[i]) {
      if i < |edges| {
        AskedExtend(wanted, [e], edges[i]);
      } else {
        forall j | 0 <= j < |wanted| && w[j] != [] ensures !SamePair(w[j][0], e) {
          assert HasEdge(edges, wanted[j][0].from, wanted[j][0].to);
        }
        assert FirstWanted(w, |wanted|, e);
      }
    }
    forall k | 0 <= k < |w| && w[k] != [] ensures HasEdge(es, w[k][0].from, w[k][0].to) {
      if k < |wanted| {
        assert HasEdge(edges, wanted[k][0].from, wanted[k][0].to);
        var i :| 0 <= i < |edges| && edges[i].from == wanted[k][0].from && edges[i].to == wanted[k][0].to;
        assert es[i] == edges[i];
      } else {
        assert es[|edges|] == e;
      }
    }
  }

  lemma {:induction false} SourcesDistinct(edges: seq<TaskEdge>, t: TaskId)
    requires forall i, j :: 0 <= i < j < |edges| ==> !SamePair(edges[i], edges[j])
    ensures Distinct(Sources(edges, t))
  {
    if edges != [] {
      var front, last := edges[..|edges| - 1], edges[|edges| - 1];
      SourcesDistinct(front, t);
      forall i | 0 <= i < |front| && last.to == t ensures !(front[i].from == last.from && front[i].to == t) {
        assert !SamePair(edges[i], edges[|edges| - 1]);
      }
      assert last.to == t ==> last.from !in Sources(front, t);
    }
  }

  lemma SourcesAppend(edges: seq<TaskEdge>, e: TaskEdge, t: TaskId)
    ensures Sources(edges + [e], t) == Sources(edges, t) + if e.to == t then [e.from] else []
  {
    assert (edges + [e])[..|edges|] == edges;
  }

  /** Finds task `to` and records that it depends on `from`. */
  method AddDependency(tasks0: seq<TaskNode>, from: TaskId, to: TaskId) returns (tasks: seq<TaskNode>)
    requires Distinct(Ids(tasks0))
    requires forall k :: 0 <= k < |tasks0| ==> from !in tasks0[k].dependsOn || tasks0[k].id != to
    ensures |tasks| == |tasks0|
    ensures forall k :: 0 <= k < |tasks| ==>
              tasks[k] == tasks0[k].(dependsOn := tasks0[k].dependsOn + if tasks0[k].id == to then [from] else [])
  {
    tasks := tasks0;
    for k := 0 to |tasks0|
      invariant tasks == tasks0
      invariant forall j :: 0 <= j < k ==> tasks0[j].id != to
    {
      if tasks[k].id == to {
        assert forall j :: k < j < |tasks0| ==> Ids(tasks0)[j] != Ids(tasks0)[k];
        if from !in tasks[k].dependsOn {
          tasks := tasks[k := tasks[k].(dependsOn := tasks[k].dependsOn + [from])];
        }
        return;
      }
    }
  }

  ghost predicate DependsOnEdges(tasks0: seq<TaskNode>, tasks: seq<TaskNode>, edges: seq<TaskEdge>) {
    |tasks| == |tasks0| && forall k :: 0 <= k < |tasks| ==>
      tasks[k] == tasks0[k].(dependsOn := Sources(edges, tasks0[k].id))
  }

  ghost function Wanted(entities: seq<Entity>, taskIdByType: map<string, TaskId>, relations: seq<Relation>): (w: seq<seq<TaskEdge>>)
    ensures |w| == |relations|
  {
    seq(|relations|, k requires 0 <= k < |relations| => EdgeOf(entities, taskIdByType, relations[k]))
  }

  /** The edge a relation asks for: none when an end has no type, or no task, or both have the same. */
  method EdgeAsked(entities: seq<Entity>, taskIdByType: map<string, TaskId>, rel: Relation) returns (e: seq<TaskEdge>)
    ensures e == EdgeOf(entities, taskIdByType, rel)
  {
    var fromType := FindType(entities, rel.source);
    var toType := FindType(entities, rel.target);
    if fromType == "" || toType == "" || fromType !in taskIdByType || toType !in taskIdByType
       || taskIdByType[fromType] == taskIdByType[toType] {
      return [];
    }
    return [TaskEdge(taskIdByType[fromType], taskIdByType[toType], rel.kind)];
  }

  ghost predicate Gathered(wanted: seq<seq<TaskEdge>>, edges: seq<TaskEdge>) { Collected(wanted, edges) && InTurn(wanted, edges) }

  lemma GatheredNext(wanted: seq<seq<TaskEdge>>, edges: seq<TaskEdge>, w: seq<TaskEdge>)
    requires Gathered(wanted, edges) && |w| <= 1
    ensures w == [] || HasEdge(edges, w[0].from, w[0].to) ==> Gathered(wanted + [w], edges)
    ensures w != [] && !HasEdge(edges, w[0].from, w[0].to) ==> Gathered(wanted + [w], edges + w)
  {
    if w == [] || HasEdge(edges, w[0].from, w[0].to) {
      CollectedSkip(wanted, edges, w);
      InTurnSkip(wanted, edges, w);
    } else {
      assert w == [w[0]];
      CollectedAdd(wanted, edges, w[0]);
      InTurnAdd(wanted, edges, w[0]);
    }
  }

  method DeriveEdges(entities: seq<Entity>, relations: seq<Relation>, taskIdByType: map<string, TaskId>, tasks0: seq<TaskNode>)
    returns (tasks: seq<TaskNode>, edges: seq<TaskEdge>)
    requires Distinct(Ids(tasks0)) && forall k :: 0 <= k < |tasks0| ==> tasks0[k].dependsOn == []
    ensures Collected(Wanted(entities, taskIdByType, relations), edges)
    ensures InTurn(Wanted(entities, taskIdByType, relations), edges)
    ensures DependsOnEdges(tasks0, tasks, edges)
  {
    tasks, edges := tasks0, [];
    var edgeKeys: set<(TaskId, TaskId)> := {};
    ghost var wanted := Wanted(entities, taskIdByType, relations);
    for k := 0 to |relations|
      invariant Gathered(wanted[..k], edges) && DependsOnEdges(tasks0, tasks, edges)
      invariant forall f, t :: (f, t) in edgeKeys <==> HasEdge(edges, f, t)
    {
      var asked := EdgeAsked(entities, taskIdByType, relations[k]);
      assert wanted[..k + 1] == wanted[..k] + [asked];
      GatheredNext(wanted[..k], edges, asked);
      if asked == [] || (asked[0].from, asked[0].to) in edgeKeys { continue; }
      tasks := Extend(tasks0, tasks, edges, asked[0]);
      HasEdgeAppend(edges, asked[0]);
      edgeKeys := edgeKeys + {(asked[0].from, asked[0].to)};
      assert asked == [asked[0]];
      edges := edges + asked;
    }
    assert wanted[..|relations|] == wanted;
  }

  lemma HasEdgeAppend(edges: seq<TaskEdge>, e: TaskEdge)
    ensures forall f, t :: HasEdge(edges + [e], f, t) <==> HasEdge(edges, f, t) || (f == e.from && t == e.to)
  {
    var es := edges + [e];
    assert es[|edges|] == e;
    forall f, t | HasEdge(edges, f, t) ensures HasEdge(es, f, t) {
      var i :| 0 <= i < |edges| && edges[i].from == f && edges[i].to == t;
      assert es[i] == edges[i];
    }
  }

  method Extend(ghost tasks0: seq<TaskNode>, tasks: seq<TaskNode>, ghost edges: seq<TaskEdge>, e: TaskEdge)
    returns (tasks': seq<TaskNode>)
    requires Distinct(Ids(tasks0)) && DependsOnEdges(tasks0, tasks, edges) && !HasEdge(edges, e.from, e.to)
    ensures DependsOnEdges(tasks0, tasks', edges + [e])
  {
    assert Ids(tasks) == Ids(tasks0);
    tasks' := AddDependency(tasks, e.from, e.to);
    forall k | 0 <= k < |tasks'| ensures tasks'[k] == tasks0[k].(dependsOn := Sources(edges + [e], tasks0[k].id)) {
      SourcesAppend(edges, e, tasks0[k].id);
    }
  }

  // ---- the whole plan ----

  lemma EdgeOfKeys(entities: seq<Entity>, ids: map<string, TaskId>, keys: seq<string>, r: Relation, f: nat, t: nat)
    requires IdsUpTo(ids, keys) && Distinct(keys) && f < |keys| && t < |keys|
    ensures EdgeOf(entities, ids, r) == [TaskEdge(IdOf(f), IdOf(t), r.kind)] <==> Links(entities, keys, r, f, t)
  {
    LinksTypes(entities, keys, r, f, t);
    TaskOfKey(entities, ids, keys, r.source, f);
    TaskOfKey(entities, ids, keys, r.target, t);
    if f != t && IdOf(f) == IdOf(t) { IdOfInjective(f, t); }
  }

  lemma EdgeOfInverse(entities: seq<Entity>, ids: map<string, TaskId>, keys: seq<string>, r: Relation) returns (f: nat, t: nat)
    requires IdsUpTo(ids, keys) && EdgeOf(entities, ids, r) != []
    ensures f < |keys| && t < |keys| && EdgeOf(entities, ids, r) == [TaskEdge(IdOf(f), IdOf(t), r.kind)]
  {
    assert TypeOf(entities, r.source) in ids.Keys && TypeOf(entities, r.target) in ids.Keys;
    f :| 0 <= f < |keys| && keys[f] == TypeOf(entities, r.source);
    t :| 0 <= t < |keys| && keys[t] == TypeOf(entities, r.target);
  }

  lemma CollectedIsExact(entities: seq<Entity>, ids: map<string, TaskId>, keys: seq<string>, relations: seq<Relation>, edges: seq<TaskEdge>)
    requires IdsUpTo(ids, keys) && Distinct(keys)
    requires Collected(Wanted(entities, ids, relations), edges)
    ensures EdgesExact(entities, keys, relations, edges)
  {
    var wanted := Wanted(entities, ids, relations);
    forall i, j | 0 <= i < j < |edges| ensures !(edges[i].from == edges[j].from && edges[i].to == edges[j].to) {
      assert !SamePair(edges[i], edges[j]);
    }
    forall i | 0 <= i < |edges| ensures IsFirstLink(entities, keys, relations, edges[i]) {
      assert Asked(wanted, edges[i]);
      var k :| 0 <= k < |wanted| && FirstWanted(wanted, k, edges[i]);
      var f, t := EdgeOfInverse(entities, ids, keys, relations[k]);
      EdgeOfKeys(entities, ids, keys, relations[k], f, t);
      forall j | 0 <= j < k ensures !Links(entities, keys, relations[j], f, t) {
        EdgeOfKeys(entities, ids, keys, relations[j], f, t);
        assert wanted[j] == EdgeOf(entities, ids, relations[j]);
      }
      assert FirstLinkAt(entities, keys, relations, k, f, t);
    }
    forall r, f, t | r in relations && 0 <= f < |keys| && 0 <= t < |keys| && Links(entities, keys, r, f, t)
      ensures HasEdge(edges, IdOf(f), IdOf(t)) {
      var k :| 0 <= k < |relations| && relations[k] == r;
      EdgeOfKeys(entities, ids, keys, r, f, t);
      assert wanted[k] == EdgeOf(entities, ids, r);
    }
  }

  lemma FirstForIsWanted(entities: seq<Entity>, ids: map<string, TaskId>, keys: seq<string>, relations: seq<Relation>, k: nat, e: TaskEdge)
    requires IdsUpTo(ids, keys) && Distinct(keys) && k < |relations| && FirstFor(entities, keys, relations, k, e)
    ensures FirstWanted(Wanted(entities, ids, relations), k, e)
  {
    var wanted := Wanted(entities, ids, relations);
    var f, t :| 0 <= f < |keys| && 0 <= t < |keys|
      && FirstLinkAt(entities, keys, relations, k, f, t) && e == TaskEdge(IdOf(f), IdOf(t), relations[k].kind);
    EdgeOfKeys(entities, ids, keys, relations[k], f, t);
    forall j | 0 <= j < k && wanted[j] != [] ensures !SamePair(wanted[j][0], e) {
      var f', t' := EdgeOfInverse(entities, ids, keys, relations[j]);
      if SamePair(wanted[j][0], e) {
        IdOfInjective(f, f');
        IdOfInjective(t, t');
        EdgeOfKeys(entities, ids, keys, relations[j], f, t);
      }
    }
  }

  lemma InTurnIsInOrder(entities: seq<Entity>, ids: map<string, TaskId>, keys: seq<string>, relations: seq<Relation>, edges: seq<TaskEdge>)
    requires IdsUpTo(ids, keys) && Distinct(keys) && InTurn(Wanted(entities, ids, relations), edges)
    ensures EdgesInOrder(entities, keys, relations, edges)
  {
    forall i, j, k, l | 0 <= i < j < |edges| && 0 <= k < |relations| && 0 <= l < |relations|
      && FirstFor(entities, keys, relations, k, edges[i]) && FirstFor(entities, keys, relations, l, edges[j]) ensures k < l
    {
      FirstForIsWanted(entities, ids, keys, relations, k, edges[i]);
      FirstForIsWanted(entities, ids, keys, relations, l, edges[j]);
    }
  }

  lemma BareIdsDistinct(order: seq<string>, byType: map<string, seq<string>>, tasks: seq<TaskNode>)
    requires |tasks| <= |order| && byType.Keys == Elems(order)
    requires forall k :: 0 <= k < |tasks| ==> tasks[k] == BareNode(order, byType, k)
    ensures Distinct(Ids(tasks))
  {
    forall i, j | 0 <= i < j < |tasks| ensures Ids(tasks)[i] != Ids(tasks)[j] {
      if IdOf(i) == IdOf(j) { IdOfInjective(i, j); }
    }
  }

  /** Picks the tasks in the order of `order`. */
  method Arrange(tasks: seq<TaskNode>, order: seq<TaskId>) returns (sorted: seq<TaskNode>)
    requires Distinct(Ids(tasks)) && forall id :: id in order ==> id in Ids(tasks)
    ensures Ids(sorted) == order
    ensures forall t :: t in sorted ==> t in tasks
  {
    var byId: map<TaskId, TaskNode> := map[];
    for i := 0 to |tasks|
      invariant byId.Keys == Elems(Ids(tasks)[..i])
      invariant forall id :: id in byId ==> byId[id].id == id && byId[id] in tasks
    {
      assert Ids(tasks)[..i + 1] == Ids(tasks)[..i] + [tasks[i].id];
      byId := byId[tasks[i].id := tasks[i]];
    }
    assert Ids(tasks)[..|tasks|] == Ids(tasks);
    sorted := [];
    for k := 0 to |order|
      invariant Ids(sorted) == order[..k]
      invariant forall t :: t in sorted ==> t in tasks
    {
      assert order[k] in order;
      ghost var before := sorted;
      sorted := sorted + [byId[order[k]]];
      assert Ids(sorted) == Ids(before) + [order[k]];
    }
    assert order[..|order|] == order;
  }

  /** Rearranging tasks does not change their graph. */
  lemma SameGraph(a: seq<TaskNode>, b: seq<TaskNode>)
    requires Distinct(Ids(a)) && Distinct(Ids(b)) && Elems(Ids(a)) == Elems(Ids(b))
    requires forall t :: t in b ==> t in a
    ensures GraphOf(a) == GraphOf(b)
    ensures forall t :: t in a ==> t in b
  {
    var ga, gb := GraphOf(a), GraphOf(b);
    forall x | x in ga.Keys ensures ga[x] == gb[x] {
      assert x in Ids(a);
      var i :| 0 <= i < |a| && Ids(a)[i] == x;
      SameTask(a, b, i);
    }
    forall t | t in a ensures t in b {
      var i :| 0 <= i < |a| && a[i] == t;
      SameTask(a, b, i);
    }
  }

  lemma SameTask(a: seq<TaskNode>, b: seq<TaskNode>, i: nat)
    requires Distinct(Ids(a)) && Distinct(Ids(b)) && Elems(Ids(a)) == Elems(Ids(b))
    requires (forall t :: t in b ==> t in a) && i < |a|
    ensures a[i] in b && GraphOf(b)[a[i].id] == Elems(a[i].dependsOn)
  {
    assert Ids(a)[i] in Elems(Ids(b));
    var j :| 0 <= j < |b| && Ids(b)[j] == a[i].id;
    assert b[j] in a;
    var k :| 0 <= k < |a| && a[k] == b[j];
    assert Ids(a)[k] == Ids(a)[i];
  }

  lemma EdgeFromKey(entities: seq<Entity>, keys: seq<string>, relations: seq<Relation>, edges: seq<TaskEdge>, m: nat) returns (f: nat)
    requires EdgesExact(entities, keys, relations, edges) && m < |edges|
    ensures f < |keys| && edges[m].from == IdOf(f)
  {
    assert IsFirstLink(entities, keys, relations, edges[m]);
    var k, f', t :| 0 <= k < |relations| && 0 <= f' < |keys| && 0 <= t < |keys|
      && FirstLinkAt(entities, keys, relations, k, f', t) && edges[m] == TaskEdge(IdOf(f'), IdOf(t), relations[k].kind);
    f := f';
  }

  lemma DependenciesClosed(entities: seq<Entity>, keys: seq<string>, relations: seq<Relation>, edges: seq<TaskEdge>, tasks: seq<TaskNode>)
    requires EdgesExact(entities, keys, relations, edges) && |tasks| == |keys| && Distinct(Ids(tasks))
    requires forall i :: 0 <= i < |keys| ==> tasks[i] == Node(entities, keys, edges, i)
    ensures WellFormed(tasks) && Closed(GraphOf(tasks))
  {
    forall i | 0 <= i < |tasks| ensures Distinct(tasks[i].dependsOn) {
      SourcesDistinct(edges, tasks[i].id);
    }
    forall i, d | 0 <= i < |tasks| && d in tasks[i].dependsOn ensures d in Ids(tasks) {
      var m :| 0 <= m < |edges| && edges[m].from == d && edges[m].to == tasks[i].id;
      var f := EdgeFromKey(entities, keys, relations, edges, m);
      assert Ids(tasks)[f] == d;
    }
    var g := GraphOf(tasks);
    forall x | x in g ensures g[x] <= g.Keys {
      var i :| 0 <= i < |tasks| && Ids(tasks)[i] == x;
      assert g[tasks[i].id] == Elems(tasks[i].dependsOn);
    }
  }

  method MakePlan(goal: string, entities: seq<Entity>, relations: seq<Relation>, maxTasks: int) returns (plan: Plan)
    ensures IsPlan(goal, entities, relations, maxTasks, plan)
    ensures plan.goal == goal && exists keys ::
              Reads(entities, relations, maxTasks, plan, keys) && EdgesInOrder(entities, keys, relations, plan.edges)
    ensures exists n: nat :: n <= |plan.tasks| && ReadyFirst(plan.tasks, Ids(plan.tasks), n)
  {
    if |entities| == 0 {
      plan := Plan(goal, [], []);
      assert KahnResult(GraphOf([]), Ids([]), 0);
      PlanReads(goal, entities, relations, maxTasks, plan);
      return;
    }
    var order, byType := Cluster(entities);
    var bare, taskIdByType := BuildNodes(maxTasks, order, byType);
    ghost var keys := TaskKeys(entities, maxTasks);
    assert order[..|bare|] == keys;
    BareIdsDistinct(order, byType, bare);
    var tasks, edges := DeriveEdges(entities, relations, taskIdByType, bare);
    CollectedIsExact(entities, taskIdByType, keys, relations, edges);
    InTurnIsInOrder(entities, taskIdByType, keys, relations, edges);
    assert Ids(tasks) == Ids(bare);
    NodesMatch(entities, keys, order, byType, bare, tasks, edges);
    DependenciesClosed(entities, keys, relations, edges, tasks);
    var ids := TopoSort(tasks);
    assert Elems(ids) == Elems(Ids(tasks)) && Distinct(ids);
    assert forall id :: id in ids ==> id in Elems(ids);
    var sorted := Arrange(tasks, ids);
    SameGraph(tasks, sorted);
    plan := Plan(goal, sorted, edges);
    RearrangedIsPlan(goal, entities, relations, maxTasks, tasks, plan);
    PlanReads(goal, entities, relations, maxTasks, plan);
  }

  lemma NodesMatch(entities: seq<Entity>, keys: seq<string>, order: seq<string>, byType: map<string, seq<string>>,
                   bare: seq<TaskNode>, tasks: seq<TaskNode>, edges: seq<TaskEdge>)
    requires |bare| == |keys| <= |order| && keys == order[..|bare|] && byType.Keys == Elems(order)
    requires Grouped(byType, entities)
    requires forall k :: 0 <= k < |bare| ==> bare[k] == BareNode(order, byType, k)
    requires DependsOnEdges(bare, tasks, edges)
    ensures forall i :: 0 <= i < |keys| ==> tasks[i] == Node(entities, keys, edges, i)
  {
    forall i | 0 <= i < |keys| ensures tasks[i] == Node(entities, keys, edges, i) {
      assert order[i] in byType.Keys;
      assert Members(entities, keys[i]) == byType[keys[i]];
    }
  }

  lemma RearrangedIsPlan(goal: string, entities: seq<Entity>, relations: seq<Relation>, maxTasks: int, tasks: seq<TaskNode>, plan: Plan)
    requires plan.goal == goal && EdgesExact(entities, TaskKeys(entities, maxTasks), relations, plan.edges)
    requires |tasks| == |TaskKeys(entities, maxTasks)| == |plan.tasks|
    requires forall i :: 0 <= i < |tasks| ==> tasks[i] == Node(entities, TaskKeys(entities, maxTasks), plan.edges, i)
    requires WellFormed(tasks) && Closed(GraphOf(tasks)) && Distinct(Ids(plan.tasks))
    requires (forall t :: t in tasks <==> t in plan.tasks) && GraphOf(tasks) == GraphOf(plan.tasks)
    requires exists n: nat :: KahnResult(GraphOf(tasks), Ids(plan.tasks), n)
    ensures IsPlan(goal, entities, relations, maxTasks, plan)
  {
    forall i | 0 <= i < |plan.tasks| ensures Distinct(plan.tasks[i].dependsOn) {
      assert plan.tasks[i] in tasks;
    }
    forall i | 0 <= i < |tasks| ensures Node(entities, TaskKeys(entities, maxTasks), plan.edges, i) in plan.tasks {
      assert tasks[i] in plan.tasks;
    }
  }
}
