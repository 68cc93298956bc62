// Executing a plan: rounds of ready tasks, one agent each, then one pass that marks blocked tasks skipped.
module PlanExecution {
  import opened IdOrder
  import opened Dag
  import opened Kahn

  datatype Status = Pending | Running | Done | Failed | Skipped

  datatype Answer = Threw | Returned(value: string)

  /** When the caller cancels the run, counted in `ctx.agent` calls. */
  datatype Cancellation = Never | FromCall(n: nat)

  predicate Cancelled(c: Cancellation, call: nat) { c.FromCall? && call >= c.n }

  /** The per-run context of the workflow engine: the agent cap and the cancel flag. */
  class WorkflowContext {
    const maxTotalAgents: int
    const cancellation: Cancellation
    var calls: nat
    var agentsStarted: nat

    constructor (maxTotalAgents: int, cancellation: Cancellation)
      ensures this.maxTotalAgents == maxTotalAgents && this.cancellation == cancellation
      ensures calls == 0 && agentsStarted == 0
    {
      this.maxTotalAgents, this.cancellation := maxTotalAgents, cancellation;
      calls, agentsStarted := 0, 0;
    }

    method Agent(id: TaskId, provider: TaskId -> Answer) returns (answer: Answer)
      modifies this
      ensures calls == old(calls) + 1
      ensures var admitted := !Cancelled(cancellation, old(calls)) && old(agentsStarted) < maxTotalAgents;
              && agentsStarted == old(agentsStarted) + (if admitted then 1 else 0)
              && answer == if admitted then provider(id) else Threw
    {
      calls := calls + 1;
      if Cancelled(cancellation, calls - 1) { return Threw; }
      if agentsStarted >= maxTotalAgents { return Threw; }
      agentsStarted := agentsStarted + 1;
      answer := provider(id);
    }
  }

  // ---- what one execution looks like ----

  /** One `ctx.agent` call: which task it was for, and whether the agent returned. */
  datatype Start = Start(id: TaskId, ok: bool)

  ghost function Started(trace: seq<Start>): set<TaskId> { set s | s in trace :: s.id }

  ghost function Succeeded(trace: seq<Start>): set<TaskId> { set s | s in trace && s.ok :: s.id }

  /** Every task starts at most once, and only after all its dependencies succeeded. */
  ghost predicate ValidTrace(g: Graph, trace: seq<Start>) {
    trace == [] || (var k := |trace| - 1; ValidTrace(g, trace[..k]) && ValidStart(g, trace[..k], trace[k].id))
  }

  lemma {:induction false} ValidTraceAt(g: Graph, trace: seq<Start>, k: nat)
    requires ValidTrace(g, trace) && k < |trace|
    ensures ValidStart(g, trace[..k], trace[k].id)
  {
    var front := trace[..|trace| - 1];
    if k < |front| {
      ValidTraceAt(g, front, k);
      assert front[..k] == trace[..k];
    }
  }

  ghost predicate ValidStart(g: Graph, before: seq<Start>, id: TaskId) {
    id in g && id !in Started(before) && g[id] <= Succeeded(before)
  }

  /** Nothing that could still start was left out. */
  ghost predicate Exhausted(g: Graph, trace: seq<Start>) {
    forall x :: x in g && x !in Started(trace) ==> !(g[x] <= Succeeded(trace))
  }

  type Statuses = map<TaskId, Status>

  /** The statuses between rounds. */
  ghost predicate Reflects(g: Graph, trace: seq<Start>, status: Statuses) {
    status.Keys == g.Keys && forall x :: x in g ==> status[x] == RoundStatus(trace, x)
  }

  ghost function RoundStatus(trace: seq<Start>, x: TaskId): Status {
    if x in Succeeded(trace) then Done else if x in Started(trace) then Failed else Pending
  }

  /** The final statuses: a pending task is skipped when a dependency failed, or was skipped earlier in the pass. */
  ghost predicate SkipPass(tasks: seq<TaskNode>, before: Statuses, after: Statuses) {
    && after.Keys == before.Keys
    && (forall x :: x in before && before[x] != Pending ==> after[x] == before[x])
    && forall i :: 0 <= i < |tasks| && tasks[i].id in before && before[tasks[i].id] == Pending ==>
         after[tasks[i].id] == if BlockedAt(tasks, before, after, i) then Skipped else Pending
  }

  /** `x` is the id of one of the first `n` tasks. */
  ghost predicate Before(tasks: seq<TaskNode>, n: nat, x: TaskId)
    requires n <= |tasks|
  {
    exists j :: 0 <= j < n && tasks[j].id == x
  }

  ghost predicate BlockedAt(tasks: seq<TaskNode>, before: Statuses, after: Statuses, i: nat)
    requires i < |tasks|
  {
    exists d :: d in tasks[i].dependsOn && d in before && d in after &&
      (before[d] == Failed || (after[d] == Skipped && Before(tasks, i, d)))
  }

  /** A complete run of `planToScript` over the tasks. */
  ghost predicate IsExecution(tasks: seq<TaskNode>, trace: seq<Start>, rounds: Statuses, final: Statuses)
    requires Distinct(Ids(tasks))
  {
    var g := GraphOf(tasks);
    ValidTrace(g, trace) && Exhausted(g, trace) && Reflects(g, trace, rounds) && SkipPass(tasks, rounds, final)
  }

  // ---- the algorithm ----

  predicate IsReady(t: TaskNode, status: Statuses) {
    t.id in status && status[t.id] == Pending && forall d :: d in t.dependsOn ==> d in status && status[d] == Done
  }

  function ReadyTasks(tasks: seq<TaskNode>, status: Statuses): (r: seq<TaskNode>)
    ensures forall t :: t in r <==> t in tasks && IsReady(t, status)
  {
    if tasks == [] then []
    else
      var front, last := tasks[..|tasks| - 1], tasks[|tasks| - 1];
      assert tasks == front + [last];
      ReadyTasks(front, status) + if IsReady(last, status) then [last] else []
  }

  lemma {:induction false} ReadyDistinct(tasks: seq<TaskNode>, status: Statuses)
    requires Distinct(Ids(tasks))
    ensures Distinct(Ids(ReadyTasks(tasks, status)))
  {
    if tasks != [] {
      var front, last := tasks[..|tasks| - 1], tasks[|tasks| - 1];
      assert forall i :: 0 <= i < |front| ==> Ids(front)[i] == Ids(tasks)[i];
      ReadyDistinct(front, status);
      var r := ReadyTasks(front, status);
      forall k | 0 <= k < |r| ensures Ids(r)[k] != last.id {
        assert r[k] in front;
        var j :| 0 <= j < |front| && front[j] == r[k];
        assert Ids(tasks)[j] != Ids(tasks)[|front|];
      }
      assert Ids(r + [last]) == Ids(r) + [last.id];
    }
  }

  lemma StartsAppend(trace: seq<Start>, s: Start)
    ensures Started(trace + [s]) == Started(trace) + {s.id}
    ensures Succeeded(trace + [s]) == Succeeded(trace) + if s.ok then {s.id} else {}
  {
    var t := trace + [s];
    assert forall x :: x in t <==> x in trace || x == s;
    assert s in t;
  }

  lemma ReflectsAppend(g: Graph, trace: seq<Start>, status: Statuses, s: Start)
    requires Reflects(g, trace, status) && s.id in g && s.id !in Started(trace)
    ensures Reflects(g, trace + [s], status[s.id := if s.ok then Done else Failed])
    ensures |Started(trace + [s])| == |Started(trace)| + 1
  {
    StartsAppend(trace, s);
    var next := status[s.id := if s.ok then Done else Failed];
    forall x | x in g ensures next[x] == RoundStatus(trace + [s], x) {
      if x == s.id { assert x !in Succeeded(trace); }
    }
  }

  /** The k-th `ctx.agent` call succeeds exactly when it is admitted and the agent returns. */
  ghost predicate Answered(trace: seq<Start>, maxTotalAgents: int, cancellation: Cancellation, provider: TaskId -> Answer) {
    forall k :: 0 <= k < |trace| ==>
      (trace[k].ok <==> !Cancelled(cancellation, k) && k < maxTotalAgents && provider(trace[k].id).Returned?)
  }

  ghost predicate ContextAt(ctx: WorkflowContext, calls: nat)
    reads ctx
  {
    && ctx.calls == calls
    && ctx.agentsStarted == Admitted(calls, ctx.maxTotalAgents, ctx.cancellation)
  }

  /** How many of the first `calls` agent calls get through the cancel flag and the cap. */
  function Admitted(calls: nat, maxTotalAgents: int, cancellation: Cancellation): (n: nat)
    ensures n <= calls && (n > 0 ==> n <= maxTotalAgents)
    ensures n < calls ==> n >= maxTotalAgents || Cancelled(cancellation, n)
  {
    var open := if cancellation.FromCall? && cancellation.n < calls then cancellation.n else calls;
    if maxTotalAgents < 0 then 0 else if maxTotalAgents < open then maxTotalAgents else open
  }

  /** The tasks of a round that have not run yet. */
  ghost predicate Waiting(g: Graph, trace: seq<Start>, rest: seq<TaskNode>) {
    Distinct(Ids(rest)) && forall t :: t in rest ==> ValidStart(g, trace, t.id)
  }

  lemma RoundIsWaiting(tasks: seq<TaskNode>, trace: seq<Start>, status: Statuses)
    requires Distinct(Ids(tasks)) && Reflects(GraphOf(tasks), trace, status)
    ensures Waiting(GraphOf(tasks), trace, ReadyTasks(tasks, status))
  {
    ReadyDistinct(tasks, status);
    var g := GraphOf(tasks);
    forall t | t in ReadyTasks(tasks, status) ensures ValidStart(g, trace, t.id) {
      var i :| 0 <= i < |tasks| && tasks[i] == t;
      assert g[tasks[i].id] == Elems(t.dependsOn);
    }
  }

  lemma StartableIsReady(tasks: seq<TaskNode>, trace: seq<Start>, status: Statuses, i: nat)
    requires Distinct(Ids(tasks)) && Reflects(GraphOf(tasks), trace, status) && i < |tasks|
    requires ValidTrace(GraphOf(tasks), trace)
    requires ValidStart(GraphOf(tasks), trace, tasks[i].id)
    ensures tasks[i] in ReadyTasks(tasks, status)
  {
    var g, x := GraphOf(tasks), tasks[i].id;
    assert x !in Succeeded(trace);
    forall d | d in tasks[i].dependsOn ensures d in status && status[d] == Done {
      assert d in g[x];
      SucceededStarted(g, trace, d);
    }
    assert IsReady(tasks[i], status);
  }

  lemma {:induction false} SucceededStarted(g: Graph, trace: seq<Start>, d: TaskId)
    ensures d in Succeeded(trace) ==> d in Started(trace)
    ensures ValidTrace(g, trace) && d in Started(trace) ==> d in g
  {
    if ValidTrace(g, trace) && d in Started(trace) {
      var k :| 0 <= k < |trace| && trace[k].id == d;
      ValidTraceAt(g, trace, k);
    }
  }

  lemma EmptyRoundExhausts(tasks: seq<TaskNode>, trace: seq<Start>, status: Statuses)
    requires Distinct(Ids(tasks)) && Reflects(GraphOf(tasks), trace, status) && ValidTrace(GraphOf(tasks), trace)
    requires ReadyTasks(tasks, status) == []
    ensures Exhausted(GraphOf(tasks), trace)
  {
    var g := GraphOf(tasks);
    forall x | x in g && x !in Started(trace) && g[x] <= Succeeded(trace) ensures false {
      var i :| 0 <= i < |tasks| && Ids(tasks)[i] == x;
      StartableIsReady(tasks, trace, status, i);
    }
  }

  lemma WaitingRest(g: Graph, trace: seq<Start>, rest: seq<TaskNode>, s: Start)
    requires Waiting(g, trace, rest) && rest != [] && s.id == rest[0].id
    ensures Waiting(g, trace + [s], rest[1..])
  {
    StartsAppend(trace, s);
    forall i, j | 0 <= i < j < |rest[1..]| ensures Ids(rest[1..])[i] != Ids(rest[1..])[j] {
      assert Ids(rest)[i + 1] != Ids(rest)[j + 1];
    }
    forall t | t in rest[1..] ensures ValidStart(g, trace + [s], t.id) {
      var i :| 0 <= i < |rest[1..]| && rest[1..][i] == t;
      assert Ids(rest)[0] != Ids(rest)[i + 1];
      assert t in rest;
    }
  }

  /** Tasks start at most once, so there are never more starts than tasks. */
  lemma {:induction false} TraceBound(tasks: seq<TaskNode>, trace: seq<Start>)
    requires Distinct(Ids(tasks)) && ValidTrace(GraphOf(tasks), trace)
    ensures |trace| <= |tasks|
  {
    var ids := seq(|trace|, k requires 0 <= k < |trace| => trace[k].id);
    forall i, j | 0 <= i < j < |ids| ensures ids[i] != ids[j] {
      ValidTraceAt(GraphOf(tasks), trace, j);
      assert trace[i] == trace[..j][i];
      assert trace[i] in trace[..j];
    }
    forall x | x in ids ensures x in Elems(Ids(tasks)) {
      var k :| 0 <= k < |ids| && ids[k] == x;
      ValidTraceAt(GraphOf(tasks), trace, k);
    }
    DistinctCardinality(ids);
    DistinctCardinality(Ids(tasks));
    assert Elems(ids) <= Elems(Ids(tasks));
    SubsetCardinality(Elems(ids), Elems(Ids(tasks)));
  }

  type Results = map<TaskId, string>

  ghost predicate ResultsOf(results: Results, trace: seq<Start>, provider: TaskId -> Answer) {
    results.Keys == Succeeded(trace) && forall x :: x in results ==> provider(x) == Returned(results[x])
  }

  lemma ResultsAppend(results: Results, trace: seq<Start>, provider: TaskId -> Answer, s: Start)
    requires ResultsOf(results, trace, provider) && (s.ok ==> provider(s.id).Returned?)
    ensures ResultsOf(if s.ok then results[s.id := provider(s.id).value] else results, trace + [s], provider)
  {
    StartsAppend(trace, s);
  }

  lemma ValidAppend(g: Graph, trace: seq<Start>, s: Start)
    requires ValidTrace(g, trace) && ValidStart(g, trace, s.id)
    ensures ValidTrace(g, trace + [s])
  {
    assert (trace + [s])[..|trace|] == trace;
  }

  ghost predicate Consistent(g: Graph, ctx: WorkflowContext, provider: TaskId -> Answer,
                             trace: seq<Start>, status: Statuses, results: Results)
    reads ctx
  {
    && ValidTrace(g, trace) && Reflects(g, trace, status)
    && ResultsOf(results, trace, provider) && ContextAt(ctx, |trace|)
    && Answered(trace, ctx.maxTotalAgents, ctx.cancellation, provider)
  }

  lemma Overwrite(status: Statuses, x: TaskId, a: Status, b: Status)
    ensures status[x := a][x := b] == status[x := b]
  {
  }

  /** One pass of the inner loop: mark running, call the agent, record the outcome. */
  method RunTask(ghost g: Graph, task: TaskNode, ctx: WorkflowContext, provider: TaskId -> Answer,
                 ghost trace: seq<Start>, status0: Statuses, results0: Results)
    returns (status: Statuses, results: Results, ghost s: Start)
    requires Consistent(g, ctx, provider, trace, status0, results0) && ValidStart(g, trace, task.id)
    modifies ctx
    ensures s.id == task.id && Consistent(g, ctx, provider, trace + [s], status, results)
  {
    status, results := status0[task.id := Running], results0;
    var answer := ctx.Agent(task.id, provider);
    s := Start(task.id, answer.Returned?);
    ResultsAppend(results0, trace, provider, s);
    ValidAppend(g, trace, s);
    ReflectsAppend(g, trace, status0, s);
    Overwrite(status0, task.id, Running, if s.ok then Done else Failed);
    if answer.Returned? {
      results := results[task.id := answer.value];
      status := status[task.id := Done];
    } else {
      status := status[task.id := Failed];
    }
  }

  function AllPending(tasks: seq<TaskNode>): (status: Statuses)
    ensures status.Keys == Elems(Ids(tasks)) && forall x :: x in status ==> status[x] == Pending
  {
    assert forall i :: 0 <= i < |tasks| ==> tasks[i].id == Ids(tasks)[i];
    var status := map i | 0 <= i < |tasks| :: tasks[i].id := Pending;
    assert forall x :: x in status.Keys <==> x in Ids(tasks);
    status
  }

  /** One round: the ready tasks run one after the other. */
  method RunRound(ghost g: Graph, ready: seq<TaskNode>, ctx: WorkflowContext, provider: TaskId -> Answer,
                  ghost trace0: seq<Start>, status0: Statuses, results0: Results)
    returns (status: Statuses, results: Results, ghost trace: seq<Start>)
    requires Consistent(g, ctx, provider, trace0, status0, results0) && Waiting(g, trace0, ready)
    modifies ctx
    ensures Consistent(g, ctx, provider, trace, status, results)
    ensures |trace| == |trace0| + |ready| && trace0 <= trace
    ensures forall m :: 0 <= m < |ready| ==> trace[|trace0| + m].id == ready[m].id
  {
    status, results, trace := status0, results0, trace0;
    assert ready[0..] == ready;
    for k := 0 to |ready|
      invariant Consistent(g, ctx, provider, trace, status, results)
      invariant Waiting(g, trace, ready[k..]) && |trace| == |trace0| + k && trace0 <= trace
      invariant forall m :: 0 <= m < k ==> trace[|trace0| + m].id == ready[m].id
    {
      assert ready[k] == ready[k..][0] && ready[k + 1..] == ready[k..][1..];
      ghost var s;
      status, results, s := RunTask(g, ready[k], ctx, provider, trace, status, results);
      WaitingRest(g, trace, ready[k..], s);
      trace := trace + [s];
    }
  }

  /** The task has not been started, and all its dependencies have succeeded. */
  ghost predicate CanStart(t: TaskNode, before: seq<Start>) {
    && (forall s :: s in before ==> s.id != t.id)
    && forall d :: d in t.dependsOn ==> Start(d, true) in before
  }

  /** A round starts exactly the tasks that can start at its beginning, in plan order. */
  ghost predicate IsRound(tasks: seq<TaskNode>, before: seq<Start>, round: seq<Start>, at: seq<nat>) {
    && |at| == |round| && (forall m, n :: 0 <= m < n < |at| ==> at[m] < at[n])
    && (forall m :: 0 <= m < |at| ==> at[m] < |tasks| && round[m].id == tasks[at[m]].id)
    && forall i :: 0 <= i < |tasks| ==> (i in at <==> CanStart(tasks[i], before))
  }

  ghost predicate InRounds(tasks: seq<TaskNode>, trace: seq<Start>)
    decreases |trace|
  {
    trace == [] || exists n, at :: 0 <= n < |trace| && IsRound(tasks, trace[..n], trace[n..], at) && InRounds(tasks, trace[..n])
  }

  lemma {:induction false} ReadyAt(tasks: seq<TaskNode>, status: Statuses) returns (at: seq<nat>)
    ensures |at| == |ReadyTasks(tasks, status)| && forall m, n :: 0 <= m < n < |at| ==> at[m] < at[n]
    ensures forall m :: 0 <= m < |at| ==> at[m] < |tasks| && ReadyTasks(tasks, status)[m] == tasks[at[m]]
    ensures forall i :: 0 <= i < |tasks| ==> (i in at <==> IsReady(tasks[i], status))
    decreases |tasks|
  {
    if tasks == [] {
      at := [];
    } else {
      var front, last := tasks[..|tasks| - 1], tasks[|tasks| - 1];
      var before := ReadyAt(front, status);
      at := before + if IsReady(last, status) then [|front|] else [];
      forall i | 0 <= i < |tasks| ensures i in at <==> IsReady(tasks[i], status) {
        if i < |front| { assert front[i] == tasks[i]; }
      }
    }
  }

  lemma SucceededMeans(trace: seq<Start>, d: TaskId)
    ensures d in Succeeded(trace) <==> Start(d, true) in trace
    ensures d in Started(trace) <==> exists s :: s in trace && s.id == d
  {
    if d in Succeeded(trace) {
      var s :| s in trace && s.ok && s.id == d;
      assert s == Start(d, true);
    }
    if Start(d, true) in trace { assert Start(d, true).id == d; }
  }

  lemma DoneMeans(g: Graph, trace: seq<Start>, status: Statuses, d: TaskId)
    requires ValidTrace(g, trace) && Reflects(g, trace, status)
    ensures d in status && status[d] == Done <==> Start(d, true) in trace
    ensures d in g ==> (d in status && status[d] == Pending <==> forall s :: s in trace ==> s.id != d)
  {
    SucceededStarted(g, trace, d);
    SucceededMeans(trace, d);
  }

  lemma ReadyIffCanStart(g: Graph, trace: seq<Start>, status: Statuses, t: TaskNode)
    requires ValidTrace(g, trace) && Reflects(g, trace, status) && t.id in g
    ensures IsReady(t, status) <==> CanStart(t, trace)
  {
    DoneMeans(g, trace, status, t.id);
    forall d | d in t.dependsOn ensures d in status && status[d] == Done <==> Start(d, true) in trace {
      DoneMeans(g, trace, status, d);
    }
  }

  lemma ReadyAre(tasks: seq<TaskNode>, trace: seq<Start>, status: Statuses) returns (at: seq<nat>)
    requires Distinct(Ids(tasks))
    requires ValidTrace(GraphOf(tasks), trace) && Reflects(GraphOf(tasks), trace, status)
    ensures |at| == |ReadyTasks(tasks, status)| && forall m, n :: 0 <= m < n < |at| ==> at[m] < at[n]
    ensures forall m :: 0 <= m < |at| ==> at[m] < |tasks| && ReadyTasks(tasks, status)[m] == tasks[at[m]]
    ensures forall i :: 0 <= i < |tasks| ==> (i in at <==> CanStart(tasks[i], trace))
  {
    at := ReadyAt(tasks, status);
    forall i | 0 <= i < |tasks| ensures i in at <==> CanStart(tasks[i], trace) {
      assert Ids(tasks)[i] in GraphOf(tasks);
      ReadyIffCanStart(GraphOf(tasks), trace, status, tasks[i]);
    }
  }

  lemma RoundAdded(tasks: seq<TaskNode>, before: seq<Start>, trace: seq<Start>, ready: seq<TaskNode>, at: seq<nat>)
    requires InRounds(tasks, before) && ready != [] && before <= trace && |trace| == |before| + |ready| == |before| + |at|
    requires forall m :: 0 <= m < |ready| ==> trace[|before| + m].id == ready[m].id
    requires forall m, n :: 0 <= m < n < |at| ==> at[m] < at[n]
    requires forall m :: 0 <= m < |at| ==> at[m] < |tasks| && ready[m] == tasks[at[m]]
    requires forall i :: 0 <= i < |tasks| ==> (i in at <==> CanStart(tasks[i], before))
    ensures InRounds(tasks, trace)
  {
    var n := |before|;
    assert trace[..n] == before;
    assert IsRound(tasks, trace[..n], trace[n..], at);
  }

  /** The round loop: as long as some pending task has all its dependencies done, run such tasks. */
  method RunRounds(tasks: seq<TaskNode>, ctx: WorkflowContext, provider: TaskId -> Answer)
    returns (status: Statuses, results: Results, ghost trace: seq<Start>)
    requires Distinct(Ids(tasks)) && ContextAt(ctx, 0)
    modifies ctx
    ensures Consistent(GraphOf(tasks), ctx, provider, trace, status, results)
    ensures Exhausted(GraphOf(tasks), trace) && InRounds(tasks, trace)
  {
    ghost var g := GraphOf(tasks);
    status, results, trace := AllPending(tasks), map[], [];
    while true
      invariant Consistent(g, ctx, provider, trace, status, results) && InRounds(tasks, trace)
      decreases |tasks| - |trace|
    {
      var ready := ReadyTasks(tasks, status);
      if |ready| == 0 {
        EmptyRoundExhausts(tasks, trace, status);
        break;
      }
      RoundIsWaiting(tasks, trace, status);
      ghost var before := trace;
      ghost var at := ReadyAre(tasks, trace, status);
      status, results, trace := RunRound(g, ready, ctx, provider, trace, status, results);
      RoundAdded(tasks, before, trace, ready, at);
      TraceBound(tasks, trace);
    }
  }

  predicate IsBlocked(t: TaskNode, status: Statuses) {
    exists d :: d in t.dependsOn && d in status && (status[d] == Failed || status[d] == Skipped)
  }

  /** The pass over pending tasks, in plan order. */
  method PropagateSkips(tasks: seq<TaskNode>, before: Statuses) returns (status: Statuses)
    requires Distinct(Ids(tasks)) && before.Keys == Elems(Ids(tasks))
    requires forall x :: x in before ==> before[x] in {Done, Failed, Pending}
    ensures SkipPass(tasks, before, status)
    ensures forall x :: x in before && before[x] == Pending ==> status[x] in {Pending, Skipped}
  {
    status := before;
    for i := 0 to |tasks|
      invariant SkippedUpTo(tasks, before, status, i)
    {
      var t := tasks[i];
      assert Ids(tasks)[i] in Elems(Ids(tasks));
      SkipStep(tasks, before, status, i);
      if status[t.id] == Pending && IsBlocked(t, status) {
        status := status[t.id := Skipped];
      }
    }
    SkipFinished(tasks, before, status);
  }

  /** The statuses after the pass has handled the first `n` tasks. */
  ghost predicate SkippedUpTo(tasks: seq<TaskNode>, before: Statuses, status: Statuses, n: nat)
    requires n <= |tasks|
  {
    && status.Keys == before.Keys
    && (forall x :: x in before && status[x] != before[x] ==> before[x] == Pending && status[x] == Skipped && Before(tasks, n, x))
    && forall i :: 0 <= i < n && tasks[i].id in before && before[tasks[i].id] == Pending ==>
         (status[tasks[i].id] == Skipped <==> BlockedAt(tasks, before, status, i))
  }

  lemma SkipStep(tasks: seq<TaskNode>, before: Statuses, status: Statuses, n: nat)
    requires Distinct(Ids(tasks)) && n < |tasks| && tasks[n].id in before
    requires forall x :: x in before ==> before[x] in {Done, Failed, Pending}
    requires SkippedUpTo(tasks, before, status, n)
    ensures var x := tasks[n].id;
            var next := if status[x] == Pending && IsBlocked(tasks[n], status) then status[x := Skipped] else status;
            SkippedUpTo(tasks, before, next, n + 1)
  {
    var x := tasks[n].id;
    NotBefore(tasks, n);
    var next := if status[x] == Pending && IsBlocked(tasks[n], status) then status[x := Skipped] else status;
    forall y | y in before && next[y] != before[y] ensures before[y] == Pending && next[y] == Skipped && Before(tasks, n + 1, y) {
      assert y == x || Before(tasks, n, y);
    }
    forall i | 0 <= i <= n && tasks[i].id in before && before[tasks[i].id] == Pending
      ensures next[tasks[i].id] == Skipped <==> BlockedAt(tasks, before, next, i) {
      SkipStepAt(tasks, before, status, n, next, i);
    }
  }

  lemma SkipStepAt(tasks: seq<TaskNode>, before: Statuses, status: Statuses, n: nat, next: Statuses, i: nat)
    requires i <= n < |tasks| && tasks[n].id in before && !Before(tasks, n, tasks[n].id)
    requires forall x :: x in before ==> before[x] in {Done, Failed, Pending}
    requires SkippedUpTo(tasks, before, status, n)
    requires next == if status[tasks[n].id] == Pending && IsBlocked(tasks[n], status) then status[tasks[n].id := Skipped] else status
    requires tasks[i].id in before && before[tasks[i].id] == Pending
    ensures next[tasks[i].id] == Skipped <==> BlockedAt(tasks, before, next, i)
  {
    BlockedStable(tasks, before, status, next, n, i);
    assert i < n ==> Before(tasks, n, tasks[i].id);
  }

  lemma NotBefore(tasks: seq<TaskNode>, n: nat)
    requires Distinct(Ids(tasks)) && n < |tasks|
    ensures !Before(tasks, n, tasks[n].id)
  {
    forall j | 0 <= j < n ensures tasks[j].id != tasks[n].id { assert Ids(tasks)[j] != Ids(tasks)[n]; }
  }

  /** Whether a task is blocked only depends on statuses of tasks handled before it. */
  lemma BlockedStable(tasks: seq<TaskNode>, before: Statuses, status: Statuses, next: Statuses, n: nat, i: nat)
    requires i <= n < |tasks| && !Before(tasks, n, tasks[n].id)
    requires SkippedUpTo(tasks, before, status, n) && tasks[n].id in status
    requires forall x :: x in before ==> before[x] in {Done, Failed, Pending}
    requires next == status || next == status[tasks[n].id := Skipped]
    ensures BlockedAt(tasks, before, next, i) <==> BlockedAt(tasks, before, status, i)
    ensures i == n ==> (BlockedAt(tasks, before, status, i) <==> IsBlocked(tasks[n], status))
  {
    forall d | Before(tasks, i, d) ensures d != tasks[n].id {
      assert Before(tasks, n, d);
    }
  }

  lemma SkipFinished(tasks: seq<TaskNode>, before: Statuses, status: Statuses)
    requires SkippedUpTo(tasks, before, status, |tasks|)
    ensures SkipPass(tasks, before, status)
    ensures forall x :: x in before && before[x] == Pending ==> status[x] in {Pending, Skipped}
  {
  }

  /** `executePlan`: a fresh engine context, the rounds, then the skip pass. */
  method ExecutePlan(tasks: seq<TaskNode>, maxTotalAgents: int, cancellation: Cancellation, provider: TaskId -> Answer)
    returns (status: Statuses, results: Results, agentsStarted: nat, ghost trace: seq<Start>, ghost rounds: Statuses)
    requires Distinct(Ids(tasks))
    ensures IsExecution(tasks, trace, rounds, status) && InRounds(tasks, trace)
    ensures Answered(trace, maxTotalAgents, cancellation, provider)
    ensures ResultsOf(results, trace, provider)
    ensures agentsStarted == Admitted(|trace|, maxTotalAgents, cancellation)
    ensures status.Keys == Elems(Ids(tasks)) && forall x :: x in status ==> status[x] != Running
    ensures forall x :: x in results <==> x in status && status[x] == Done
    ensures agentsStarted > 0 ==> agentsStarted <= maxTotalAgents
  {
    var ctx := new WorkflowContext(maxTotalAgents, cancellation);
    status, results, trace := RunRounds(tasks, ctx, provider);
    rounds := status;
    status := PropagateSkips(tasks, status);
    agentsStarted := ctx.agentsStarted;
    forall x | x in GraphOf(tasks) ensures status[x] != Running && (status[x] == Done <==> x in Succeeded(trace)) {
      var i :| 0 <= i < |tasks| && Ids(tasks)[i] == x;
      FinalStatus(tasks, rounds, status, i);
      assert rounds[x] == RoundStatus(trace, x);
    }
    DoneAreGraph(GraphOf(tasks), trace);
  }

  /** The skip pass touches pending tasks only, and never makes one running or done. */
  lemma FinalStatus(tasks: seq<TaskNode>, rounds: Statuses, final: Statuses, i: nat)
    requires SkipPass(tasks, rounds, final) && i < |tasks| && tasks[i].id in rounds
    ensures var x := tasks[i].id;
            x in final && (final[x] == Running <==> rounds[x] == Running) && (final[x] == Done <==> rounds[x] == Done)
  {
    assert rounds[tasks[i].id] == Pending ==> final[tasks[i].id] in {Skipped, Pending};
  }

  lemma DoneAreGraph(g: Graph, trace: seq<Start>)
    requires ValidTrace(g, trace)
    ensures Succeeded(trace) <= g.Keys
  {
    forall x | x in Succeeded(trace) ensures x in g {
      var s :| s in trace && s.ok && s.id == x;
      var k :| 0 <= k < |trace| && trace[k] == s;
      ValidTraceAt(g, trace, k);
    }
  }

  // ---- what an execution guarantees ----

  /** Safety, for every plan: no task starts twice, and each start follows the success of all dependencies. */
  lemma StartsOnceAfterDependencies(g: Graph, trace: seq<Start>, k: nat)
    requires ValidTrace(g, trace) && k < |trace|
    ensures trace[k].id in g
    ensures forall j :: 0 <= j < k ==> trace[j].id != trace[k].id
    ensures forall d :: d in g[trace[k].id] ==> exists j :: 0 <= j < k && trace[j] == Start(d, true)
  {
    ValidTraceAt(g, trace, k);
    var before := trace[..k];
    forall j | 0 <= j < k ensures trace[j].id != trace[k].id {
      assert before[j] in before && before[j].id in Started(before);
    }
    forall d | d in g[trace[k].id] ensures exists j :: 0 <= j < k && trace[j] == Start(d, true) {
      assert d in Succeeded(before);
      var s :| s in before && s.ok && s.id == d;
      var j :| 0 <= j < k && before[j] == s;
      assert trace[j] == Start(d, true);
    }
  }

  /** `p` leads from its head along dependencies to a failed task. */
  ghost predicate FailurePath(g: Graph, rounds: Statuses, p: seq<TaskId>) {
    |p| >= 2 && IsWalk(g, p) && p[|p| - 1] in rounds && rounds[p[|p| - 1]] == Failed
  }

  ghost predicate DependsOnFailed(g: Graph, rounds: Statuses, x: TaskId) {
    exists p :: FailurePath(g, rounds, p) && p[0] == x
  }

  /** A task with a dependency that did not succeed was never started. */
  lemma UnfinishedBlocks(g: Graph, trace: seq<Start>, rounds: Statuses, x: TaskId, d: TaskId)
    requires ValidTrace(g, trace) && Reflects(g, trace, rounds)
    requires x in g && d in g[x] && (d in g ==> rounds[d] != Done)
    ensures rounds[x] == Pending
  {
    SucceededStarted(g, trace, d);
    SucceededStarted(g, trace, x);
    if x in Started(trace) {
      DependencySucceeded(g, trace, x, d);
    }
  }

  lemma DependencySucceeded(g: Graph, trace: seq<Start>, x: TaskId, d: TaskId)
    requires ValidTrace(g, trace) && x in Started(trace) && x in g && d in g[x]
    ensures d in Succeeded(trace)
  {
    var k :| 0 <= k < |trace| && trace[k].id == x;
    StartsOnceAfterDependencies(g, trace, k);
    var j :| 0 <= j < k && trace[j] == Start(d, true);
    assert trace[j] in trace;
  }

  lemma WalkTail(g: Graph, p: seq<TaskId>)
    requires IsWalk(g, p) && |p| >= 2
    ensures p[0] in g && p[1] in g[p[0]] && IsWalk(g, p[1..])
  {
    assert p[0] in g && p[0 + 1] in g[p[0]];
    var q := p[1..];
    forall i | 0 <= i < |q| - 1 ensures q[i] in g && q[i + 1] in g[q[i]] {
      assert p[i + 1] in g && p[(i + 1) + 1] in g[p[i + 1]];
    }
  }

  /** A task above a failed one was never started. */
  lemma {:induction false} AboveFailureUnstarted(g: Graph, trace: seq<Start>, rounds: Statuses, p: seq<TaskId>)
    requires ValidTrace(g, trace) && Reflects(g, trace, rounds) && FailurePath(g, rounds, p)
    ensures p[0] in g && rounds[p[0]] == Pending
    decreases |p|
  {
    WalkTail(g, p);
    if |p| > 2 {
      AboveFailureUnstarted(g, trace, rounds, p[1..]);
    }
    UnfinishedBlocks(g, trace, rounds, p[0], p[1]);
  }

  lemma FailurePathCons(g: Graph, rounds: Statuses, x: TaskId, p: seq<TaskId>)
    requires FailurePath(g, rounds, p) && x in g && p[0] in g[x]
    ensures DependsOnFailed(g, rounds, x)
  {
    var q := [x] + p;
    forall k | 0 <= k < |q| - 1 ensures q[k] in g && q[k + 1] in g[q[k]] {
      if k > 0 { assert q[k] == p[k - 1] && q[k + 1] == p[(k - 1) + 1]; }
    }
    assert FailurePath(g, rounds, q);
  }

  lemma FailurePathBase(g: Graph, rounds: Statuses, x: TaskId, d: TaskId)
    requires x in g && d in g[x] && d in rounds && rounds[d] == Failed
    ensures DependsOnFailed(g, rounds, x)
  {
    assert FailurePath(g, rounds, [x, d]);
  }

  /** A skipped task sits above a failed one. */
  lemma {:induction false} SkippedAboveFailure(tasks: seq<TaskNode>, rounds: Statuses, final: Statuses, i: nat)
    requires Distinct(Ids(tasks)) && SkipPass(tasks, rounds, final)
    requires rounds.Keys == GraphOf(tasks).Keys && forall x :: x in rounds ==> rounds[x] in {Done, Failed, Pending}
    requires i < |tasks| && tasks[i].id in final && final[tasks[i].id] == Skipped
    ensures DependsOnFailed(GraphOf(tasks), rounds, tasks[i].id)
    decreases i
  {
    var x := tasks[i].id;
    assert rounds[x] == Pending;
    assert BlockedAt(tasks, rounds, final, i);
    var d, j := Blocker(tasks, rounds, final, i);
    if rounds[d] == Failed {
      FailurePathBase(GraphOf(tasks), rounds, x, d);
    } else {
      SkippedAboveFailure(tasks, rounds, final, j);
      var p :| FailurePath(GraphOf(tasks), rounds, p) && p[0] == d;
      FailurePathCons(GraphOf(tasks), rounds, x, p);
    }
  }

  lemma Blocker(tasks: seq<TaskNode>, rounds: Statuses, final: Statuses, i: nat) returns (d: TaskId, j: nat)
    requires Distinct(Ids(tasks)) && i < |tasks| && BlockedAt(tasks, rounds, final, i)
    ensures tasks[i].id in GraphOf(tasks) && d in GraphOf(tasks)[tasks[i].id] && d in rounds && d in final
    ensures rounds[d] == Failed || (final[d] == Skipped && j < i && tasks[j].id == d)
  {
    assert Ids(tasks)[i] in Ids(tasks);
    d :| d in tasks[i].dependsOn && d in rounds && d in final &&
      (rounds[d] == Failed || (final[d] == Skipped && Before(tasks, i, d)));
    if Before(tasks, i, d) {
      j :| 0 <= j < i && tasks[j].id == d;
    } else {
      j := 0;
    }
  }

  /** A task that ended the rounds pending has a dependency that did not succeed. */
  lemma PendingHasUnfinished(g: Graph, trace: seq<Start>, rounds: Statuses, x: TaskId) returns (d: TaskId)
    requires Exhausted(g, trace) && Reflects(g, trace, rounds)
    requires x in g && rounds[x] == Pending
    ensures d in g[x] && (d in g ==> rounds[d] != Done)
  {
    d :| d in g[x] && d !in Succeeded(trace);
  }

  /** In a topologically ordered plan the single pass settles every pending task. */
  lemma {:induction false} OrderedPlanSettles(tasks: seq<TaskNode>, trace: seq<Start>, rounds: Statuses, final: Statuses, i: nat)
    requires Distinct(Ids(tasks)) && Topological(GraphOf(tasks), Ids(tasks)) && i < |tasks|
    requires Exhausted(GraphOf(tasks), trace) && Reflects(GraphOf(tasks), trace, rounds) && SkipPass(tasks, rounds, final)
    ensures tasks[i].id in final && final[tasks[i].id] in {Done, Failed, Skipped}
    decreases i
  {
    var g, x := GraphOf(tasks), tasks[i].id;
    if rounds[x] == Pending {
      var d := PendingHasUnfinished(g, trace, rounds, x);
      var j := EarlierDependency(tasks, i, d);
      OrderedPlanSettles(tasks, trace, rounds, final, j);
      assert BlockedAt(tasks, rounds, final, i);
    }
  }

  lemma EarlierDependency(tasks: seq<TaskNode>, i: nat, d: TaskId) returns (j: nat)
    requires Distinct(Ids(tasks)) && Topological(GraphOf(tasks), Ids(tasks)) && i < |tasks|
    requires d in GraphOf(tasks)[tasks[i].id]
    ensures j < i && tasks[j].id == d && Before(tasks, i, d) && d in tasks[i].dependsOn && d in GraphOf(tasks)
  {
    assert GraphOf(tasks)[Ids(tasks)[i]] <= Elems(Ids(tasks)[..i]);
    j :| 0 <= j < i && Ids(tasks)[..i][j] == d;
    assert Ids(tasks)[j] in GraphOf(tasks);
  }

  /** The final status of every task, in terms of the trace and the dependency graph alone. */
  ghost predicate Settled(g: Graph, trace: seq<Start>, rounds: Statuses, final: Statuses) {
    final.Keys == g.Keys && forall x :: x in g ==> SettledAt(g, trace, rounds, x, final[x])
  }

  ghost predicate SettledAt(g: Graph, trace: seq<Start>, rounds: Statuses, x: TaskId, status: Status) {
    && (status == Done <==> x in Succeeded(trace))
    && (status == Failed <==> x in Started(trace) && x !in Succeeded(trace))
    && (status == Skipped <==> DependsOnFailed(g, rounds, x))
    && status in {Done, Failed, Skipped}
  }

  /**
   * In a topologically ordered plan nothing ends pending or running, and a task is skipped exactly when it
   * transitively depends on a failed one.
   */
  lemma OrderedPlanComplete(tasks: seq<TaskNode>, trace: seq<Start>, rounds: Statuses, final: Statuses)
    requires Distinct(Ids(tasks)) && IsExecution(tasks, trace, rounds, final)
    requires Topological(GraphOf(tasks), Ids(tasks))
    ensures Settled(GraphOf(tasks), trace, rounds, final)
  {
    var g := GraphOf(tasks);
    forall x | x in g ensures SettledAt(g, trace, rounds, x, final[x]) {
      var i :| 0 <= i < |tasks| && Ids(tasks)[i] == x;
      OrderedTaskSettled(tasks, trace, rounds, final, i);
    }
  }

  lemma OrderedTaskSettled(tasks: seq<TaskNode>, trace: seq<Start>, rounds: Statuses, final: Statuses, i: nat)
    requires Distinct(Ids(tasks)) && IsExecution(tasks, trace, rounds, final) && i < |tasks|
    requires Topological(GraphOf(tasks), Ids(tasks))
    ensures tasks[i].id in final && SettledAt(GraphOf(tasks), trace, rounds, tasks[i].id, final[tasks[i].id])
  {
    var g, x := GraphOf(tasks), tasks[i].id;
    SucceededStarted(g, trace, x);
    OrderedPlanSettles(tasks, trace, rounds, final, i);
    if final[x] == Skipped {
      SkippedAboveFailure(tasks, rounds, final, i);
    }
    if DependsOnFailed(g, rounds, x) {
      var p :| FailurePath(g, rounds, p) && p[0] == x;
      AboveFailureUnstarted(g, trace, rounds, p);
    }
  }

  /** Tasks on a dependency cycle never start, whatever the plan's order. */
  lemma CycleNeverStarts(g: Graph, trace: seq<Start>, rounds: Statuses, p: seq<TaskId>)
    requires ValidTrace(g, trace) && Reflects(g, trace, rounds) && IsCycle(g, p)
    ensures p[0] in g && rounds[p[0]] == Pending
  {
    assert p[0] in g && p[0 + 1] in g[p[0]];
    var ids := StartOrder(g, trace);
    CycleAvoidsOrder(g, ids, p);
    SucceededStarted(g, trace, p[0]);
  }

  lemma StartOrder(g: Graph, trace: seq<Start>) returns (ids: seq<TaskId>)
    requires ValidTrace(g, trace)
    ensures Ordered(g, ids) && forall x :: x in ids <==> x in Started(trace)
  {
    ids := seq(|trace|, k requires 0 <= k < |trace| => trace[k].id);
    forall k | 0 <= k < |ids|
      ensures ids[k] in g && g[ids[k]] <= Elems(ids[..k]) && forall j :: 0 <= j < k ==> ids[j] != ids[k]
    {
      StartsOnceAfterDependencies(g, trace, k);
      forall d | d in g[ids[k]] ensures d in ids[..k] {
        var j :| 0 <= j < k && trace[j] == Start(d, true);
        assert ids[..k][j] == d;
      }
    }
    forall x ensures x in ids <==> x in Started(trace) {
      if x in ids {
        var k :| 0 <= k < |ids| && ids[k] == x;
        assert trace[k] in trace;
      }
      if x in Started(trace) {
        var k :| 0 <= k < |trace| && trace[k].id == x;
        assert ids[k] == x;
      }
    }
  }
}
