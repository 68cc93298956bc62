# Tony Agent: a verified model

This project models the hard parts of Tony Agent, an agent harness written in TypeScript, and proves what they keep. Each
module follows one component of the program:

- **Plans.** `Dag` and `Kahn` are the topological sort with its sorted ready queue; `GroupPlanner` clusters graph entities
  into tasks and derives dependencies; `PlanExecution` is the round-based executor with the agent cap and cancel flag of the
  workflow context; `PlanTheorems` composes planner and executor.
- **Text scanners.** `JsonScanner` is the scanner that finds balanced JSON in free text, with a printer for JSON values to
  state what it must find (sections 2 and 7 of RFC 8259: white space, escapes and nesting). `EventStream` is the
  incremental event reader against the whole-text one, and `EventText` the texts a server writes for them (line feeds and
  carriage-return line feeds, as in section 9.2.5 of the WHATWG HTML Living Standard). `Framing` is the length-prefixed frame codec.
- **Derived index.** `Lineage` traces session ancestors and descendants, `GraphExpansion` is the batched breadth-first
  expansion over relations (batches of 50 without a cap, and batches of 10 with a cap of 40), `EventPaging` is keyset paging.
- **Tool-call waterfall.** `Waterfall` has the re-entrant `next()` chain as a method, with every `next()` awaited one at a
  time, and the dispose and quiescence protocol as a class; `WaterfallOrder` has the chain as a machine in which calls of
  `next()` overlap and need not be awaited.
- **Sessions.** `SessionStore` is the append-only store with branching and compaction; `Transcript` projects the log to
  messages and back; `TonyAgent` is the bounded agent loop, with `AgentTheorems` about all its runs; `SessionRuntime` is the
  live session whose log, history and conversation must agree.
- **Harness.** `HarnessMessages` is the wire form of a transcript and its normal form, `HarnessLoop` the harness agent's loop,
  `HarnessTheorems` what all its runs keep, `ColdResume` what a resumed subagent gets back.
- **Memory.** `Similarity` is cosine similarity over token counts.
- `Text` and `IdOrder` hold stock pieces: optional values, trimming, numerals, and the order of ids.

Code that changes state step by step is a method with loops, or a class, proved against a specification that is a function
or a predicate on values; the promises are then lemmas about that specification. What the outside world does (replies,
tool results, permissions, aborts, completion order) is an input: a script the loop consumes, so a lemma for all scripts is a
lemma for all runs. A script that runs out stands for an abort in `TonyAgent` and for a failing model call in `HarnessLoop`.

Some promises turned out to hold only under a condition. Each of these is proved as an if-and-only-if, or with an input that
breaks it:

- The planner's comment says its input is acyclic by construction (src/plan/group.ts:76-77). It is not: two relations in
  opposite directions suffice, and then tasks stay pending (`PlanTheorems.PlannerAcceptsCycle`, `PendingIffCyclic`).
- The streaming event reader trims payloads with JavaScript's white space, the whole-text reader does not
  (`EventStream.ReadersAgreeIff` for a payload, `ReadersSameEventsIff` for a text).
- A middleware that calls `next()` without awaiting it lets the run end early: a later denial can be lost, and `dispose`
  returns while a middleware is running (`WaterfallOrder.LateDenialLost`, `AlwaysFullIff`, `DisposeQuietIff`).
- An empty parent id ends the ancestor loop but not the descendant search (`Lineage.DualityIffNoEmptyParents`).
- The log drops empty tool-call ids and names (`Transcript.LoggedIffLoggable`), and with a system prompt the ask after a reset,
  a compaction or an opening logs the last message again unless the history was empty or began with the prompt
  (`SessionRuntime.PromptAgreementIff`). A reset or compaction during an ask rewrites the log before it throws, and the ask
  then appends behind the wrong length (`SessionRuntime.RewriteDuringAskIff`).
- A turn of the agent past the per-turn limit answers none of its calls, and past the total limit all but the first of the
  rest stay unanswered (`AgentTheorems.CompletedTurnAnswers`).
- A negative tool-call budget of the harness still starts calls (`HarnessTheorems.BudgetKeptIffNotNegative`), and its comment
  that no tool call is left dangling (src/harness/agent.ts:260-261) covers neither aborts, truncated replies and calls that
  throw, nor replies without text, whose results have no assistant message (`HarnessTheorems.AnswersMatchCallsIff`,
  `TurnBalancedIff`).
- A subagent resumed from its log loses summaries, tool calls and tool results, because the derived messages are not in wire
  form (`ColdResume.ResumeKeepsAllIffPlainTalk`).
- Frames above 64 MiB can be written but never read (`Framing.FrameRoundTripIff`).
- A page limit below one makes the search throw (`EventPaging.SearchThrowsIff`).
- An explicit parent given to `append` is not checked against the log (`SessionStore.SessionStore.Append`).

## Model

| member | source | states |
|---|---|---|
| Dag.CycleAvoidsOrder | src/plan/group.ts:98-114 | no node of a cycle is in any prefix built by taking ready nodes: a cycle is never entered |
| Dag.TrappedHasCycle | src/plan/group.ts:110-114 | when every node left over waits for another one left over, a cycle exists among them, and it is returned |
| Dag.LeftoverIffCycle | src/plan/group.ts:110-114 | the fallback branch is taken exactly when the dependency graph has a cycle |
| Dag.GreedyIsLexLeast | src/plan/group.ts:98-109 | always taking the least ready id gives the lexicographically least of all topological orders |
| Dag.KahnCorrect | src/plan/group.ts:87-116 | a result of the sort is a topological order, and the least one, if and only if the graph is acyclic; only then is the fallback part empty |
| Kahn.Register | src/plan/group.ts:90-96 | registering a task adds its id to the dependents of exactly its dependencies, at the end |
| Kahn.BuildIndex | src/plan/group.ts:88-97 | in-degrees are dependency counts, and the dependents index is the inverse of the dependency relation |
| Kahn.Release | src/plan/group.ts:103-107 | after a task is output, in-degrees count what is still missing and exactly the newly ready dependents are queued |
| Kahn.Drain | src/plan/group.ts:100-109 | the loop outputs ready ids, always a least one, until nothing outside the output is ready |
| Kahn.TopoSort | src/plan/group.ts:87-116 | a permutation of all ids: each of the first n has its dependencies before it, and no smaller id was free then; none of the others is free behind them, and these stand in id order |
| IdOrder.LeqTextMeans | src/plan/group.ts:98 | the order of ids: a text comes first if it begins the other, or has the smaller code unit where they first differ |
| GroupPlanner.Cluster | src/plan/group.ts:35-41 | each kind at its first appearance, entities without a type counting as unknown, and for each the names of exactly its entities, in order |
| GroupPlanner.BuildNodes | src/plan/group.ts:44-56 | the first `maxTasks` clusters become tasks numbered from 1, with no dependencies yet |
| GroupPlanner.FindType | src/plan/group.ts:62-63 | the type of the first entity of that name, empty when there is none |
| GroupPlanner.AddDependency | src/plan/group.ts:72-73 | only the target task changes, and it gains exactly the new dependency at the end |
| GroupPlanner.DeriveEdges | src/plan/group.ts:58-74 | each wanted edge is kept at its first occurrence, in that order, and a task depends on exactly the sources of its edges |
| GroupPlanner.CollectedIsExact | src/plan/group.ts:61-74 | the edges are exactly one per pair of clusters linked by some relation, with the kind of the first such relation |
| GroupPlanner.Arrange | src/plan/group.ts:78-80 | tasks in the order of the given ids |
| GroupPlanner.MakePlan | src/plan/group.ts:30-83 | the plan read off the input: the first `maxTasks` kinds in order of appearance, a task for each with its number, title and entities; one edge per pair of kinds some relation leads between, judged by the first entity of each name, with the kind and in the order of the first such relation; dependencies are the edges' sources; tasks stand ready-first, least id first |
| PlanExecution.WorkflowContext.Agent | src/workflow/engine.ts:97-104 | a call is admitted exactly when not cancelled and below the cap; only admitted calls count and reach the provider |
| PlanExecution.RunTask | src/plan/execute.ts:37-44 | running a task extends the trace by it, with status and result following the answer |
| PlanExecution.RunRound | src/plan/execute.ts:33-45 | a round starts each ready task once and keeps statuses equal to what the trace says |
| PlanExecution.RunRounds | src/plan/execute.ts:32-46 | rounds end, by a bound on the trace, in a state where no unstarted task has all dependencies done; each round starts, in plan order, exactly the tasks that can start at its beginning |
| PlanExecution.PropagateSkips | src/plan/execute.ts:49-54 | one pass in task order: a pending task is skipped exactly when a dependency failed or was skipped earlier in the same pass |
| PlanExecution.ExecutePlan | src/plan/execute.ts:26-57 | terminates; the trace falls into rounds that start what can start, in plan order; the trace, the statuses, the results and the number of admitted agents are those of one execution of the plan; nothing is left running, and exactly the done have results |
| PlanExecution.StartsOnceAfterDependencies | src/plan/execute.ts:33-45 | every start is the first of its task, and all its dependencies succeeded before it |
| PlanExecution.AboveFailureUnstarted | src/plan/execute.ts:33-45 | whatever transitively depends on a failed task is never started |
| PlanExecution.SkippedAboveFailure | src/plan/execute.ts:49-54 | a skipped task transitively depends on a failed one, for plans in any order |
| PlanExecution.OrderedPlanSettles | src/plan/execute.ts:49-54 | in a topologically ordered plan the single pass leaves nothing pending |
| PlanExecution.OrderedPlanComplete | src/plan/execute.ts:26-57 | in a topologically ordered plan: done iff succeeded, failed iff started without success, skipped iff above a failure, nothing else |
| PlanExecution.CycleNeverStarts | src/plan/execute.ts:33-45 | tasks on a cycle stay pending |
| PlanTheorems.PlanGraph | src/plan/group.ts:58-82 | the dependency graph of a plan is the graph of linked entity types, whatever the order of tasks |
| PlanTheorems.PlannedExecutionComplete | src/plan/execute.ts:26-57 | planner and executor compose: if the type graph is acyclic, every execution of the plan settles every task |
| PlanTheorems.PendingIffCyclic | src/plan/execute.ts:32-54 | when no agent fails, some task ends pending if and only if the type graph has a cycle |
| PlanTheorems.PlannerAcceptsCycle | src/plan/group.ts:76-77 | two entities and two relations that make the planner's input cyclic, against the comment there |
| PlanTheorems.MutualLinksCycle | src/plan/group.ts:61-74 | relations both ways between two clusters always give a cyclic plan |
| PlanTheorems.UnorderedPlanCanStayPending | src/plan/execute.ts:49-54 | an acyclic plan in reverse order whose first task fails: one dependent is skipped, the next stays pending |
| JsonScanner.ScanFrom | src/llm/client.ts:71-97 | the inner loop finds the position where the bracket opened at `start` closes, or reports that it does not |
| JsonScanner.BalancedJsonCandidates | src/llm/client.ts:69-100 | the candidates are the parsed closed spans of all start positions, in order |
| JsonScanner.ParseJsonPayload | src/llm/client.ts:125-128 | the first candidate that is a record, and none exactly when no candidate is one |
| JsonScanner.ClosesIffBalanced | src/llm/client.ts:76-97 | the scan closes at a position if and only if the span is bracket-balanced outside string literals, by an independent definition |
| JsonScanner.EmittedAreBalanced | src/llm/client.ts:71-99 | a value is emitted if and only if it parses from some balanced span of the text |
| JsonScanner.PrintIsNeutral | src/llm/client.ts:76-97 | the text of any JSON value, with any white space and escapes, leaves the scanner's stack as it was |
| JsonScanner.PrintedCloses | src/llm/client.ts:76-97 | the scan of a printed object or array closes on its last character, not before |
| JsonScanner.FirstCandidateIsPrinted | src/llm/client.ts:69-100 | after a prefix without brackets and before any suffix, the first candidate is exactly the printed value |
| EventStream.FirstBoundaryStable | src/llm/client.ts:348-351 | a boundary found in a buffer stays the first one, with the same length, when more text arrives |
| EventStream.SplitExtend | src/llm/client.ts:346-353 | appending text only touches the last block of a split |
| EventStream.ProcessBuffer | src/llm/client.ts:346-353 | the buffer loop handles all complete blocks in order and leaves the unfinished one |
| EventStream.ReadSse | src/llm/client.ts:338-366 | for every chunking, the state is that of handling the blocks of the whole text, without a blank last one; for a text of events, with any mix of line ends, it is that of their payloads in order |
| EventStream.SplitRendered | src/llm/client.ts:348-371 | a text of events, each some lines and a blank one, any of them ended by a line feed or a carriage return and line feed, splits into exactly the events' lines |
| EventStream.PayloadOfBody | src/llm/client.ts:340-345 | the payload of an event is its data lines, without white space before them, joined by newlines; other lines are ignored |
| EventStream.ReadersReadEvents | src/llm/client.ts:310-382 | on a text of events both readers apply exactly the values of the payloads, in order: the parser's answer on the trimmed payload for one, on the payload itself for the other |
| EventStream.ParseSseText | src/llm/client.ts:371-382 | the state is that of handling all blocks of the whole text; for a text of events it is that of their payloads in order |
| EventStream.SameDecoderSameState | src/llm/client.ts:338-378 | with one event decoder that ignores empty payloads, both readers end in the same state |
| EventStream.WholeTextOnlyDrops | src/llm/client.ts:310-314 | the whole-text decoder sees an event or misses it, but sees none the streaming one does not |
| EventStream.ReadersSameEventsIff | src/llm/client.ts:338-382 | for every text and chunking the two readers find the same events, and collect the same, if and only if every value in the text stands between JSON white space only |
| EventStream.ReadersSameState | src/llm/client.ts:338-382 | on such a text they end in the same state, whatever an event does to it |
| EventStream.ReadersAgreeIff | src/llm/client.ts:310-314 | the two decoders, one trimming and one not, agree on a payload if and only if it carries no value or no white space beyond JSON's around it |
| EventStream.ReadersCanDiffer | src/llm/client.ts:378-381 | a no-break space after a value: the streaming reader keeps the event, the whole-text reader drops it |
| Lineage.TraceAncestors | src/query/engine.ts:568-576 | the ancestor loop ends; it throws only when the chain repeats, else lists the whole chain, nearest first, without repeats |
| Lineage.TraceDescendants | src/query/engine.ts:578-590 | the descendant search ends; it throws only for a session on a loop, else lists each descendant once, nearest first |
| Lineage.TraceSession | src/query/engine.ts:562-597 | throws exactly when the chain repeats or the session is on a loop; else ancestors and descendants are complete, duplicate-free and nearest first |
| Lineage.SecondCheckIsDead | src/query/engine.ts:585 | without empty parent ids, a session on a loop already has a repeating chain, so the second check never fires |
| Lineage.ListedAreAncestors | src/query/engine.ts:568-576 | a session is listed as an ancestor exactly when it is one |
| Lineage.AncestorsAndDescendantsDual | src/query/engine.ts:567-597 | without empty parent ids, d is a descendant of s exactly when s is an ancestor of d |
| Lineage.DualityIffNoEmptyParents | src/query/engine.ts:571 | that duality holds for all pairs if and only if no session has the empty parent id, where the truthiness test stops the ancestor loop |
| GraphExpansion.WithinIffWalk | src/query/engine.ts:313-333 | being within distance n is being the end of a walk of at most n relations from a seed |
| GraphExpansion.SelectRows | src/query/engine.ts:320-325 | the rows of a round are those with an end in the batch |
| GraphExpansion.Round | src/query/engine.ts:326-332 | a round labels only neighbours of the batch, with this hop, and all of them unless the cap stops it |
| GraphExpansion.RoundSound | src/query/engine.ts:326-332 | labels stay upper bounds of the true distance |
| GraphExpansion.RoundExact | src/query/engine.ts:318-333 | when no level overflows, a round extends exact labels to the next distance |
| GraphExpansion.DrainedIsClosed | src/query/engine.ts:249-271 | a search that drains its queue below the cap has reached every reachable name |
| GraphExpansion.Expand | src/query/engine.ts:244-271 | every label is at most `maxHops` and a walk of that many relations, either way round, leads there from a seed; if no level overflows the batch and the cap is not met, every end of a walk of at most `maxHops` relations is there, with no shorter walk than its label; a drained queue below the cap means the end of every walk was found |
| Waterfall.MaximumMeans | src/events/waterfall.ts:52-55 | the merged decision is deny exactly when some middleware denied, or threw when failing closed; ask exactly when none did and some asked; allow otherwise |
| Waterfall.ReachesUnique | src/events/waterfall.ts:90-100 | how far a chain of nested `next` calls gets is determined by the middlewares |
| Waterfall.ChainRun.Step | src/events/waterfall.ts:90-100 | one step, when every `next()` is awaited and one at a time, consumes the next middlewares in order and raises the decision to their maximum |
| Waterfall.RunChain | src/events/waterfall.ts:83-104 | when every `next()` is awaited, one at a time: each call invokes one middleware while the list lasts, and the decision is deny exactly when some invoked middleware denied or, failing closed, threw; ask exactly when none did and some asked; else allow |
| WaterfallOrder.InterleavingIrrelevant | src/events/waterfall.ts:88-100 | whether `next()` is awaited or not, and in whatever order things settle, once nothing runs any more the same prefix has been invoked and the decision is its maximum |
| WaterfallOrder.NeverStuck | src/events/waterfall.ts:88-100 | a chain that is not at rest can always take another step |
| WaterfallOrder.OutcomeIsSettledMaximum | src/events/waterfall.ts:102-104 | the outcome of a run is deny exactly when a middleware that had settled when it was read denied or, failing closed, threw; ask exactly when none did and one asked; all it awaited had settled |
| WaterfallOrder.LateDenialLost | src/events/waterfall.ts:90-104 | two middlewares, the first not awaiting `next()`: the run can end with allow while the second, which denies, is running |
| WaterfallOrder.AlwaysFullIff | src/events/waterfall.ts:88-104 | the outcome is the maximum over all invoked middlewares in every order, if and only if a one-pass count of outstanding un-awaited calls leaves none that could hide it |
| WaterfallOrder.AwaitingNeverMisses | src/events/waterfall.ts:88-104 | no decision is missed when every invoked middleware but the last awaits its `next()` calls |
| WaterfallOrder.QuietWhenEndedIff | src/events/waterfall.ts:101-110 | after a run no middleware it invoked is running, in every order, if and only if all but the last invoked await their `next()` calls |
| WaterfallOrder.DisposeQuietIff | src/events/waterfall.ts:105-132 | over all accepted runs: when a dispose returns without its timer no middleware is running, however the runs went, if and only if in every run all but the last invoked middleware await their `next()` calls |
| Waterfall.ToolCallWaterfall.BeginRun | src/events/waterfall.ts:84-89 | accepted exactly when no dispose was requested; then it is counted and gets the current middlewares |
| Waterfall.ToolCallWaterfall.EndRun | src/events/waterfall.ts:105-110 | one run fewer in flight; the last one releases a waiting dispose |
| Waterfall.ToolCallWaterfall.RequestDispose | src/events/waterfall.ts:117-124 | no run is accepted from here on; with nothing in flight the list is cleared at once, else the dispose waits |
| Waterfall.ToolCallWaterfall.FireTimer | src/events/waterfall.ts:125-128 | the timer releases the dispose and clears the list, whatever is in flight |
| Waterfall.ToolCallWaterfall.FinishDispose | src/events/waterfall.ts:129-131 | a dispose that returns without the timer having fired finds nothing in flight |
| SessionStore.CompactedMeans | src/session/store.ts:172-192 | the new log is a parentless summary with the text, whose recorded ids interleave with the ids behind it to the old ids; kept are exactly those asked for, each as it was but for its parent, the entry before it |
| SessionStore.KeepElems | src/session/store.ts:177 | the entries kept are exactly those whose id was asked for |
| SessionStore.RechainAt | src/session/store.ts:186-192 | each kept entry becomes the child of the one before it, the first of the summary |
| SessionStore.CompactedWellFormed | src/session/store.ts:172-199 | a compacted log has distinct ids and every parent is an earlier entry |
| SessionStore.Inherited | src/session/store.ts:146-147 | a branch inherits the entries up to the first with the given id; all without one; none when it is not there |
| SessionStore.CopyEntries | src/session/store.ts:149-160 | the copy has fresh ids and the new session, the same bodies, and parent links of the same shape |
| SessionStore.RewriteSession | src/session/store.ts:103-199 | rewriting one session keeps the store valid exactly when the new log is valid by itself |
| SessionStore.IdsUniqueAcrossSessions | src/session/store.ts:107-109 | in a valid store no two entries share an id, within or across sessions |
| SessionStore.SessionStore.constructor | src/session/store.ts:103-105 | a new store is empty and valid |
| SessionStore.SessionStore.Create | src/session/store.ts:148 | a new session is empty, new, and leaves the others alone |
| SessionStore.SessionStore.ReadEntries | src/session/store.ts:125-129 | an error exactly for an unknown session; else its log, which in a valid store has distinct ids, all of that session, and only earlier entries as parents |
| SessionStore.SessionStore.Append | src/session/store.ts:103-123 | exactly one entry is added at the end, child of the given parent or of the last entry; the store stays valid if and only if a given parent is in the log |
| SessionStore.SessionStore.Branch | src/session/store.ts:143-169 | a new session holds an isomorphic copy of the chosen prefix; every other session is unchanged |
| SessionStore.SessionStore.Compact | src/session/store.ts:172-199 | the log becomes a parentless summary of the trimmed text and the entries asked for, each the child of the one before it; their ids and those the summary records interleave to the old ids; every other session is unchanged |
| Transcript.LoggedIffLoggable | src/runtime.ts:177-196 | messages come back from the log unchanged if and only if they hold no empty id or name and no field their role does not log |
| TonyAgent.AnswerCall | src/agent.ts:266-319 | one call: none on an abort, or when permission throws; the error of the total limit, of an unknown tool, of a refusal or of a repetition; else the tool's result. It runs exactly when it is new, within the limit, registered, and allowed by the policy or confirmed by the user |
| TonyAgent.AnswerCalls | src/agent.ts:266-320 | a turn's calls are answered in order until the world stops the run or the total limit is passed by one |
| TonyAgent.TakeTurn | src/agent.ts:197-322 | a turn adds steering, the reply and its answers, and ends the run, goes on, or is cut off |
| TonyAgent.LoopTurns | src/agent.ts:196-328 | the loop performs one of the runs the rules allow and appends exactly its messages |
| TonyAgent.TonyAgent.constructor | src/agent.ts:128-142 | the conversation is the history, behind the system prompt if there is one and the history does not begin with it |
| TonyAgent.TonyAgent.SetHistory | src/agent.ts:148-151 | refused, with nothing changed, exactly while a run is active |
| TonyAgent.TonyAgent.Run | src/agent.ts:171-340 | whether it returns or throws, the conversation grows by the prompt and the messages of one run of at most `maxTurns` turns, none without turns: what users said is the prompt and the steering, what the model said is its replies, and every call past the limit, of an unknown tool or refused is told so; only calls the policy allows, or the user confirms, reach a tool; all turns but the last asked for tools; a run in progress refuses |
| TonyAgent.RanAllowed | src/agent.ts:284-311 | whatever reaches a tool is registered, and the policy allows it, or wants it confirmed and the user confirmed it |
| TonyAgent.ErrorIsTold | src/agent.ts:266-318 | in every run, at the place of its answer, a call past the total limit, of an unknown tool, denied by the policy or not confirmed has that error |
| TonyAgent.RunSaid | src/agent.ts:199-248 | in every run the messages of users are the steering of its turns, and those of the model its replies with their calls, in order |
| TonyAgent.RunTurns | src/agent.ts:196-262 | every turn of a run met its part of the script without abort, and all but the last asked for tools |
| AgentTheorems.RunsOnceIffCleared | src/agent.ts:266-317 | over a whole run each (name, arguments) key reaches a tool at most once, exactly when some call with it was registered and within the budget, and allowed by the policy or confirmed; at most `maxToolCalls` do |
| AgentTheorems.KeyIdentifiesCall | src/agent.ts:97-99 | for registered names, which hold no colon, equal keys mean equal name and arguments |
| AgentTheorems.CompletedTurnAnswers | src/agent.ts:258-320 | past the per-turn limit only a call nobody made is answered; else the answers follow the calls in order. All calls are answered if and only if there are none, or they fit the turn and at most one is past the total limit, or the only one bears the guard's id |
| AgentTheorems.RunLoggableIffNamed | src/agent.ts:248-318 | everything a run adds survives the log if and only if every answered call has an id and a name |
| SessionRuntime.SliceStart | src/runtime.ts:141 | where `slice(-k)` starts: zero keeps everything, a positive `k` the last k at most, a negative one drops from the front |
| SessionRuntime.KeepSuffix | src/runtime.ts:141-142 | keeping the ids of a suffix keeps exactly that suffix |
| SessionRuntime.CompactedView | src/session/log.ts:8-17 | after compaction the model sees the summary and the kept messages |
| SessionRuntime.AskSettlesIff | src/runtime.ts:123-128 | a successful ask makes log, history and conversation equal if and only if the log showed the history and everything it logs is loggable |
| SessionRuntime.RewriteDuringAskIff | src/runtime.ts:123-147 | when a reset or compaction comes during an ask, the ask settles if and only if the rewriting changed nothing: it replaced one entry, a summary with the same text |
| SessionRuntime.PromptAgreementIff | src/runtime.ts:139-147 | after opening, reset or compact, the next successful ask agrees if and only if there is no system prompt, the history was empty, or it began with the prompt |
| SessionRuntime.PromptRepeatsLast | src/runtime.ts:123-126 | otherwise the last message of the history is logged a second time |
| SessionRuntime.RunNamed | src/agent.ts:266-318 | if every call the model asks for has an id and a name, everything the run adds is loggable, however it ends |
| SessionRuntime.TonySession.constructor | src/runtime.ts:100-118 | opening a session sets history to what the log derives, and the conversation to it behind the prompt |
| SessionRuntime.TonySession.PersistMessages | src/runtime.ts:177-196 | the log gains what is logged for the messages from `previousLength` on, and no other session changes |
| SessionRuntime.TonySession.EndAsk | src/runtime.ts:123-128 | the part of an ask after its run has begun: a throw leaves log and history alone though the conversation grew; a success makes the history the conversation and logs what lies beyond the old history, whatever the log is by then |
| SessionRuntime.TonySession.Ask | src/runtime.ts:123-128 | the same in one piece; an ask during another throws and changes nothing |
| SessionRuntime.TonySession.Reset | src/runtime.ts:130-136 | summary and last entry remain; history and conversation follow, unless the agent is running: then the log is rewritten and the call throws |
| SessionRuntime.TonySession.Compact | src/runtime.ts:139-147 | summary and the last entries remain, with the same effect on history and conversation |
| SessionRuntime.TonySession.Step | src/runtime.ts:123-147 | without a system prompt: an end of an ask settles if and only if log and history agreed and what is logged is loggable; a reset or compaction settles, or, during an ask, rewrites the log and throws; a failure leaves the history alone |
| SessionRuntime.TonySession.Perform | src/runtime.ts:123-147 | over every sequence of operations, with resets and compactions during asks and asks that throw midway: the conversation extends the history; agreement holds if no reset or compaction overlapped an ask and no call lacked an id or name; a reset or compaction of an idle session settles in any case |
| HarnessLoop.HarnessAgent.ExecuteSingle | src/harness/agent.ts:316-355 | exactly one message is pushed, a result for the call's id: an error for an unknown tool, or a risky one without a provider or refused; else what the tool returned or raised; nothing is pushed when the approval, its JSON arguments or a hook throw |
| HarnessLoop.HarnessAgent.ExecuteSequential | src/harness/agent.ts:286-289 | the results of the calls in order, up to the first one not started after an abort, or that throws |
| HarnessLoop.HarnessAgent.ExecuteParallel | src/harness/agent.ts:357-359 | the results of all calls that do not throw, in the order they finish |
| HarnessLoop.HarnessAgent.AnswerCalls | src/harness/agent.ts:250-290 | a truncated reply gets one error for its first call; past the budget the calls left over are answered first, each with an error, and as many as fit are started; else all are |
| HarnessLoop.HarnessAgent.Respond | src/harness/agent.ts:244-290 | a reply with text leaves an assistant message with its text, calls, usage and stop reason, and then the answers; one without text leaves only these |
| HarnessLoop.HarnessAgent.TakeTurn | src/harness/agent.ts:203-296 | the messages a turn adds, the queue it leaves, and how it ends the run, which `EndMeans` spells out |
| HarnessLoop.EndMeans | src/harness/agent.ts:250-296 | a turn goes on exactly when the model replied without abort, truncation, overflow or throw, and called tools, or left something queued and was not told to stop; otherwise it ends for its own reason |
| HarnessLoop.PlayTold | src/harness/agent.ts:198-296 | in every run each turn meets its part of the script with the rest of the budget and takes all that is queued, or the first of it; all but the last go on, and the last ends for its reason |
| HarnessLoop.HarnessAgent.Run | src/harness/agent.ts:177-301 | the user input and everything steered, in order, is what the transcript's user messages say followed by what is left in the queue; every turn but the last goes on, the last ends for its reason, and done leaves the queue empty unless told to stop; transcript, last text, abort flag, turn counter (one past the limit when turns run out) and call counter are those of the one run its inputs determine |
| HarnessTheorems.TurnsBound | src/harness/agent.ts:198-200 | the model is called at most `maxTurns` times |
| HarnessTheorems.CallsBound | src/harness/agent.ts:257-281 | no run starts more calls than a non-negative budget |
| HarnessTheorems.BudgetKeptIffNotNegative | src/harness/agent.ts:258-263 | every run keeps the budget if and only if it is not negative; `slice` counts a negative end from the back |
| HarnessTheorems.ArrangePermutes | src/harness/agent.ts:357-359 | any finishing order pushes the same messages |
| HarnessTheorems.AnswersMatchCallsIff | src/harness/agent.ts:250-290 | a turn answers exactly its calls, as multisets of ids, in both modes and across the budget's overflow, if and only if it was not truncated (or had one call), no call threw and no abort cut the batch; it answers none of them if and only if nothing was skipped and none finished |
| HarnessTheorems.TurnBalancedIff | src/harness/agent.ts:244-290 | any turn, aborted, truncated or thrown out of, leaves carried calls and results balanced if and only if it called no tools, or its reply had text and all calls were answered, or had none and no call was |
| HarnessTheorems.RunBalancedIffSpoken | src/harness/agent.ts:244-290 | in a run neither aborted nor truncated in which no call throws, every turn is balanced if and only if every reply with calls has text |
| HarnessTheorems.RunResendsUnchanged | src/harness/agent.ts:206-208 | the transcript of any run goes over the wire and back without changing what is sent |
| HarnessMessages.FromWire | src/harness/messages.ts:69-111 | the loop reads exactly the transcript of the wire messages; a tool result that does not parse is kept as one of an unknown call |
| HarnessMessages.ToWire | src/harness/messages.ts:113-151 | the loop writes exactly the wire form; it throws if and only if some tool result was the JSON value null |
| HarnessMessages.NormalizeWritesViews | src/harness/messages.ts:69-151 | reading and writing again depends only on what the messages tell the model, and writes the canonical message for each |
| HarnessMessages.NormalizeKeepsMeaning | src/harness/messages.ts:69-151 | it keeps user contents, joined text, calls, usage, stop reasons and tool results, in order, and is idempotent |
| HarnessMessages.SameNormalFormIffSameViews | src/harness/messages.ts:69-151 | two wire transcripts normalise alike if and only if they tell the model the same |
| HarnessMessages.TidyIffNormal | src/harness/messages.ts:123-131 | a part list is its own normal form if and only if it has at most one text part, first and not empty |
| HarnessMessages.ResendUnchangedIffTidy | src/harness/messages.ts:69-151 | resending a transcript read back gives the same wire messages if and only if its assistant messages are tidy |
| ColdResume.OnlyTalkIsResumed | src/subagent/registry.ts:82-88 | a subagent resumed from its log gets the user and assistant texts and nothing else |
| ColdResume.ResumeKeepsAllIffPlainTalk | src/subagent/registry.ts:82-88 | every message of the log comes back with its role, text and tool calls if and only if the log has only user and assistant entries without tool calls |
| ColdResume.ToolCallLost | src/subagent/registry.ts:82-88 | a log of one assistant entry with a tool call, which comes back without it |
| Framing.EncodeFrame | src/protocol/framing.ts:9-14 | four bytes that are the body's length, the most significant first, and the body; an error exactly for bodies of 4 GiB or more |
| Framing.HeaderReads | src/protocol/framing.ts:12 | the big-endian length reads back |
| Framing.FrameRoundTripIff | src/protocol/framing.ts:25-37 | a frame decodes to its message and the rest exactly when the body is within the cap, though larger ones can be encoded |
| Framing.PrefixWaits | src/protocol/framing.ts:26-32 | every proper prefix of a frame within the cap waits, with the buffer untouched |
| Framing.DecodeStable | src/protocol/framing.ts:17-24 | more bytes never change a decision already made, errors included |
| Framing.ChunkingIrrelevant | src/protocol/framing.ts:17-37 | feeding a byte stream in any chunks yields what decoding it at once does |
| Framing.StreamRoundTripIff | src/protocol/framing.ts:9-40 | a list of messages comes through every chunking exactly, nothing left over, if and only if every body is within the cap; otherwise the reader throws |
| Similarity.SumOfSquares | src/memory/adapter.ts:64-65 | the norm of a map |
| Similarity.SumOfProducts | src/memory/adapter.ts:69-72 | the dot product, iterating one map and looking up the other |
| Similarity.CosineSimilarity | src/memory/adapter.ts:60-74 | zero when a norm is zero, else the ratio of the dot product to the norms, whichever map is iterated |
| Similarity.DotSymmetric | src/memory/adapter.ts:67-72 | the dot product is symmetric: which map is iterated does not matter |
| Similarity.CauchySchwarz | src/memory/adapter.ts:60-74 | the inequality on the tokens of one map, with equality exactly in proportion |
| Similarity.ScoreBound | src/memory/adapter.ts:19-24 | the squared score is at most 1, and 1 if and only if the counts are proportional |
| Similarity.SelfScore | src/memory/adapter.ts:19-24 | a map scores 1 against itself |
| Similarity.TokenFrequencies | src/memory/adapter.ts:76-82 | the map counts exactly the occurrences of every token |
| EventPaging.OrderBySorts | src/query/engine.ts:439 | sorting keeps exactly the rows and puts them in order of score, equal ones of row id |
| EventPaging.WhereCursor | src/query/engine.ts:434-439 | filtering by the cursor before sorting is filtering the sorted list |
| EventPaging.AfterKey | src/query/engine.ts:434 | what lies past an element's key is what follows it |
| EventPaging.PageAt | src/query/engine.ts:430-489 | from the cursor after k matches a page holds the next `limit`, and hands out a cursor exactly when more follow |
| EventPaging.PagesCoverMatches | src/query/engine.ts:430-490 | following `nextCursor` concatenates to the hits of all matches of the session, or of all without one, each once, in order of score and row id, for every page size |
| EventPaging.SearchThrowsIff | src/query/engine.ts:485-488 | the search throws exactly for a negative limit, or for zero when something matches past the cursor |

## Left out

- SQLite, the file system, atomic renames, the session index file and its timestamps: stores are maps and sequences.
- Full-text matching, `bm25`, snippets: the matching rows and their scores are inputs; hits carry the body instead of a snippet.
- Live-shadow folding in `searchEvents`: it mixes row ids with scores, so no order is promised there.
- The hit-collection stage after the breadth-first expansion, and the session-scoped query of `searchGraphLocal`.
- `traceEvent`: a walk within one log that adds nothing to `Lineage`.
- `JSON.parse`, `JSON.stringify` and CBOR: functions of which only the inverse law, or that surrounding white space is ignored, is used.
- UTF-8 decoding of the event stream: chunks are text.
- Tool-call extraction from free text beyond the scanner, and the merging of tool-call deltas: the event readers are proved for any accumulator.
- Real time and UUIDs: timers are steps, ids come from a counter. Disposers that remove one middleware are not modelled.
- Event emission, callbacks that throw, usage totals, graph recall, and `compactMessages`: they shape what is shown or sent, not what is kept.
- Permission grants remembered across calls: the policy's answer is an input for each call.
- Concurrent calls on one session within the store: resets and compactions come before an ask, during its run or after it, but not between the appends that log it.
- Renaming, deleting and listing sessions, lanes, export, and malformed lines in a session file.
- The cache of open sessions in the runtime, and closing a session.
- A second `run` of the harness while one is active, and summaries in its transcript. When a call of a parallel batch throws, the run rejects at once; the transcript is stated for when the rest of the batch has finished.
- Rounding of the similarity score: it is kept as the exact ratio of a count to two square roots. In floating point it can exceed the documented 1 (src/memory/adapter.ts:22), as for three distinct tokens against themselves, 3 / (√3 · √3). Tokenising is an input.
- The memory store's filters, thresholds and ranking.
- The workflow engine's routes, compiled scripts and worker sandbox; prompts built for plan agents.
- FireTimer: stated for a waiting dispose only, because the timer is cleared once the dispose has returned.
- Inherited: an empty entry id counts as absent in the original; ids here are numbers, so the case does not arise.
