// The harness agent's loop: turn and tool budgets, sequential or parallel batches, and the transcript it writes.
module HarnessLoop {
  import opened Text
  import opened SessionStore
  import opened HarnessMessages

  datatype Limits = Limits(maxTurns: int, maxToolCalls: int)

  datatype Mode = Sequential | Parallel

  // ---- the world ----

  /** What the approval seam says. It fails when the provider throws, or when the call's JSON arguments, which are parsed
      only to ask it, do not parse. */
  datatype Approval = NoProvider | Granted | Refused | Fails

  datatype Execution = Returned(content: string, isError: Option<bool>) | Raised(error: string)

  /** How one call fares in `executeSingle`; `hookThrows` is for the hooks around the tool. */
  datatype Fate = Fate(visible: bool, risky: bool, approval: Approval, execution: Execution, hookThrows: bool) {
    predicate Denied() { risky && (approval.NoProvider? || approval.Refused?) }

    /** The call throws, and no result is pushed for it. */
    predicate Throws() { visible && !Denied() && ((risky && approval.Fails?) || hookThrows) }
  }

  datatype Reply = Reply(text: string, toolCalls: seq<ToolCall>, usage: Option<Usage>, stopReason: Option<string>)

  /** One turn of the world. `steered` is queued while the turn runs, `reply` is missing when the model call throws,
      `picks` says which pending call of a parallel batch finishes next, and `abortAt` says how many calls of a
      sequential batch were started when the run was aborted. */
  datatype TurnScript = TurnScript(steered: seq<string>, reply: Option<Reply>, fates: seq<Fate>, picks: seq<nat>,
                                   abortAt: Option<nat>, stopAfter: bool)

  /** Where the script ends, the model call throws. */
  const SILENCE := TurnScript([], None, [], [], None, false)

  const UNKNOWN := Fate(false, false, NoProvider, Raised(""), false)

  // ---- the answers of one turn ----

  function ToolResult(call: ToolCall, content: string, isError: Option<bool>): AgentMessage {
    var flag := if isError.None? then None else Some(Other(if isError.value then "true" else "false"));
    ToolResultMessage(Some(Payload(Some(Str(call.id)), Some(Str(call.name)), Some(Str(content)), flag)))
  }

  function ResultOf(call: ToolCall, fate: Fate): AgentMessage {
    if !fate.visible then ToolResult(call, "Unknown tool: " + call.name, Some(true))
    else if fate.Denied() then ToolResult(call, "Permission denied for tool " + call.name + ".", Some(true))
    else match fate.execution
      case Returned(content, isError) => ToolResult(call, content, isError)
      case Raised(error) => ToolResult(call, "Tool error: " + error, Some(true))
  }

  function FateAt(fates: seq<Fate>, i: nat): Fate { if i < |fates| then fates[i] else UNKNOWN }

  /** What one call pushes onto the transcript. */
  function Pushed(call: ToolCall, fate: Fate): seq<AgentMessage> { if fate.Throws() then [] else [ResultOf(call, fate)] }

  function Slots(calls: seq<ToolCall>, fates: seq<Fate>): (slots: seq<seq<AgentMessage>>)
    ensures |slots| == |calls|
  {
    seq(|calls|, i requires 0 <= i < |calls| => Pushed(calls[i], FateAt(fates, i)))
  }

  function Flat<T>(slots: seq<seq<T>>): seq<T> {
    if slots == [] then [] else Flat(slots[..|slots| - 1]) + slots[|slots| - 1]
  }

  /** The items in the order the picks take them; every order is reached by some picks. */
  function Arrange<T>(items: seq<T>, picks: seq<nat>): seq<T>
    decreases |items|
  {
    if items == [] then []
    else
      var i := PickIndex(|items|, picks);
      [items[i]] + Arrange(items[..i] + items[i + 1..], if picks == [] then [] else picks[1..])
  }

  function PickIndex(n: nat, picks: seq<nat>): (i: nat)
    requires n > 0
    ensures i < n
  {
    if picks == [] then 0 else picks[0] % n
  }

  /** A sequential batch does not get past call `i`: the run is aborted before it, or it throws. */
  predicate Halts(world: TurnScript, i: nat) { AbortedBefore(world, i) || FateAt(world.fates, i).Throws() }

  predicate AbortedBefore(world: TurnScript, i: nat) { world.abortAt.Some? && i >= world.abortAt.value }

  /** How many of the calls from `i` to `n` a sequential batch completes, counted from the start. */
  function ReachFrom(i: nat, n: nat, world: TurnScript): (r: nat)
    requires i <= n
    ensures i <= r <= n
    decreases n - i
  {
    if i == n || Halts(world, i) then i else ReachFrom(i + 1, n, world)
  }

  function Reach(n: nat, world: TurnScript): (r: nat)
    ensures r <= n
  {
    ReachFrom(0, n, world)
  }

  /** What a batch pushes; in parallel the other calls go on when one throws. */
  function Batch(mode: Mode, calls: seq<ToolCall>, world: TurnScript): seq<AgentMessage> {
    match mode
    case Parallel => Flat(Arrange(Slots(calls, world.fates), world.picks))
    case Sequential => Flat(Slots(calls[..Reach(|calls|, world)], world.fates))
  }

  /** One of the first `n` calls throws. */
  predicate SomeThrows(fates: seq<Fate>, n: nat) { n > 0 && (SomeThrows(fates, n - 1) || FateAt(fates, n - 1).Throws()) }

  predicate BatchThrows(mode: Mode, calls: seq<ToolCall>, world: TurnScript) {
    match mode
    case Parallel => SomeThrows(world.fates, |calls|)
    case Sequential => var r := Reach(|calls|, world); r < |calls| && !AbortedBefore(world, r)
  }

  /** Where `slice(0, left)` ends and `slice(left)` starts in a list of `n`; a negative `left` counts from the end. */
  function Cut(n: nat, left: int): (c: nat)
    ensures c <= n
  {
    if left >= 0 then (if left < n then left else n) else if n + left > 0 then n + left else 0
  }

  function Truncated(call: ToolCall): AgentMessage {
    ToolResult(call, "Tool call truncated (length stop). Not executed.", Some(true))
  }

  function Skipped(calls: seq<ToolCall>): (r: seq<AgentMessage>)
    ensures |r| == |calls|
  {
    seq(|calls|, i requires 0 <= i < |calls| => ToolResult(calls[i], "Tool call not executed: max tool calls reached.", Some(true)))
  }

  predicate LengthStopped(reply: Reply) { reply.toolCalls != [] && reply.stopReason == Some("length") }

  /** The calls handed to `executeSingle` in a turn with `left` calls of budget. */
  function ToExecute(reply: Reply, left: int): seq<ToolCall> {
    if LengthStopped(reply) then [] else reply.toolCalls[..Cut(|reply.toolCalls|, left)]
  }

  function Answers(mode: Mode, left: int, reply: Reply, world: TurnScript): seq<AgentMessage> {
    if LengthStopped(reply) then [Truncated(reply.toolCalls[0])]
    else Skipped(reply.toolCalls[Cut(|reply.toolCalls|, left)..]) + Batch(mode, ToExecute(reply, left), world)
  }

  // ---- whole runs ----

  datatype Ending = NoTurnsLeft | Aborted | LengthStop | BudgetStop | Done | Rejected

  /** A turn: what it drained from the queue, the budget it had, and the world it met. */
  datatype TurnLog = TurnLog(drained: seq<string>, left: int, world: TurnScript)

  datatype Outcome = Outcome(logs: seq<TurnLog>, ending: Ending)

  function Users(texts: seq<string>): seq<AgentMessage> {
    seq(|texts|, i requires 0 <= i < |texts| => UserMessage(Plain(texts[i])))
  }

  function AssistantOf(reply: Reply): AgentMessage {
    AssistantMessage(Parts([TextPart(reply.text)]), Some(reply.toolCalls), reply.usage, reply.stopReason)
  }

  /** What a turn adds to the transcript; a reply without text leaves no assistant message. */
  function TurnMessages(mode: Mode, log: TurnLog): seq<AgentMessage> {
    Users(log.drained) +
    if log.world.reply.None? then [] else ReplyMessages(mode, log.left, log.world.reply.value, log.world)
  }

  function ReplyMessages(mode: Mode, left: int, reply: Reply, world: TurnScript): seq<AgentMessage> {
    (if reply.text == "" then [] else [AssistantOf(reply)]) + Answers(mode, left, reply, world)
  }

  function RunMessages(mode: Mode, logs: seq<TurnLog>): seq<AgentMessage> {
    if logs == [] then [] else RunMessages(mode, logs[..|logs| - 1]) + TurnMessages(mode, logs[|logs| - 1])
  }

  /** How the calls of a reply end the run, if they do. */
  function CallsEnd(mode: Mode, left: int, reply: Reply, world: TurnScript): Option<Ending> {
    if LengthStopped(reply) then Some(LengthStop)
    else if BatchThrows(mode, ToExecute(reply, left), world) then Some(Rejected)
    else if reply.toolCalls != [] && |reply.toolCalls| > left then Some(BudgetStop)
    else None
  }

  /** How a turn ends the run, if it does; `queue` is what is still pending. */
  function TurnEnd(mode: Mode, left: int, queue: seq<string>, world: TurnScript): Option<Ending> {
    match world.reply
    case None => Some(Rejected)
    case Some(reply) =>
      if CallsEnd(mode, left, reply, world).Some? then CallsEnd(mode, left, reply, world)
      else if reply.toolCalls == [] && (world.stopAfter || queue == []) then Some(Done)
      else if world.abortAt.Some? then Some(Aborted)
      else None
  }

  function Drained(queue: seq<string>, all: bool): seq<string> { if all || queue == [] then queue else queue[..1] }

  function Pending(queue: seq<string>, all: bool, world: TurnScript): seq<string> {
    queue[|Drained(queue, all)|..] + world.steered
  }

  function CallCount(world: TurnScript): nat { if world.reply.Some? then |world.reply.value.toolCalls| else 0 }

  function Started(left: int, world: TurnScript): nat { if world.reply.Some? then |ToExecute(world.reply.value, left)| else 0 }

  function StartedIn(logs: seq<TurnLog>): nat {
    if logs == [] then 0 else StartedIn(logs[..|logs| - 1]) + Started(logs[|logs| - 1].left, logs[|logs| - 1].world)
  }

  function Turns(limits: Limits): nat { if limits.maxTurns > 0 then limits.maxTurns else 0 }

  /** The run from some point on: `turns` turns and `left` tool calls remain. */
  function Play(mode: Mode, all: bool, turns: nat, left: int, queue: seq<string>, script: seq<TurnScript>): Outcome
    decreases turns
  {
    if turns == 0 then Outcome([], NoTurnsLeft)
    else
      var world := Next(script);
      var log := TurnLog(Drained(queue, all), left, world);
      var pending := Pending(queue, all, world);
      var end := TurnEnd(mode, left, pending, world);
      if end.Some? then Outcome([log], end.value)
      else
        var rest := Play(mode, all, turns - 1, left - CallCount(world), pending, Tail(script));
        Outcome([log] + rest.logs, rest.ending)
  }

  function Next(script: seq<TurnScript>): TurnScript { if script == [] then SILENCE else script[0] }

  function Tail<T>(s: seq<T>): seq<T> { if s == [] then [] else s[1..] }

  /** Behind the turns already logged, the rest of the run plays from this state. */
  ghost predicate LeadsTo(whole: Outcome, logs: seq<TurnLog>, mode: Mode, all: bool, turns: nat, left: int, queue: seq<string>,
                          script: seq<TurnScript>)
    decreases |logs|
  {
    if logs == [] then whole == Play(mode, all, turns, left, queue, script)
    else whole.logs != [] && whole.logs[0] == logs[0]
         && LeadsTo(Outcome(whole.logs[1..], whole.ending), logs[1..], mode, all, turns, left, queue, script)
  }

  /** The transcript grew by exactly the messages of these turns, and the counter by the calls they started. */
  ghost predicate Wrote(mode: Mode, start: seq<AgentMessage>, logs: seq<TurnLog>, transcript: seq<AgentMessage>, toolCalls: int) {
    transcript == start + RunMessages(mode, logs) && toolCalls == StartedIn(logs)
  }

  /** The last text the model said, and whether the run was aborted in its last turn. */
  ghost predicate Reports(logs: seq<TurnLog>, text: string, aborted: bool) {
    text == LastSaid(logs) && aborted == (logs != [] && logs[|logs| - 1].world.abortAt.Some?)
  }

  function Said(world: TurnScript): string { if world.reply.Some? then world.reply.value.text else "" }

  function LastSaid(logs: seq<TurnLog>): string {
    if logs == [] then "" else Latest(Said(logs[|logs| - 1].world), LastSaid(logs[..|logs| - 1]))
  }

  function Latest(said: string, before: string): string { if said != "" then said else before }

  // ---- when a run goes on, and what becomes of what users say ----

  /** The model replied, the run was not aborted, the reply was not truncated and within the budget, none of its calls
      throws; and it called tools, or something is waiting and the run was not told to stop. */
  predicate GoesOn(log: TurnLog, waiting: bool) {
    && log.world.reply.Some? && log.world.abortAt.None?
    && var reply := log.world.reply.value;
       && (reply.toolCalls != [] ==> reply.stopReason != Some("length") && |reply.toolCalls| <= log.left)
       && NoneThrows(log.world.fates, |reply.toolCalls|)
       && (reply.toolCalls == [] ==> waiting && !log.world.stopAfter)
  }

  predicate NoneThrows(fates: seq<Fate>, n: nat) { forall i :: 0 <= i < n ==> !FateAt(fates, i).Throws() }

  /** Why a turn ended the run. */
  predicate Because(ending: Ending, log: TurnLog, waiting: bool) {
    if log.world.reply.None? then ending == Rejected
    else
      var reply, calls := log.world.reply.value, log.world.reply.value.toolCalls;
      match ending
      case NoTurnsLeft => false
      case Done => calls == [] && (log.world.stopAfter || !waiting)
      case LengthStop => calls != [] && reply.stopReason == Some("length")
      case BudgetStop => calls != [] && |calls| > log.left
      case Rejected => !NoneThrows(log.world.fates, |calls|)
      case Aborted => log.world.abortAt.Some?
  }

  function SteeredIn(logs: seq<TurnLog>): seq<string> {
    if logs == [] then [] else SteeredIn(logs[..|logs| - 1]) + logs[|logs| - 1].world.steered
  }

  function DrainedIn(logs: seq<TurnLog>): seq<string> {
    if logs == [] then [] else DrainedIn(logs[..|logs| - 1]) + logs[|logs| - 1].drained
  }

  function CallsAsked(logs: seq<TurnLog>): nat {
    if logs == [] then 0 else CallsAsked(logs[..|logs| - 1]) + CallCount(logs[|logs| - 1].world)
  }

  /** Something said so far has not been put into the transcript. */
  predicate Waiting(first: seq<string>, logs: seq<TurnLog>) { |DrainedIn(logs)| < |first| + |SteeredIn(logs)| }

  /** Turn `k` met its part of the script with the rest of the budget, and took everything waiting, or the first of it. */
  ghost predicate Met(all: bool, first: seq<string>, max: int, script: seq<TurnScript>, logs: seq<TurnLog>, k: nat)
    requires k < |logs|
  {
    var before, log := logs[..k], logs[k];
    && log.world == (if k < |script| then script[k] else SILENCE) && log.left == max - CallsAsked(before)
    && DrainedIn(before) + log.drained <= first + SteeredIn(before)
    && (if all then DrainedIn(before) + log.drained == first + SteeredIn(before)
        else |log.drained| == if Waiting(first, before) then 1 else 0)
  }

  /** Nothing said is lost, doubled or reordered: it was put into the transcript in order, or is in the queue. */
  predicate Kept(first: seq<string>, logs: seq<TurnLog>, queue: seq<string>) {
    first + SteeredIn(logs) == DrainedIn(logs) + queue
  }

  /** The texts of the user messages, in order. */
  function UserTexts(messages: seq<AgentMessage>): seq<string> {
    if messages == [] then []
    else
      var m := messages[0];
      (if m.UserMessage? && m.content.Plain? then [m.content.text] else []) + UserTexts(messages[1..])
  }

  // ---- the agent ----

  datatype RunOutcome = RunOutcome(text: string, toolCalls: int, turns: nat, aborted: bool)

  class HarnessAgent {
    const limits: Limits
    const mode: Mode
    var transcript: seq<AgentMessage>
    var pendingQueue: seq<string>

    constructor (limits: Limits, mode: Mode)
      ensures this.limits == limits && this.mode == mode && transcript == [] && pendingQueue == []
    {
      this.limits, this.mode := limits, mode;
      transcript, pendingQueue := [], [];
    }

    /** Pushes one result that answers the call, unless it throws: an error for an unknown tool and for a risky one without
        a grant, else what the tool returned or raised. */
    method ExecuteSingle(call: ToolCall, fate: Fate) returns (ok: bool)
      modifies this`transcript
      ensures ok == !fate.Throws() && transcript == old(transcript) + Pushed(call, fate)
      ensures !ok <==>
              && fate.visible && !(fate.risky && fate.approval in {NoProvider, Refused})
              && ((fate.risky && fate.approval == Fails) || fate.hookThrows)
      ensures !ok ==> transcript == old(transcript)
      ensures ok ==> |transcript| == |old(transcript)| + 1 && AnswersId(transcript[|old(transcript)|], call.id)
      ensures ok && !fate.visible ==>
                IsErrorResult(transcript[|old(transcript)|]) && ResultContent(transcript[|old(transcript)|]) == "Unknown tool: " + call.name
      ensures ok && fate.visible && fate.risky && fate.approval in {NoProvider, Refused} ==>
                IsErrorResult(transcript[|old(transcript)|]) &&
                ResultContent(transcript[|old(transcript)|]) == "Permission denied for tool " + call.name + "."
      ensures ok && fate.visible && (fate.risky ==> fate.approval == Granted) && fate.execution.Returned? ==>
                ResultContent(transcript[|old(transcript)|]) == fate.execution.content &&
                (IsErrorResult(transcript[|old(transcript)|]) <==> fate.execution.isError == Some(true))
      ensures ok && fate.visible && (fate.risky ==> fate.approval == Granted) && fate.execution.Raised? ==>
                IsErrorResult(transcript[|old(transcript)|]) &&
                ResultContent(transcript[|old(transcript)|]) == "Tool error: " + fate.execution.error
    {
      if !fate.visible {
        transcript := transcript + [ToolResult(call, "Unknown tool: " + call.name, Some(true))];
        return true;
      }
      if fate.risky {
        if fate.approval.Fails? { return false; }
        if !fate.approval.Granted? {
          transcript := transcript + [ToolResult(call, "Permission denied for tool " + call.name + ".", Some(true))];
          return true;
        }
      }
      var result := match fate.execution
        case Returned(content, isError) => ToolResult(call, content, isError)
        case Raised(error) => ToolResult(call, "Tool error: " + error, Some(true));
      if fate.hookThrows { return false; }
      transcript := transcript + [result];
      return true;
    }

    /** The batch stops at an abort, and at a call that throws. */
    method ExecuteSequential(calls: seq<ToolCall>, world: TurnScript) returns (ok: bool)
      modifies this`transcript
      ensures transcript == old(transcript) + Batch(Sequential, calls, world) && ok == !BatchThrows(Sequential, calls, world)
      ensures StoppedAt(calls, world, transcript[|old(transcript)|..], ok)
    {
      var i := 0;
      ok := true;
      while i < |calls| && !AbortedBefore(world, i)
        invariant 0 <= i <= |calls| && ok && forall j :: 0 <= j < i ==> !Halts(world, j)
        invariant transcript == old(transcript) + Flat(Slots(calls[..i], world.fates))
      {
        SlotsStep(calls, world.fates, i, old(transcript));
        ok := ExecuteSingle(calls[i], FateAt(world.fates, i));
        if !ok { break; }
        i := i + 1;
      }
      ReachIs(0, |calls|, world, i);
      StopsThere(calls, world, i, transcript[|old(transcript)|..], ok);
    }

    /** The calls of a parallel batch push their results as they finish; one that throws does not stop the others. */
    method ExecuteParallel(calls: seq<ToolCall>, world: TurnScript) returns (ok: bool)
      modifies this`transcript
      ensures transcript == old(transcript) + Batch(Parallel, calls, world) && ok == !BatchThrows(Parallel, calls, world)
    {
      var pending := seq(|calls|, i requires 0 <= i < |calls| => (calls[i], FateAt(world.fates, i)));
      var picks := world.picks;
      ok := true;
      assert Finish(pending) == Slots(calls, world.fates);
      PendingThrows(calls, world.fates, pending);
      while pending != []
        invariant transcript + Flat(Arrange(Finish(pending), picks)) == old(transcript) + Batch(Parallel, calls, world)
        invariant (!ok || AnyThrows(pending)) == BatchThrows(Parallel, calls, world)
        decreases |pending|
      {
        var i := PickIndex(|pending|, picks);
        var rest, later := pending[..i] + pending[i + 1..], if picks == [] then [] else picks[1..];
        FinishNext(pending, rest, picks, later, transcript);
        AnyThrowsWithout(pending, i);
        var pushed := ExecuteSingle(pending[i].0, pending[i].1);
        ok, pending, picks := ok && pushed, rest, later;
      }
    }

    method ExecuteBatch(calls: seq<ToolCall>, world: TurnScript) returns (ok: bool)
      modifies this`transcript
      ensures transcript == old(transcript) + Batch(mode, calls, world) && ok == !BatchThrows(mode, calls, world)
    {
      if mode.Parallel? { ok := ExecuteParallel(calls, world); } else { ok := ExecuteSequential(calls, world); }
    }

    method AnswerRestAndExecute(calls: seq<ToolCall>, cut: nat, world: TurnScript) returns (ok: bool)
      requires cut <= |calls|
      modifies this`transcript
      ensures transcript == old(transcript) + (Skipped(calls[cut..]) + Batch(mode, calls[..cut], world))
      ensures ok == !BatchThrows(mode, calls[..cut], world)
    {
      ghost var before := transcript;
      transcript := transcript + Skipped(calls[cut..]);
      ok := ExecuteBatch(calls[..cut], world);
      Associative(before, Skipped(calls[cut..]), Batch(mode, calls[..cut], world));
    }

    /** Answers the calls of a reply; `stop` is set when that ends the run. */
    method AnswerCalls(reply: Reply, left: int, world: TurnScript) returns (stop: Option<Ending>, started: nat)
      modifies this`transcript
      ensures transcript == old(transcript) + Answers(mode, left, reply, world)
      ensures started == |ToExecute(reply, left)| && stop == CallsEnd(mode, left, reply, world)
      ensures !LengthStopped(reply) && 0 <= left < |reply.toolCalls| ==>
                started == left && OverflowTold(reply.toolCalls[left..], transcript[|old(transcript)|..])
      ensures reply.toolCalls != [] && reply.stopReason == Some("length") ==>
                && started == 0 && stop == Some(LengthStop) && |transcript| == |old(transcript)| + 1
                && AnswersId(transcript[|old(transcript)|], reply.toolCalls[0].id) && IsErrorResult(transcript[|old(transcript)|])
                && ResultContent(transcript[|old(transcript)|]) == "Tool call truncated (length stop). Not executed."
    {
      var calls := reply.toolCalls;
      AnswerCases(mode, left, reply, world);
      if |calls| == 0 { return None, 0; }
      if reply.stopReason == Some("length") {
        transcript := transcript + [Truncated(calls[0])];
        return Some(LengthStop), 0;
      }
      var ok;
      if |calls| > left {
        ok := AnswerRestAndExecute(calls, Cut(|calls|, left), world);
        return Some(if ok then BudgetStop else Rejected), Cut(|calls|, left);
      }
      ok := ExecuteBatch(calls, world);
      return if ok then None else Some(Rejected), |calls|;
    }

    /** The part of a turn after the model replied. */
    method Respond(reply: Reply, left: int, world: TurnScript) returns (stop: Option<Ending>, started: nat)
      modifies this`transcript
      ensures transcript == old(transcript) + ReplyMessages(mode, left, reply, world)
      ensures reply.text != "" ==> |transcript| > |old(transcript)|
      ensures reply.text != "" ==>
                transcript[|old(transcript)|] ==
                AssistantMessage(Parts([TextPart(reply.text)]), Some(reply.toolCalls), reply.usage, reply.stopReason)
      ensures started == |ToExecute(reply, left)| && stop == CallsEnd(mode, left, reply, world)
    {
      ghost var before := transcript;
      if reply.text != "" { transcript := transcript + [AssistantOf(reply)]; }
      stop, started := AnswerCalls(reply, left, world);
      Associative(before, if reply.text == "" then [] else [AssistantOf(reply)], Answers(mode, left, reply, world));
    }

    /** One turn, from draining the queue on. */
    method TakeTurn(all: bool, left: int, world: TurnScript, ghost log: TurnLog)
      returns (end: Option<Ending>, started: nat, text: string)
      requires log == TurnLog(Drained(pendingQueue, all), left, world)
      modifies this
      ensures transcript == old(transcript) + TurnMessages(mode, log)
      ensures pendingQueue == Pending(old(pendingQueue), all, world) && end == TurnEnd(mode, left, pendingQueue, world)
      ensures started == Started(left, world)
      ensures end.None? ==> started == CallCount(world)
      ensures text == Said(world) && (end.None? ==> world.abortAt.None?)
    {
      ghost var before := transcript;
      Drain(all, world.steered);
      if world.reply.None? { return Some(Rejected), 0, ""; }
      var reply := world.reply.value;
      text := reply.text;
      end, started := Respond(reply, left, world);
      Associative(before, Users(log.drained), ReplyMessages(mode, left, reply, world));
      if end.None? {
        if |reply.toolCalls| == 0 && (world.stopAfter || |pendingQueue| == 0) {
          end := Some(Done);
        } else if world.abortAt.Some? {
          end := Some(Aborted);
        }
        ContinuesInFull(mode, left, reply, world);
      }
    }

    /** Moves the queue, or its first entry, into the transcript; more can be queued while the turn runs. */
    method Drain(all: bool, steered: seq<string>)
      modifies this
      ensures transcript == old(transcript) + Users(Drained(old(pendingQueue), all))
      ensures pendingQueue == old(pendingQueue)[|Drained(old(pendingQueue), all)|..] + steered
    {
      var toProcess := if all || pendingQueue == [] then pendingQueue else pendingQueue[..1];
      transcript := transcript + Users(toProcess);
      pendingQueue := pendingQueue[|toProcess|..] + steered;
    }

    /** One pass of the loop, with its bookkeeping. */
    method Advance(all: bool, ghost remaining: nat, ghost budget: int, toolCalls: int, ahead: seq<TurnScript>, text: string,
                   ghost start: seq<AgentMessage>, ghost logs: seq<TurnLog>, ghost whole: Outcome, ghost first: seq<string>)
      returns (end: Option<Ending>, toolCalls': int, ahead': seq<TurnScript>, text': string, aborted: bool,
               ghost logs': seq<TurnLog>, ghost remaining': nat, ghost budget': int)
      requires remaining > 0 && budget == limits.maxToolCalls - toolCalls
      requires Wrote(mode, start, logs, transcript, toolCalls) && Kept(first, logs, pendingQueue)
      requires LeadsTo(whole, logs, mode, all, remaining, budget, pendingQueue, ahead)
      requires Reports(logs, text, false)
      modifies this
      ensures |logs'| == |logs| + 1 && remaining' == remaining - 1 && Reports(logs', text', aborted)
      ensures Wrote(mode, start, logs', transcript, toolCalls') && Kept(first, logs', pendingQueue)
      ensures end.None? ==> !aborted && budget' == limits.maxToolCalls - toolCalls'
      ensures end.None? ==> LeadsTo(whole, logs', mode, all, remaining', budget', pendingQueue, ahead')
      ensures end.Some? ==> whole.logs == logs' && !whole.ending.NoTurnsLeft?
    {
      var world, started, said := Next(ahead), 0, "";
      ghost var log, next;
      log, next, logs' := NextTurn(whole, start, first, logs, mode, all, remaining, budget, toolCalls, ahead, transcript, pendingQueue);
      ReportsStep(logs, text, log);
      end, started, said := TakeTurn(all, limits.maxToolCalls - toolCalls, world, log);
      text', aborted, toolCalls', ahead' := Latest(said, text), world.abortAt.Some?, toolCalls + started, Tail(ahead);
      remaining', budget' := remaining - 1, budget - CallCount(log.world);
    }

    method Loop(all: bool, script: seq<TurnScript>) returns (r: RunOutcome, ghost outcome: Outcome)
      modifies this
      ensures outcome == Play(mode, all, Turns(limits), limits.maxToolCalls, old(pendingQueue), script)
      ensures Wrote(mode, old(transcript), outcome.logs, transcript, r.toolCalls) && Reports(outcome.logs, r.text, r.aborted)
      ensures !outcome.ending.Rejected? ==> r.turns == |outcome.logs| + if outcome.ending.NoTurnsLeft? then 1 else 0
      ensures Kept(old(pendingQueue), outcome.logs, pendingQueue)
    {
      var turns: nat, toolCalls, ahead, text := 0, 0, script, "";
      ghost var logs: seq<TurnLog>, remaining: nat, budget := [], Turns(limits), limits.maxToolCalls;
      outcome := Play(mode, all, remaining, limits.maxToolCalls, pendingQueue, script);
      while true
        invariant turns == |logs| && turns + remaining == Turns(limits) && Reports(logs, text, false)
        invariant budget == limits.maxToolCalls - toolCalls
        invariant Wrote(mode, old(transcript), logs, transcript, toolCalls) && Kept(old(pendingQueue), logs, pendingQueue)
        invariant LeadsTo(outcome, logs, mode, all, remaining, budget, pendingQueue, ahead)
        decreases remaining
      {
        turns := turns + 1;
        if turns > limits.maxTurns {
          PlayOut(outcome, logs, mode, all, remaining, budget, pendingQueue, ahead);
          return RunOutcome(text, toolCalls, turns, false), outcome;
        }
        var end, aborted;
        end, toolCalls, ahead, text, aborted, logs, remaining, budget :=
          Advance(all, remaining, budget, toolCalls, ahead, text, old(transcript), logs, outcome, old(pendingQueue));
        if end.Some? {
          return RunOutcome(text, toolCalls, turns, aborted), outcome;
        }
      }
    }

    method Run(userInput: string, all: bool, script: seq<TurnScript>) returns (r: RunOutcome, ghost outcome: Outcome)
      modifies this
      ensures outcome == Play(mode, all, Turns(limits), limits.maxToolCalls, [userInput], script)
      ensures Wrote(mode, old(transcript), outcome.logs, transcript, r.toolCalls) && Reports(outcome.logs, r.text, r.aborted)
      ensures !outcome.ending.Rejected? ==> r.turns == |outcome.logs| + if outcome.ending.NoTurnsLeft? then 1 else 0
      ensures forall k :: 0 <= k < |outcome.logs| ==> Met(all, [userInput], limits.maxToolCalls, script, outcome.logs, k)
      ensures [userInput] + SteeredIn(outcome.logs) == UserTexts(transcript[|old(transcript)|..]) + pendingQueue
      ensures UserTexts(transcript[|old(transcript)|..]) == DrainedIn(outcome.logs)
      ensures forall k :: 0 <= k < |outcome.logs| - 1 ==> GoesOn(outcome.logs[k], Waiting([userInput], outcome.logs[..k + 1]))
      ensures outcome.ending.NoTurnsLeft? ==> |outcome.logs| == if limits.maxTurns > 0 then limits.maxTurns else 0
      ensures !outcome.ending.NoTurnsLeft? ==> outcome.logs != []
      ensures outcome.logs != [] ==> (outcome.ending.NoTurnsLeft? <==> GoesOn(outcome.logs[|outcome.logs| - 1], pendingQueue != []))
      ensures !outcome.ending.NoTurnsLeft? ==> Because(outcome.ending, outcome.logs[|outcome.logs| - 1], pendingQueue != [])
    {
      pendingQueue := [userInput];
      r, outcome := Loop(all, script);
      WroteTexts(mode, old(transcript), outcome.logs, transcript, r.toolCalls);
      RunTold(mode, all, limits, userInput, script, outcome, pendingQueue);
    }
  }

  /** The results of a sequential batch: in order, up to the first call that was not started or that throws. */
  predicate StoppedAt(calls: seq<ToolCall>, world: TurnScript, results: seq<AgentMessage>, ok: bool) {
    var n := |results|;
    && n <= |calls| && (forall i :: 0 <= i < n ==> AnswersId(results[i], calls[i].id))
    && (forall i :: 0 <= i < n ==> !FateAt(world.fates, i).Throws() && (world.abortAt.Some? ==> i < world.abortAt.value))
    && (if n == |calls| || (world.abortAt.Some? && n >= world.abortAt.value) then ok else !ok && FateAt(world.fates, n).Throws())
  }

  /** The calls past the budget are answered first, each with the same error. */
  predicate OverflowTold(calls: seq<ToolCall>, results: seq<AgentMessage>) {
    |calls| <= |results| && forall i :: 0 <= i < |calls| ==>
      && AnswersId(results[i], calls[i].id) && IsErrorResult(results[i])
      && ResultContent(results[i]) == "Tool call not executed: max tool calls reached."
  }

  predicate AnswersId(m: AgentMessage, id: string) {
    m.ToolResultMessage? && m.payload.Some? && m.payload.value.toolCallId == Some(Str(id))
  }

  predicate IsErrorResult(m: AgentMessage) {
    m.ToolResultMessage? && m.payload.Some? && m.payload.value.isError == Some(Other("true"))
  }

  function ResultContent(m: AgentMessage): string {
    if m.ToolResultMessage? && m.payload.Some? && m.payload.value.content.Some? && m.payload.value.content.value.Str?
    then m.payload.value.content.value.value else ""
  }

  lemma SlotsStep(calls: seq<ToolCall>, fates: seq<Fate>, i: nat, start: seq<AgentMessage>)
    requires i < |calls|
    ensures start + Flat(Slots(calls[..i + 1], fates)) == start + Flat(Slots(calls[..i], fates)) + Pushed(calls[i], FateAt(fates, i))
  {
    var slots := Slots(calls[..i + 1], fates);
    assert slots[..i] == Slots(calls[..i], fates) && slots[i] == Pushed(calls[i], FateAt(fates, i));
    Associative(start, Flat(slots[..i]), slots[i]);
  }

  lemma {:induction false} SlotsPlain(calls: seq<ToolCall>, fates: seq<Fate>)
    requires forall i :: 0 <= i < |calls| ==> !FateAt(fates, i).Throws()
    ensures var results := Flat(Slots(calls, fates));
            |results| == |calls| && forall i :: 0 <= i < |calls| ==> AnswersId(results[i], calls[i].id)
    decreases |calls|
  {
    if calls != [] {
      var n := |calls| - 1;
      SlotsPlain(calls[..n], fates);
      assert Slots(calls, fates)[..n] == Slots(calls[..n], fates);
      ResultAnswers(calls[n], FateAt(fates, n));
    }
  }

  lemma StopsThere(calls: seq<ToolCall>, world: TurnScript, i: nat, results: seq<AgentMessage>, ok: bool)
    requires i <= |calls| && results == Flat(Slots(calls[..i], world.fates)) && forall j :: 0 <= j < i ==> !Halts(world, j)
    requires if ok then i == |calls| || AbortedBefore(world, i) else i < |calls| && !AbortedBefore(world, i) && FateAt(world.fates, i).Throws()
    ensures StoppedAt(calls, world, results, ok)
  {
    forall j | 0 <= j < i ensures !FateAt(world.fates, j).Throws() && (world.abortAt.Some? ==> j < world.abortAt.value) {
      assert !Halts(world, j);
    }
    SlotsPlain(calls[..i], world.fates);
  }

  lemma ResultAnswers(call: ToolCall, fate: Fate)
    requires !fate.Throws()
    ensures |Pushed(call, fate)| == 1 && AnswersId(Pushed(call, fate)[0], call.id)
  {
  }

  function Finish(pending: seq<(ToolCall, Fate)>): (r: seq<seq<AgentMessage>>)
    ensures |r| == |pending|
  {
    seq(|pending|, i requires 0 <= i < |pending| => Pushed(pending[i].0, pending[i].1))
  }

  predicate AnyThrows(pending: seq<(ToolCall, Fate)>) { exists k :: 0 <= k < |pending| && pending[k].1.Throws() }

  lemma AnyThrowsWithout(pending: seq<(ToolCall, Fate)>, i: nat)
    requires i < |pending|
    ensures AnyThrows(pending) <==> pending[i].1.Throws() || AnyThrows(pending[..i] + pending[i + 1..])
  {
    var rest := pending[..i] + pending[i + 1..];
    if k :| 0 <= k < |pending| && pending[k].1.Throws() && k != i {
      assert rest[if k < i then k else k - 1] == pending[k];
    }
  }

  lemma {:induction false} FlatFirst<T>(x: seq<T>, slots: seq<seq<T>>)
    ensures Flat([x] + slots) == x + Flat(slots)
    decreases |slots|
  {
    var whole := [x] + slots;
    if slots == [] {
      assert whole[..0] == [] && whole[0] == x;
    } else {
      var n := |slots| - 1;
      FlatFirst(x, slots[..n]);
      assert whole[..|whole| - 1] == [x] + slots[..n] && whole[|whole| - 1] == slots[n];
      Associative(x, Flat(slots[..n]), slots[n]);
    }
  }

  lemma {:induction false} ReachIs(k: nat, n: nat, world: TurnScript, i: nat)
    requires k <= i <= n && (forall j :: k <= j < i ==> !Halts(world, j)) && (i == n || Halts(world, i))
    ensures ReachFrom(k, n, world) == i
    decreases i - k
  {
    if k < i {
      assert !Halts(world, k);
      ReachIs(k + 1, n, world, i);
    }
  }

  lemma {:induction false} SomeThrowsIff(fates: seq<Fate>, n: nat)
    ensures SomeThrows(fates, n) <==> exists i :: 0 <= i < n && FateAt(fates, i).Throws()
    decreases n
  {
    if n > 0 {
      SomeThrowsIff(fates, n - 1);
    }
  }

  lemma PendingThrows(calls: seq<ToolCall>, fates: seq<Fate>, pending: seq<(ToolCall, Fate)>)
    requires |pending| == |calls| && forall i :: 0 <= i < |calls| ==> pending[i] == (calls[i], FateAt(fates, i))
    ensures AnyThrows(pending) <==> SomeThrows(fates, |calls|)
  {
    SomeThrowsIff(fates, |calls|);
    if i :| 0 <= i < |calls| && FateAt(fates, i).Throws() {
      assert pending[i].1.Throws();
    }
    if k :| 0 <= k < |pending| && pending[k].1.Throws() {
      assert FateAt(fates, k).Throws();
    }
  }

  lemma ArrangeFirst<T>(items: seq<T>, picks: seq<nat>, i: nat, rest: seq<T>, later: seq<nat>)
    requires items != [] && i == PickIndex(|items|, picks) && rest == items[..i] + items[i + 1..]
    requires later == if picks == [] then [] else picks[1..]
    ensures Arrange(items, picks) == [items[i]] + Arrange(rest, later)
  {
  }

  lemma FinishNext(pending: seq<(ToolCall, Fate)>, rest: seq<(ToolCall, Fate)>, picks: seq<nat>, later: seq<nat>, before: seq<AgentMessage>)
    requires pending != [] && later == if picks == [] then [] else picks[1..]
    requires var i := PickIndex(|pending|, picks); rest == pending[..i] + pending[i + 1..]
    ensures before + Flat(Arrange(Finish(pending), picks)) ==
            before + Finish(pending)[PickIndex(|pending|, picks)] + Flat(Arrange(Finish(rest), later))
  {
    var i := PickIndex(|pending|, picks);
    FinishWithout(pending, i);
    FlatArranged(Finish(pending), picks, i, Finish(rest), later, before);
  }

  lemma FlatArranged<T>(slots: seq<seq<T>>, picks: seq<nat>, i: nat, rest: seq<seq<T>>, later: seq<nat>, before: seq<T>)
    requires slots != [] && i == PickIndex(|slots|, picks) && rest == slots[..i] + slots[i + 1..]
    requires later == if picks == [] then [] else picks[1..]
    ensures before + Flat(Arrange(slots, picks)) == before + slots[i] + Flat(Arrange(rest, later))
  {
    ArrangeFirst(slots, picks, i, rest, later);
    FlatFirst(slots[i], Arrange(rest, later));
    Associative(before, slots[i], Flat(Arrange(rest, later)));
  }

  lemma FinishWithout(pending: seq<(ToolCall, Fate)>, i: nat)
    requires i < |pending|
    ensures Finish(pending[..i] + pending[i + 1..]) == Finish(pending)[..i] + Finish(pending)[i + 1..]
    ensures Finish(pending)[i] == Pushed(pending[i].0, pending[i].1)
  {
  }

  lemma AnswerCases(mode: Mode, left: int, reply: Reply, world: TurnScript)
    ensures LengthStopped(reply) ==>
              Answers(mode, left, reply, world) == [Truncated(reply.toolCalls[0])] && ToExecute(reply, left) == []
    ensures var n := |reply.toolCalls|;
            !LengthStopped(reply) && (n == 0 || n <= left) ==>
              Answers(mode, left, reply, world) == Batch(mode, reply.toolCalls, world) && ToExecute(reply, left) == reply.toolCalls
    ensures reply.toolCalls == [] ==> Answers(mode, left, reply, world) == []
  {
    var calls := reply.toolCalls;
    var n := |calls|;
    if !LengthStopped(reply) && (n == 0 || n <= left) {
      assert calls[..n] == calls && Skipped(calls[n..]) == [];
    }
  }

  lemma {:induction false} ReachHalts(i: nat, n: nat, world: TurnScript)
    requires i <= n
    ensures ReachFrom(i, n, world) < n ==> Halts(world, ReachFrom(i, n, world))
    decreases n - i
  {
    if i < n && !Halts(world, i) { ReachHalts(i + 1, n, world); }
  }

  /** In a run that is not aborted a batch throws exactly when one of its calls does; an aborted batch may stop before it. */
  lemma BatchThrowsIff(mode: Mode, calls: seq<ToolCall>, world: TurnScript)
    ensures BatchThrows(mode, calls, world) ==> !NoneThrows(world.fates, |calls|)
    ensures world.abortAt.None? ==> (BatchThrows(mode, calls, world) <==> !NoneThrows(world.fates, |calls|))
  {
    match mode
    case Parallel => SomeThrowsIff(world.fates, |calls|);
    case Sequential =>
      ReachHalts(0, |calls|, world);
      if world.abortAt.None? && NoneThrows(world.fates, |calls|) {
        ReachIs(0, |calls|, world, |calls|);
      }
      if world.abortAt.None? && Reach(|calls|, world) == |calls| {
        ReachedAll(0, |calls|, world);
        forall i | 0 <= i < |calls| ensures !FateAt(world.fates, i).Throws() { assert !Halts(world, i); }
      }
  }

  lemma {:induction false} ReachedAll(i: nat, n: nat, world: TurnScript)
    requires i <= n && ReachFrom(i, n, world) == n
    ensures forall j :: i <= j < n ==> !Halts(world, j)
    decreases n - i
  {
    if i < n { ReachedAll(i + 1, n, world); }
  }

  lemma CallsEndMeans(mode: Mode, left: int, reply: Reply, world: TurnScript)
    ensures CallsEnd(mode, left, reply, world).None? && world.abortAt.None? <==>
            && world.abortAt.None? && NoneThrows(world.fates, |reply.toolCalls|)
            && (reply.toolCalls != [] ==> reply.stopReason != Some("length") && |reply.toolCalls| <= left)
    ensures match CallsEnd(mode, left, reply, world)
            case None => reply.toolCalls != [] ==> reply.stopReason != Some("length") && |reply.toolCalls| <= left
            case Some(e) =>
              || (e == LengthStop && reply.toolCalls != [] && reply.stopReason == Some("length"))
              || (e == Rejected && !NoneThrows(world.fates, |reply.toolCalls|))
              || (e == BudgetStop && reply.toolCalls != [] && |reply.toolCalls| > left)
  {
    if !LengthStopped(reply) {
      var cut := Cut(|reply.toolCalls|, left);
      BatchThrowsIff(mode, reply.toolCalls[..cut], world);
      assert cut == |reply.toolCalls| ==> reply.toolCalls[..cut] == reply.toolCalls;
    }
  }

  lemma EndMeans(mode: Mode, log: TurnLog, queue: seq<string>)
    ensures TurnEnd(mode, log.left, queue, log.world).None? <==> GoesOn(log, queue != [])
    ensures TurnEnd(mode, log.left, queue, log.world).Some? ==>
              Because(TurnEnd(mode, log.left, queue, log.world).value, log, queue != [])
  {
    if log.world.reply.Some? { CallsEndMeans(mode, log.left, log.world.reply.value, log.world); }
  }

  lemma KeptStep(first: seq<string>, logs: seq<TurnLog>, queue: seq<string>, all: bool, log: TurnLog)
    requires Kept(first, logs, queue) && log.drained == Drained(queue, all)
    ensures Kept(first, logs + [log], Pending(queue, all, log.world))
  {
    var more := logs + [log];
    assert more[..|logs|] == logs;
    assert queue == log.drained + queue[|log.drained|..];
    Associative(first, SteeredIn(logs), log.world.steered);
    Associative(DrainedIn(logs), log.drained, queue[|log.drained|..]);
    Associative(DrainedIn(logs) + log.drained, queue[|log.drained|..], log.world.steered);
  }

  lemma {:induction false} SumsFirst(log: TurnLog, logs: seq<TurnLog>)
    ensures SteeredIn([log] + logs) == log.world.steered + SteeredIn(logs)
    ensures DrainedIn([log] + logs) == log.drained + DrainedIn(logs)
    ensures CallsAsked([log] + logs) == CallCount(log.world) + CallsAsked(logs)
    decreases |logs|
  {
    var whole := [log] + logs;
    if logs == [] {
      assert whole[..0] == [] && whole[0] == log;
    } else {
      var n := |logs| - 1;
      SumsFirst(log, logs[..n]);
      assert whole[..n + 1] == [log] + logs[..n] && whole[n + 1] == logs[n];
      Associative(log.world.steered, SteeredIn(logs[..n]), logs[n].world.steered);
      Associative(log.drained, DrainedIn(logs[..n]), logs[n].drained);
    }
  }

  lemma KeptWaiting(first: seq<string>, logs: seq<TurnLog>, queue: seq<string>)
    requires Kept(first, logs, queue)
    ensures Waiting(first, logs) <==> queue != []
  {
    assert |first + SteeredIn(logs)| == |DrainedIn(logs)| + |queue|;
  }

  ghost predicate WentOn(first: seq<string>, logs: seq<TurnLog>, n: nat)
    requires n <= |logs|
  {
    forall k :: 0 <= k < n ==> GoesOn(logs[k], Waiting(first, logs[..k + 1]))
  }

  /** What every run does, by its inputs alone. */
  ghost predicate PlayedOut(all: bool, turns: nat, first: seq<string>, max: int, script: seq<TurnScript>, o: Outcome) {
    && (forall k :: 0 <= k < |o.logs| ==> Met(all, first, max, script, o.logs, k))
    && (if o.ending.NoTurnsLeft? then |o.logs| == turns && WentOn(first, o.logs, |o.logs|)
        else
          && o.logs != [] && WentOn(first, o.logs, |o.logs| - 1)
          && var last, waiting := o.logs[|o.logs| - 1], Waiting(first, o.logs);
             Because(o.ending, last, waiting) && !GoesOn(last, waiting))
  }

  lemma PrefixShift<T>(a: seq<T>, b: seq<T>, c: seq<T>, drained: seq<T>, steered: seq<T>, d: seq<T>)
    requires drained + d <= (b + c) + steered
    ensures (a + drained) + d <= (a + b) + (c + steered)
    ensures drained + d == (b + c) + steered ==> (a + drained) + d == (a + b) + (c + steered)
  {
    Associative(a, drained, d);
    Associative(b, c, steered);
    Associative(a, b, c + steered);
    assert a + (drained + d) <= a + (b + c + steered);
  }

  lemma WaitingShift(first: seq<string>, log: TurnLog, logs: seq<TurnLog>, queue: seq<string>)
    requires first + log.world.steered == log.drained + queue
    ensures Waiting(first, [log] + logs) <==> Waiting(queue, logs)
  {
    SumsFirst(log, logs);
    assert |first + log.world.steered| == |log.drained + queue|;
  }

  lemma MetShift(all: bool, first: seq<string>, max: int, script: seq<TurnScript>, log: TurnLog, logs: seq<TurnLog>, k: nat, rest: seq<string>)
    requires k < |logs| && first == log.drained + rest && log.world == Next(script)
    requires Met(all, rest + log.world.steered, max - CallCount(log.world), Tail(script), logs, k)
    ensures Met(all, first, max, script, [log] + logs, k + 1)
  {
    var before := logs[..k];
    assert ([log] + logs)[..k + 1] == [log] + before;
    SumsFirst(log, before);
    PrefixShift(log.drained, rest, log.world.steered, DrainedIn(before), SteeredIn(before), logs[k].drained);
    WaitingShift(first, log, before, rest + log.world.steered) by {
      Associative(log.drained, rest, log.world.steered);
    }
  }

  lemma MetFirst(all: bool, first: seq<string>, max: int, script: seq<TurnScript>, log: TurnLog, logs: seq<TurnLog>)
    requires log == TurnLog(Drained(first, all), max, Next(script))
    ensures Met(all, first, max, script, [log] + logs, 0)
  {
    assert ([log] + logs)[..0] == [];
  }

  lemma WentShift(first: seq<string>, log: TurnLog, logs: seq<TurnLog>, queue: seq<string>, n: nat)
    requires n <= |logs| && first + log.world.steered == log.drained + queue
    requires GoesOn(log, queue != []) && WentOn(queue, logs, n)
    ensures WentOn(first, [log] + logs, n + 1)
  {
    var whole := [log] + logs;
    forall k | 0 <= k < n + 1 ensures GoesOn(whole[k], Waiting(first, whole[..k + 1])) {
      if k == 0 {
        assert whole[..1] == [log] + logs[..0];
        WaitingShift(first, log, logs[..0], queue);
      } else {
        assert whole[..k + 1] == [log] + logs[..k];
        WaitingShift(first, log, logs[..k], queue);
        assert GoesOn(logs[k - 1], Waiting(queue, logs[..k - 1 + 1]));
      }
    }
  }

  lemma PlayedShift(all: bool, turns: nat, first: seq<string>, max: int, script: seq<TurnScript>, log: TurnLog, rest: seq<string>,
                    o: Outcome, whole: Outcome)
    requires log == TurnLog(Drained(first, all), max, Next(script)) && first == log.drained + rest
    requires GoesOn(log, rest + log.world.steered != [])
    requires turns > 0 && PlayedOut(all, turns - 1, rest + log.world.steered, max - CallCount(log.world), Tail(script), o)
    requires whole == Outcome([log] + o.logs, o.ending)
    ensures PlayedOut(all, turns, first, max, script, whole)
  {
    var queue, logs := rest + log.world.steered, [log] + o.logs;
    Associative(log.drained, rest, log.world.steered);
    MetFirst(all, first, max, script, log, o.logs);
    forall k | 0 <= k < |logs| ensures Met(all, first, max, script, logs, k) {
      if k > 0 { MetShift(all, first, max, script, log, o.logs, k - 1, rest); }
    }
    WentShift(first, log, o.logs, queue, if o.ending.NoTurnsLeft? then |o.logs| else |o.logs| - 1);
    WaitingShift(first, log, o.logs, queue);
  }

  lemma PlayedOne(all: bool, turns: nat, first: seq<string>, max: int, script: seq<TurnScript>, log: TurnLog, queue: seq<string>,
                  end: Ending, whole: Outcome)
    requires whole == Outcome([log], end) && log == TurnLog(Drained(first, all), max, Next(script))
    requires first + log.world.steered == log.drained + queue
    requires Because(end, log, queue != []) && !GoesOn(log, queue != [])
    ensures PlayedOut(all, turns, first, max, script, whole)
  {
    MetFirst(all, first, max, script, log, []);
    assert [log] + [] == [log];
    WaitingShift(first, log, [], queue);
  }

  /** The first turn of a run, why it ended the run if it did, and the run behind it if not. */
  lemma PlayParts(mode: Mode, all: bool, turns: nat, max: int, first: seq<string>, script: seq<TurnScript>, o: Outcome)
    returns (log: TurnLog, rest: seq<string>, end: Option<Ending>, o': Outcome)
    requires turns > 0 && o == Play(mode, all, turns, max, first, script)
    ensures log == TurnLog(Drained(first, all), max, Next(script)) && first == log.drained + rest
    ensures end.Some? ==> o == Outcome([log], end.value) && Because(end.value, log, rest + log.world.steered != [])
    ensures end.None? ==> o == Outcome([log] + o'.logs, o'.ending)
    ensures end.None? ==> o' == Play(mode, all, turns - 1, max - CallCount(log.world), rest + log.world.steered, Tail(script))
    ensures end.None? <==> GoesOn(log, rest + log.world.steered != [])
  {
    log := TurnLog(Drained(first, all), max, Next(script));
    rest := first[|log.drained|..];
    end := TurnEnd(mode, max, rest + log.world.steered, log.world);
    o' := Play(mode, all, turns - 1, max - CallCount(log.world), rest + log.world.steered, Tail(script));
    EndMeans(mode, log, rest + log.world.steered);
  }

  /** Every run: each turn meets its part of the script, all but the last go on, and the last ends for its reason. */
  lemma {:induction false} PlayTold(mode: Mode, all: bool, turns: nat, max: int, first: seq<string>, script: seq<TurnScript>, o: Outcome)
    requires o == Play(mode, all, turns, max, first, script)
    ensures PlayedOut(all, turns, first, max, script, o)
    decreases turns
  {
    if turns > 0 {
      var log, rest, end, o' := PlayParts(mode, all, turns, max, first, script, o);
      if end.Some? {
        Associative(log.drained, rest, log.world.steered);
        PlayedOne(all, turns, first, max, script, log, rest + log.world.steered, end.value, o);
      } else {
        PlayTold(mode, all, turns - 1, max - CallCount(log.world), rest + log.world.steered, Tail(script), o');
        PlayedShift(all, turns, first, max, script, log, rest, o', o);
      }
    }
  }

  lemma RunTold(mode: Mode, all: bool, limits: Limits, input: string, script: seq<TurnScript>, o: Outcome, queue: seq<string>)
    requires o == Play(mode, all, Turns(limits), limits.maxToolCalls, [input], script) && Kept([input], o.logs, queue)
    ensures forall k :: 0 <= k < |o.logs| ==> Met(all, [input], limits.maxToolCalls, script, o.logs, k)
    ensures forall k :: 0 <= k < |o.logs| - 1 ==> GoesOn(o.logs[k], Waiting([input], o.logs[..k + 1]))
    ensures o.ending.NoTurnsLeft? ==> |o.logs| == if limits.maxTurns > 0 then limits.maxTurns else 0
    ensures !o.ending.NoTurnsLeft? ==> o.logs != []
    ensures o.logs != [] ==> (o.ending.NoTurnsLeft? <==> GoesOn(o.logs[|o.logs| - 1], queue != []))
    ensures !o.ending.NoTurnsLeft? ==> Because(o.ending, o.logs[|o.logs| - 1], queue != [])
  {
    PlayTold(mode, all, Turns(limits), limits.maxToolCalls, [input], script, o);
    KeptWaiting([input], o.logs, queue);
    assert o.logs[..|o.logs|] == o.logs;
    if o.logs != [] && o.ending.NoTurnsLeft? {
      assert GoesOn(o.logs[|o.logs| - 1], Waiting([input], o.logs[..|o.logs| - 1 + 1]));
    }
  }

  lemma WroteTexts(mode: Mode, start: seq<AgentMessage>, logs: seq<TurnLog>, transcript: seq<AgentMessage>, toolCalls: int)
    requires Wrote(mode, start, logs, transcript, toolCalls)
    ensures |start| <= |transcript| && UserTexts(transcript[|start|..]) == DrainedIn(logs)
  {
    assert transcript[|start|..] == RunMessages(mode, logs);
    RunUserTexts(mode, logs);
  }

  lemma {:induction false} UserTextsConcat(a: seq<AgentMessage>, b: seq<AgentMessage>)
    ensures UserTexts(a + b) == UserTexts(a) + UserTexts(b)
    decreases |a|
  {
    if a == [] {
      assert a + b == b;
    } else {
      assert (a + b)[0] == a[0] && (a + b)[1..] == a[1..] + b;
      UserTextsConcat(a[1..], b);
    }
  }

  predicate NoUsers(messages: seq<AgentMessage>) { forall i :: 0 <= i < |messages| ==> !messages[i].UserMessage? }

  lemma {:induction false} NoUserTexts(messages: seq<AgentMessage>)
    requires NoUsers(messages)
    ensures UserTexts(messages) == []
    decreases |messages|
  {
    if messages != [] { NoUserTexts(messages[1..]); }
  }

  lemma {:induction false} ArrangeMembers<T>(items: seq<T>, picks: seq<nat>)
    ensures forall x :: x in Arrange(items, picks) ==> x in items
    decreases |items|
  {
    if items != [] {
      var i := PickIndex(|items|, picks);
      ArrangeMembers(items[..i] + items[i + 1..], if picks == [] then [] else picks[1..]);
    }
  }

  lemma {:induction false} FlatNoUsers(slots: seq<seq<AgentMessage>>)
    requires forall x :: x in slots ==> NoUsers(x)
    ensures NoUsers(Flat(slots))
    decreases |slots|
  {
    if slots != [] {
      assert slots[|slots| - 1] in slots;
      assert forall x :: x in slots[..|slots| - 1] ==> x in slots;
      FlatNoUsers(slots[..|slots| - 1]);
    }
  }

  lemma SlotsNoUsers(calls: seq<ToolCall>, fates: seq<Fate>)
    ensures forall x :: x in Slots(calls, fates) ==> NoUsers(x)
  {
    forall i | 0 <= i < |calls| ensures NoUsers(Slots(calls, fates)[i]) { PushedNoUsers(calls[i], FateAt(fates, i)); }
  }

  lemma PushedNoUsers(call: ToolCall, fate: Fate)
    ensures NoUsers(Pushed(call, fate))
  {
  }

  lemma BatchNoUsers(mode: Mode, calls: seq<ToolCall>, world: TurnScript)
    ensures NoUsers(Batch(mode, calls, world))
  {
    match mode
    case Parallel =>
      SlotsNoUsers(calls, world.fates);
      ArrangeMembers(Slots(calls, world.fates), world.picks);
      FlatNoUsers(Arrange(Slots(calls, world.fates), world.picks));
    case Sequential =>
      SlotsNoUsers(calls[..Reach(|calls|, world)], world.fates);
      FlatNoUsers(Slots(calls[..Reach(|calls|, world)], world.fates));
  }

  lemma ReplyNoUsers(mode: Mode, left: int, reply: Reply, world: TurnScript)
    ensures NoUsers(ReplyMessages(mode, left, reply, world))
  {
    BatchNoUsers(mode, ToExecute(reply, left), world);
    assert NoUsers(Answers(mode, left, reply, world));
  }

  lemma {:induction false} UsersTexts(texts: seq<string>)
    ensures UserTexts(Users(texts)) == texts
    decreases |texts|
  {
    if texts != [] {
      UsersTexts(texts[1..]);
      assert Users(texts)[1..] == Users(texts[1..]);
    }
  }

  lemma TurnUserTexts(mode: Mode, log: TurnLog)
    ensures UserTexts(TurnMessages(mode, log)) == log.drained
  {
    UsersTexts(log.drained);
    match log.world.reply
    case None =>
      assert TurnMessages(mode, log) == Users(log.drained);
    case Some(reply) =>
      ReplyNoUsers(mode, log.left, reply, log.world);
      NoUserTexts(ReplyMessages(mode, log.left, reply, log.world));
      UserTextsConcat(Users(log.drained), ReplyMessages(mode, log.left, reply, log.world));
  }

  lemma {:induction false} RunUserTexts(mode: Mode, logs: seq<TurnLog>)
    ensures UserTexts(RunMessages(mode, logs)) == DrainedIn(logs)
    decreases |logs|
  {
    if logs != [] {
      var front, last := logs[..|logs| - 1], logs[|logs| - 1];
      RunUserTexts(mode, front);
      TurnUserTexts(mode, last);
      UserTextsConcat(RunMessages(mode, front), TurnMessages(mode, last));
    }
  }

  lemma ContinuesInFull(mode: Mode, left: int, reply: Reply, world: TurnScript)
    requires CallsEnd(mode, left, reply, world).None?
    ensures |ToExecute(reply, left)| == |reply.toolCalls|
  {
  }

  lemma WroteStep(mode: Mode, start: seq<AgentMessage>, logs: seq<TurnLog>, transcript: seq<AgentMessage>, toolCalls: int, log: TurnLog)
    requires Wrote(mode, start, logs, transcript, toolCalls)
    ensures Wrote(mode, start, logs + [log], transcript + TurnMessages(mode, log), toolCalls + Started(log.left, log.world))
  {
    assert (logs + [log])[..|logs|] == logs;
    Associative(start, RunMessages(mode, logs), TurnMessages(mode, log));
  }

  lemma ReportsStep(logs: seq<TurnLog>, text: string, log: TurnLog)
    requires text == LastSaid(logs)
    ensures Reports(logs + [log], Latest(Said(log.world), text), log.world.abortAt.Some?)
  {
    assert (logs + [log])[..|logs|] == logs;
  }

  /** What the loop knows after one more turn, by what that turn is. */
  lemma NextTurn(whole: Outcome, start: seq<AgentMessage>, first: seq<string>, logs: seq<TurnLog>, mode: Mode, all: bool,
                 remaining: nat, budget: int, toolCalls: int, ahead: seq<TurnScript>, transcript: seq<AgentMessage>, queue: seq<string>)
    returns (log: TurnLog, end: Option<Ending>, logs': seq<TurnLog>)
    requires remaining > 0 && LeadsTo(whole, logs, mode, all, remaining, budget, queue, ahead)
    requires Wrote(mode, start, logs, transcript, toolCalls) && Kept(first, logs, queue)
    ensures log == TurnLog(Drained(queue, all), budget, Next(ahead)) && logs' == logs + [log]
    ensures end == TurnEnd(mode, budget, Pending(queue, all, log.world), log.world)
    ensures Wrote(mode, start, logs', transcript + TurnMessages(mode, log), toolCalls + Started(budget, log.world))
    ensures Kept(first, logs', Pending(queue, all, log.world))
    ensures end.Some? ==> whole.logs == logs' && !whole.ending.NoTurnsLeft?
    ensures end.None? ==> LeadsTo(whole, logs', mode, all, remaining - 1, budget - CallCount(log.world),
                                  Pending(queue, all, log.world), Tail(ahead))
  {
    log, logs' := TurnLog(Drained(queue, all), budget, Next(ahead)), logs + [TurnLog(Drained(queue, all), budget, Next(ahead))];
    end := TurnEnd(mode, budget, Pending(queue, all, log.world), log.world);
    PlayStep(whole, logs, mode, all, remaining, budget, queue, ahead, log, end);
    WroteStep(mode, start, logs, transcript, toolCalls, log);
    KeptStep(first, logs, queue, all, log);
  }

  lemma {:induction false} PlayOut(whole: Outcome, logs: seq<TurnLog>, mode: Mode, all: bool, turns: nat, left: int, queue: seq<string>,
                                   script: seq<TurnScript>)
    requires turns == 0 && LeadsTo(whole, logs, mode, all, turns, left, queue, script)
    ensures whole == Outcome(logs, NoTurnsLeft)
    decreases |logs|
  {
    if logs != [] {
      PlayOut(Outcome(whole.logs[1..], whole.ending), logs[1..], mode, all, turns, left, queue, script);
      assert whole.logs == [whole.logs[0]] + whole.logs[1..] && logs == [logs[0]] + logs[1..];
    }
  }

  /** Unrolls one turn of `Play` behind the turns already logged. */
  lemma {:induction false} PlayStep(whole: Outcome, logs: seq<TurnLog>, mode: Mode, all: bool, turns: nat, left: int, queue: seq<string>,
                                    script: seq<TurnScript>, log: TurnLog, end: Option<Ending>)
    requires turns > 0 && LeadsTo(whole, logs, mode, all, turns, left, queue, script)
    requires log == TurnLog(Drained(queue, all), left, Next(script))
    requires end == TurnEnd(mode, left, Pending(queue, all, Next(script)), Next(script))
    ensures end.Some? ==> whole == Outcome(logs + [log], end.value) && end.value != NoTurnsLeft
    ensures end.None? ==> LeadsTo(whole, logs + [log], mode, all, turns - 1, left - CallCount(log.world),
                                  Pending(queue, all, log.world), Tail(script))
    decreases |logs|
  {
    if logs == [] {
      assert logs + [log] == [log] && [log][1..] == [];
      if end.None? {
        var rest := Play(mode, all, turns - 1, left - CallCount(log.world), Pending(queue, all, log.world), Tail(script));
        assert ([log] + rest.logs)[1..] == rest.logs;
      }
    } else {
      PlayStep(Outcome(whole.logs[1..], whole.ending), logs[1..], mode, all, turns, left, queue, script, log, end);
      assert (logs + [log])[1..] == logs[1..] + [log];
      assert whole.logs == [whole.logs[0]] + whole.logs[1..];
    }
  }
}
