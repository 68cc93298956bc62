// The bounded agent loop: what one run asks, executes and adds to the conversation.
module TonyAgent {
  import opened IdOrder
  import opened Text
  import opened SessionStore
  import opened Transcript

  datatype Limits = Limits(maxTurns: int, maxToolCalls: int, maxToolCallsPerTurn: int)

  // ---- the world a run meets ----

  datatype Decision = Allow | Confirm | Deny

  datatype Resolver = NoResolver | AllowOnce | AllowSession | Refuse | ResolverThrows

  datatype ToolResult = ToolResult(content: string, isError: bool)

  /** How one tool call fares. A missing policy decision is a site lookup that throws. */
  datatype Verdict = Verdict(aborted: bool, registered: bool, policy: Option<Decision>, resolver: Resolver, result: ToolResult) {
    predicate Permitted() {
      policy == Some(Allow) || (policy == Some(Confirm) && (resolver.AllowOnce? || resolver.AllowSession?))
    }

    predicate Throws() {
      registered && (policy.None? || (policy == Some(Confirm) && resolver.ResolverThrows?))
    }

    /** The world stops the run at this call: by an abort, or by throwing while permission is sought. */
    predicate Stops(done: nat, max: int) { aborted || (done < max && Throws()) }
  }

  datatype Reply = Reply(text: string, toolCalls: seq<ToolCall>)

  /** One turn of the world: abort seen at its start, queued steering, the reply (none: the model call throws). */
  datatype TurnScript = TurnScript(aborted: bool, steering: seq<string>, reply: Option<Reply>, verdicts: seq<Verdict>)

  // ---- what a run leaves behind ----

  /** A tool call that was answered, and how it fared. */
  datatype Attempt = Attempt(call: ToolCall, verdict: Verdict)

  datatype Turn = Turn(steering: seq<string>, reply: Option<Reply>, attempts: seq<Attempt>)

  datatype Outcome = AlreadyRunning | Finished(text: string) | LimitReached | Threw

  function Key(call: ToolCall): string { call.name + ":" + call.arguments }

  function Keys(calls: seq<ToolCall>): (keys: seq<string>)
    ensures |keys| == |calls|
  {
    seq(|calls|, i requires 0 <= i < |calls| => Key(calls[i]))
  }

  /** The calls that reach a tool: registered, permitted, within the budget, and not run before. */
  function Ran(attempts: seq<Attempt>, max: int): (calls: seq<ToolCall>) {
    if attempts == [] then []
    else
      var prior, last := Ran(attempts[..|attempts| - 1], max), attempts[|attempts| - 1];
      if Runs(last, |attempts|, max, prior) then prior + [last.call] else prior
  }

  predicate Runs(a: Attempt, ordinal: nat, max: int, prior: seq<ToolCall>) {
    ordinal <= max && a.verdict.registered && a.verdict.Permitted() && Key(a.call) !in Keys(prior)
  }

  function ToolMessage(call: ToolCall, content: string, isError: bool): Message {
    Message(Tool, if isError then "ERROR: " + content else content, Some(call.name), Some(call.id), None)
  }

  function AssistantMessage(reply: Reply): Message {
    Message(Assistant, reply.text, None, None, if reply.toolCalls == [] then None else Some(reply.toolCalls))
  }

  function OverBudget(max: int): string { "Stopped: total tool-call limit (" + Numeral(max) + ") exceeded." }

  function OverTurn(max: int): string { "Stopped: tool-call limit per turn (" + Numeral(max) + ") exceeded." }

  const GUARD := ToolCall("guard", "tony_guard", "{}")

  /** The one answer a call gets, given the calls answered before it. */
  function Answer(before: seq<Attempt>, a: Attempt, max: int): Message {
    if |before| >= max then ToolMessage(a.call, OverBudget(max), true)
    else if !a.verdict.registered then ToolMessage(a.call, "Unknown tool: " + a.call.name, true)
    else if !a.verdict.Permitted() then ToolMessage(a.call, "Permission denied for tool " + a.call.name + ".", true)
    else if Key(a.call) in Keys(Ran(before, max)) then
      ToolMessage(a.call, "Repeated tool call detected for " + a.call.name + "; stopped to prevent a loop.", true)
    else ToolMessage(a.call, a.verdict.result.content, a.verdict.result.isError)
  }

  function Answers(before: seq<Attempt>, attempts: seq<Attempt>, max: int): (answers: seq<Message>)
    ensures |answers| == |attempts|
  {
    if attempts == [] then []
    else
      var front := attempts[..|attempts| - 1];
      Answers(before, front, max) + [Answer(before + front, attempts[|attempts| - 1], max)]
  }

  lemma {:induction false} AnswersAt(before: seq<Attempt>, attempts: seq<Attempt>, max: int, i: nat)
    requires i < |attempts|
    ensures Answers(before, attempts, max)[i] == Answer(before + attempts[..i], attempts[i], max)
    decreases |attempts|
  {
    var front := attempts[..|attempts| - 1];
    if i < |front| {
      AnswersAt(before, front, max, i);
      assert front[..i] == attempts[..i];
    }
  }

  function Steering(texts: seq<string>): seq<Message> {
    seq(|texts|, i requires 0 <= i < |texts| => UserMessage(texts[i]))
  }

  predicate TooMany(limits: Limits, reply: Reply) { |reply.toolCalls| > limits.maxToolCallsPerTurn }

  /** The messages a turn adds, given the calls answered in earlier turns. */
  function TurnMessages(limits: Limits, before: seq<Attempt>, t: Turn): seq<Message> {
    Steering(t.steering) +
    match t.reply
    case None => []
    case Some(reply) => [AssistantMessage(reply)] + ToolMessages(limits, before, reply, t.attempts)
  }

  function ToolMessages(limits: Limits, before: seq<Attempt>, reply: Reply, attempts: seq<Attempt>): seq<Message> {
    if reply.toolCalls != [] && TooMany(limits, reply) then [ToolMessage(GUARD, OverTurn(limits.maxToolCallsPerTurn), true)]
    else Answers(before, attempts, limits.maxToolCalls)
  }

  function AttemptsOf(trace: seq<Turn>): seq<Attempt> {
    if trace == [] then [] else AttemptsOf(trace[..|trace| - 1]) + trace[|trace| - 1].attempts
  }

  function RunMessages(limits: Limits, trace: seq<Turn>): seq<Message> {
    if trace == [] then []
    else
      var front := trace[..|trace| - 1];
      RunMessages(limits, front) + TurnMessages(limits, AttemptsOf(front), trace[|trace| - 1])
  }

  // ---- which traces are runs ----

  /** How many of `n` calls get an answer when `done` were answered before: the budget's rest and one refusal. */
  function Share(n: nat, done: nat, max: int): (k: nat)
    ensures k <= n
  {
    var room := (if done < max then max - done else 0) + 1;
    if n < room then n else room
  }

  predicate StopsAt(verdicts: seq<Verdict>, i: nat, done: nat, max: int) {
    i >= |verdicts| || verdicts[i].Stops(done + i, max)
  }

  /** The first `|attempts|` calls were answered, in order, without the world stopping the run. */
  predicate Answered(calls: seq<ToolCall>, verdicts: seq<Verdict>, attempts: seq<Attempt>, done: nat, max: int) {
    |attempts| <= |calls| && forall i :: 0 <= i < |attempts| ==>
      !StopsAt(verdicts, i, done, max) && attempts[i] == Attempt(calls[i], verdicts[i])
  }

  /** How many calls of a reply are answered one by one; none when there are too many for a turn. */
  function Due(limits: Limits, reply: Reply, done: nat): nat {
    if TooMany(limits, reply) then 0 else Share(|reply.toolCalls|, done, limits.maxToolCalls)
  }

  predicate Started(script: TurnScript, t: Turn) {
    !script.aborted && t.steering == script.steering && t.reply == script.reply
  }

  /** A turn that went to its end. */
  predicate Completed(limits: Limits, script: TurnScript, done: nat, t: Turn) {
    && Started(script, t) && t.reply.Some?
    && Answered(t.reply.value.toolCalls, script.verdicts, t.attempts, done, limits.maxToolCalls)
    && |t.attempts| == Due(limits, t.reply.value, done)
  }

  /** A turn the world stopped: in the model call, or at the first call not answered. */
  predicate Interrupted(limits: Limits, script: TurnScript, done: nat, t: Turn) {
    && Started(script, t)
    && match t.reply
       case None => t.attempts == []
       case Some(reply) =>
         && Answered(reply.toolCalls, script.verdicts, t.attempts, done, limits.maxToolCalls)
         && |t.attempts| < Due(limits, reply, done) && StopsAt(script.verdicts, |t.attempts|, done, limits.maxToolCalls)
  }

  /** Every turn was completed and asked for tools, so the loop went on. */
  predicate Worked(limits: Limits, script: seq<TurnScript>, trace: seq<Turn>) {
    trace == [] ||
    var front, last := trace[..|trace| - 1], trace[|trace| - 1];
    && Worked(limits, script, front) && |front| < |script|
    && Completed(limits, script[|front|], |AttemptsOf(front)|, last) && last.reply.value.toolCalls != []
  }

  /** The runs of the loop: the turns it takes and how it ends. A script that runs out counts as an abort. */
  predicate IsRun(limits: Limits, script: seq<TurnScript>, trace: seq<Turn>, outcome: Outcome) {
    match outcome
    case AlreadyRunning => false
    case LimitReached => Worked(limits, script, trace) && |trace| == if limits.maxTurns > 0 then limits.maxTurns else 0
    case Finished(text) =>
      && 0 < |trace| <= limits.maxTurns
      && var front, last := trace[..|trace| - 1], trace[|trace| - 1];
         && Worked(limits, script, front) && |front| < |script|
         && Completed(limits, script[|front|], |AttemptsOf(front)|, last) && last.reply == Some(Reply(text, []))
    case Threw =>
      || (Worked(limits, script, trace) && |trace| < limits.maxTurns && (|trace| >= |script| || script[|trace|].aborted))
      || (0 < |trace| <= limits.maxTurns
          && var front, last := trace[..|trace| - 1], trace[|trace| - 1];
             && Worked(limits, script, front) && |front| < |script|
             && Interrupted(limits, script[|front|], |AttemptsOf(front)|, last))
  }

  // ---- permission ----

  /** Only what the policy allows, or what it wants confirmed and the user confirms, reaches a tool. */
  lemma {:induction false} RanAllowed(attempts: seq<Attempt>, max: int)
    ensures forall call :: call in Ran(attempts, max) ==> exists a ::
              && a in attempts && a.call == call && a.verdict.registered
              && (a.verdict.policy == Some(Allow) || (a.verdict.policy == Some(Confirm) && a.verdict.resolver in {AllowOnce, AllowSession}))
    decreases |attempts|
  {
    if attempts != [] {
      var front, last := attempts[..|attempts| - 1], attempts[|attempts| - 1];
      RanAllowed(front, max);
      assert forall a :: a in front ==> a in attempts;
      assert last in attempts;
    }
  }

  /** Where the answer to the `i`-th call of turn `j` stands among the messages of a run. */
  function Place(limits: Limits, trace: seq<Turn>, j: nat, i: nat): nat
    requires j < |trace|
  {
    |RunMessages(limits, trace[..j])| + |trace[j].steering| + 1 + i
  }

  /** A call past the total limit, of an unknown tool, or that the policy denies or wants confirmed and is not, is told so. */
  ghost predicate ErrorTold(limits: Limits, trace: seq<Turn>, messages: seq<Message>, j: nat, i: nat)
    requires j < |trace| && i < |trace[j].attempts|
  {
    var place, ordinal, a := Place(limits, trace, j, i), |AttemptsOf(trace[..j])| + i, trace[j].attempts[i];
    place < |messages| && IsError(messages[place], ordinal, a, limits.maxToolCalls)
  }

  /** The errors a call can be answered with, by the number of calls before it. */
  predicate IsError(m: Message, ordinal: nat, a: Attempt, max: int) {
    var verdict := a.verdict;
    && m == Message(Tool, m.content, Some(a.call.name), Some(a.call.id), None)
    && (ordinal >= max ==> m.content == "ERROR: " + ("Stopped: total tool-call limit (" + Numeral(max) + ") exceeded."))
    && (ordinal < max && !verdict.registered ==> m.content == "ERROR: " + ("Unknown tool: " + a.call.name))
    && (ordinal < max && verdict.registered
        && (verdict.policy == Some(Deny) || (verdict.policy == Some(Confirm) && verdict.resolver in {NoResolver, Refuse}))
        ==> m.content == "ERROR: " + ("Permission denied for tool " + a.call.name + "."))
  }

  ghost predicate ErrorsTold(limits: Limits, trace: seq<Turn>, messages: seq<Message>) {
    forall j, i :: 0 <= j < |trace| && 0 <= i < |trace[j].attempts| ==> ErrorTold(limits, trace, messages, j, i)
  }

  /** A turn in which calls were answered one by one had a reply with no more calls than a turn may have. */
  lemma {:induction false} WorkedFits(limits: Limits, script: seq<TurnScript>, trace: seq<Turn>, j: nat)
    requires Worked(limits, script, trace) && j < |trace| && trace[j].attempts != []
    ensures trace[j].reply.Some? && !TooMany(limits, trace[j].reply.value)
    decreases |trace|
  {
    if j < |trace| - 1 { WorkedFits(limits, script, trace[..|trace| - 1], j); }
  }

  lemma RunFits(limits: Limits, script: seq<TurnScript>, trace: seq<Turn>, outcome: Outcome, j: nat)
    requires IsRun(limits, script, trace, outcome) && j < |trace| && trace[j].attempts != []
    ensures trace[j].reply.Some? && !TooMany(limits, trace[j].reply.value)
  {
    if Worked(limits, script, trace) {
      WorkedFits(limits, script, trace, j);
    } else if j < |trace| - 1 {
      WorkedFits(limits, script, trace[..|trace| - 1], j);
    }
  }

  lemma {:induction false} RunSplits(limits: Limits, trace: seq<Turn>, j: nat) returns (rest: seq<Message>)
    requires j < |trace|
    ensures RunMessages(limits, trace) ==
            RunMessages(limits, trace[..j]) + TurnMessages(limits, AttemptsOf(trace[..j]), trace[j]) + rest
    decreases |trace|
  {
    var front, last := trace[..|trace| - 1], trace[|trace| - 1];
    if j < |front| {
      assert front[..j] == trace[..j];
      var more := RunSplits(limits, front, j);
      rest := more + TurnMessages(limits, AttemptsOf(front), last);
      Associative(RunMessages(limits, trace[..j]) + TurnMessages(limits, AttemptsOf(trace[..j]), trace[j]), more,
                  TurnMessages(limits, AttemptsOf(front), last));
    } else {
      rest := [];
    }
  }

  lemma Inside<T>(a: seq<T>, b: seq<T>, c: seq<T>, x: nat)
    requires x < |b|
    ensures |a| + x < |a + b + c| && (a + b + c)[|a| + x] == b[x]
  {
  }

  lemma ErrorIsTold(limits: Limits, script: seq<TurnScript>, trace: seq<Turn>, outcome: Outcome, j: nat, i: nat)
    requires IsRun(limits, script, trace, outcome) && j < |trace| && i < |trace[j].attempts|
    ensures ErrorTold(limits, trace, RunMessages(limits, trace), j, i)
  {
    RunFits(limits, script, trace, outcome, j);
    var rest := RunSplits(limits, trace, j);
    var m := TurnError(limits, AttemptsOf(trace[..j]), trace[j], i);
    Inside(RunMessages(limits, trace[..j]), TurnMessages(limits, AttemptsOf(trace[..j]), trace[j]), rest, |trace[j].steering| + 1 + i);
  }

  lemma TurnError(limits: Limits, before: seq<Attempt>, t: Turn, i: nat) returns (m: Message)
    requires t.reply.Some? && !TooMany(limits, t.reply.value) && i < |t.attempts|
    ensures |t.steering| + 1 + i < |TurnMessages(limits, before, t)| && m == TurnMessages(limits, before, t)[|t.steering| + 1 + i]
    ensures IsError(m, |before| + i, t.attempts[i], limits.maxToolCalls)
  {
    AnswersAt(before, t.attempts, limits.maxToolCalls, i);
    m := Answer(before + t.attempts[..i], t.attempts[i], limits.maxToolCalls);
  }

  // ---- what was said ----

  /** What users said, in order, and what the model said and asked for. */
  function UserTexts(messages: seq<Message>): seq<string> {
    if messages == [] then []
    else (if messages[0].role == User then [messages[0].content] else []) + UserTexts(messages[1..])
  }

  function ModelReplies(messages: seq<Message>): seq<Reply> {
    if messages == [] then []
    else
      var m := messages[0];
      (if m.role == Assistant then [Reply(m.content, if m.toolCalls.None? then [] else m.toolCalls.value)] else [])
      + ModelReplies(messages[1..])
  }

  function SteeringOf(trace: seq<Turn>): seq<string> {
    if trace == [] then [] else SteeringOf(trace[..|trace| - 1]) + trace[|trace| - 1].steering
  }

  function RepliesOf(trace: seq<Turn>): seq<Reply> {
    if trace == [] then []
    else
      var reply := trace[|trace| - 1].reply;
      RepliesOf(trace[..|trace| - 1]) + if reply.Some? then [reply.value] else []
  }

  lemma {:induction false} SaidConcat(a: seq<Message>, b: seq<Message>)
    ensures UserTexts(a + b) == UserTexts(a) + UserTexts(b) && ModelReplies(a + b) == ModelReplies(a) + ModelReplies(b)
    decreases |a|
  {
    if a == [] {
      assert a + b == b;
    } else {
      assert (a + b)[0] == a[0] && (a + b)[1..] == a[1..] + b;
      SaidConcat(a[1..], b);
    }
  }

  lemma {:induction false} SteeringSaid(texts: seq<string>)
    ensures UserTexts(Steering(texts)) == texts && ModelReplies(Steering(texts)) == []
    decreases |texts|
  {
    if texts != [] {
      assert Steering(texts)[1..] == Steering(texts[1..]);
      SteeringSaid(texts[1..]);
    }
  }

  lemma OneSaid(m: Message)
    ensures UserTexts([m]) == (if m.role == User then [m.content] else [])
    ensures ModelReplies([m]) == if m.role == Assistant then [Reply(m.content, if m.toolCalls.None? then [] else m.toolCalls.value)] else []
  {
    assert [m][0] == m && [m][1..] == [];
  }

  lemma {:induction false} ToolsSayNothing(messages: seq<Message>)
    requires forall i :: 0 <= i < |messages| ==> messages[i].role == Tool
    ensures UserTexts(messages) == [] && ModelReplies(messages) == []
    decreases |messages|
  {
    if messages != [] { ToolsSayNothing(messages[1..]); }
  }

  lemma AnswersSayNothing(before: seq<Attempt>, attempts: seq<Attempt>, max: int)
    ensures UserTexts(Answers(before, attempts, max)) == [] && ModelReplies(Answers(before, attempts, max)) == []
  {
    forall i | 0 <= i < |attempts| ensures Answers(before, attempts, max)[i].role == Tool {
      AnswersAt(before, attempts, max, i);
    }
    ToolsSayNothing(Answers(before, attempts, max));
  }

  lemma TurnSaid(limits: Limits, before: seq<Attempt>, t: Turn)
    ensures UserTexts(TurnMessages(limits, before, t)) == t.steering
    ensures ModelReplies(TurnMessages(limits, before, t)) == if t.reply.Some? then [t.reply.value] else []
  {
    SteeringSaid(t.steering);
    match t.reply
    case None =>
      assert TurnMessages(limits, before, t) == Steering(t.steering);
    case Some(reply) =>
      var tools := ToolMessages(limits, before, reply, t.attempts);
      SaidConcat(Steering(t.steering), [AssistantMessage(reply)] + tools);
      SaidConcat([AssistantMessage(reply)], tools);
      OneSaid(AssistantMessage(reply));
      AnswersSayNothing(before, t.attempts, limits.maxToolCalls);
      OneSaid(ToolMessage(GUARD, OverTurn(limits.maxToolCallsPerTurn), true));
  }

  /** A run adds the steering as what users said, and the replies as what the model said. */
  lemma {:induction false} RunSaid(limits: Limits, trace: seq<Turn>)
    ensures UserTexts(RunMessages(limits, trace)) == SteeringOf(trace) && ModelReplies(RunMessages(limits, trace)) == RepliesOf(trace)
    decreases |trace|
  {
    if trace != [] {
      var front, last := trace[..|trace| - 1], trace[|trace| - 1];
      RunSaid(limits, front);
      TurnSaid(limits, AttemptsOf(front), last);
      SaidConcat(RunMessages(limits, front), TurnMessages(limits, AttemptsOf(front), last));
    }
  }

  /** Every turn of a run met its part of the script, and all but the last asked for tools. */
  lemma {:induction false} WorkedTurns(limits: Limits, script: seq<TurnScript>, trace: seq<Turn>)
    requires Worked(limits, script, trace)
    ensures |trace| <= |script|
    ensures forall j :: 0 <= j < |trace| ==> Started(script[j], trace[j]) && trace[j].reply.Some? && trace[j].reply.value.toolCalls != []
    decreases |trace|
  {
    if trace != [] { WorkedTurns(limits, script, trace[..|trace| - 1]); }
  }

  lemma RunTurns(limits: Limits, script: seq<TurnScript>, trace: seq<Turn>, outcome: Outcome)
    requires IsRun(limits, script, trace, outcome)
    ensures |trace| <= |script|
    ensures forall j :: 0 <= j < |trace| ==>
              !script[j].aborted && trace[j].steering == script[j].steering && trace[j].reply == script[j].reply
    ensures forall j :: 0 <= j < |trace| - 1 ==> trace[j].reply.Some? && trace[j].reply.value.toolCalls != []
    ensures outcome.LimitReached? ==> forall j :: 0 <= j < |trace| ==> trace[j].reply.Some? && trace[j].reply.value.toolCalls != []
  {
    if Worked(limits, script, trace) {
      WorkedTurns(limits, script, trace);
    } else {
      var front := trace[..|trace| - 1];
      WorkedTurns(limits, script, front);
      assert forall j :: 0 <= j < |front| ==> trace[j] == front[j];
    }
  }

  // ---- the agent ----

  /** The history, behind the prompt if there is one and the history does not begin with it. */
  function WithSystemPrompt(history: seq<Message>, prompt: Option<string>): (r: seq<Message>)
    ensures r == history || (prompt.Some? && r == [Message(System, prompt.value, None, None, None)] + history)
    ensures prompt == None || prompt == Some("") ==> r == history
    ensures prompt.Some? && prompt.value != "" ==> r != [] && r[0].role == System && r[0].content == prompt.value
    ensures history != [] && history[0].role == System && prompt == Some(history[0].content) ==> r == history
  {
    if prompt.None? || prompt.value == "" then history
    else if history != [] && history[0].role == System && history[0].content == prompt.value then history
    else [SystemMessage(prompt.value)] + history
  }

  datatype Completion = Completion(outcome: Outcome, text: string, turns: nat, toolCalls: nat, messages: seq<Message>)

  ghost function KeySet(calls: seq<ToolCall>): set<string> { Elems(Keys(calls)) }

  class TonyAgent {
    const limits: Limits
    const systemPrompt: Option<string>
    var conversation: seq<Message>
    var running: bool

    constructor (limits: Limits, systemPrompt: Option<string>, history: seq<Message>)
      ensures this.limits == limits && this.systemPrompt == systemPrompt
      ensures conversation == WithSystemPrompt(history, systemPrompt) && !running
    {
      this.limits, this.systemPrompt := limits, systemPrompt;
      conversation, running := WithSystemPrompt(history, systemPrompt), false;
    }

    method SetHistory(history: seq<Message>) returns (ok: bool)
      modifies this`conversation
      ensures ok <==> !running
      ensures conversation == if ok then WithSystemPrompt(history, systemPrompt) else old(conversation)
    {
      if running { return false; }
      conversation := WithSystemPrompt(history, systemPrompt);
      return true;
    }

    /** How `run` starts: it refuses while another run is going on. */
    method Begin() returns (ok: bool)
      modifies this`running
      ensures ok == !old(running) && running
    {
      if running { return false; }
      running := true;
      return true;
    }

    /** How it goes on. Nothing changes the conversation in between. */
    method Complete(prompt: string, script: seq<TurnScript>) returns (r: Completion, trace: seq<Turn>, executed: seq<ToolCall>)
      requires running
      modifies this
      ensures !running && IsRun(limits, script, trace, r.outcome)
      ensures conversation == old(conversation) + [UserMessage(prompt)] + RunMessages(limits, trace)
      ensures executed == Ran(AttemptsOf(trace), limits.maxToolCalls)
      ensures !r.outcome.Threw? ==> r.messages == conversation && r.turns == |trace| && r.toolCalls == |AttemptsOf(trace)|
      ensures r.outcome.Finished? ==> r.text == r.outcome.text
      ensures r.outcome.LimitReached? ==> r.text == "Stopped: maximum turn limit (" + Numeral(limits.maxTurns) + ") reached."
    {
      var start := conversation + [UserMessage(prompt)];
      var messages, outcome, total;
      messages, outcome, trace, executed, total := LoopTurns(limits, start, script);
      conversation := messages;
      running := false;
      var text := match outcome
        case Finished(reply) => reply
        case LimitReached => "Stopped: maximum turn limit (" + Numeral(limits.maxTurns) + ") reached."
        case _ => "";
      r := Completion(outcome, text, |trace|, total, messages);
    }

    /** One run. `trace` and `executed` record what happened; the messages follow from the trace. */
    method Run(prompt: string, script: seq<TurnScript>) returns (r: Completion, trace: seq<Turn>, executed: seq<ToolCall>)
      modifies this
      ensures old(running) ==> r.outcome.AlreadyRunning? && running && conversation == old(conversation) && executed == []
      ensures !old(running) ==> !running && IsRun(limits, script, trace, r.outcome)
      ensures |trace| <= (if limits.maxTurns > 0 then limits.maxTurns else 0)
      ensures limits.maxTurns <= 0 && !old(running) ==> r.outcome.LimitReached? && trace == []
      ensures !old(running) ==> conversation == old(conversation) + [UserMessage(prompt)] + RunMessages(limits, trace)
      ensures !old(running) ==> executed == Ran(AttemptsOf(trace), limits.maxToolCalls)
      ensures forall call :: call in executed ==> exists a ::
                && a in AttemptsOf(trace) && a.call == call && a.verdict.registered
                && (a.verdict.policy == Some(Allow) || (a.verdict.policy == Some(Confirm) && a.verdict.resolver in {AllowOnce, AllowSession}))
      ensures !old(running) ==> |trace| <= |script| && forall j :: 0 <= j < |trace| ==>
                !script[j].aborted && trace[j].steering == script[j].steering && trace[j].reply == script[j].reply
      ensures forall j :: 0 <= j < |trace| - 1 ==> trace[j].reply.Some? && trace[j].reply.value.toolCalls != []
      ensures r.outcome.Finished? ==> trace != [] && trace[|trace| - 1].reply == Some(Reply(r.text, []))
      ensures r.outcome.LimitReached? ==> forall j :: 0 <= j < |trace| ==> trace[j].reply.Some? && trace[j].reply.value.toolCalls != []
      ensures !old(running) ==> UserTexts(conversation[|old(conversation)| + 1..]) == SteeringOf(trace)
      ensures !old(running) ==> ModelReplies(conversation[|old(conversation)| + 1..]) == RepliesOf(trace)
      ensures !old(running) ==> ErrorsTold(limits, trace, conversation[|old(conversation)| + 1..])
      ensures !r.outcome.Threw? && !r.outcome.AlreadyRunning? ==>
                r.messages == conversation && r.turns == |trace| && r.toolCalls == |AttemptsOf(trace)|
      ensures r.outcome.Finished? ==> r.text == r.outcome.text
      ensures r.outcome.LimitReached? ==> r.text == "Stopped: maximum turn limit (" + Numeral(limits.maxTurns) + ") reached."
    {
      var ok := Begin();
      if !ok { return Completion(AlreadyRunning, "", 0, 0, []), [], []; }
      r, trace, executed := Complete(prompt, script);
      RunTurns(limits, script, trace, r.outcome);
      RunSaid(limits, trace);
      RanAllowed(AttemptsOf(trace), limits.maxToolCalls);
      forall j, i | 0 <= j < |trace| && 0 <= i < |trace[j].attempts| ensures ErrorTold(limits, trace, RunMessages(limits, trace), j, i) {
        ErrorIsTold(limits, script, trace, r.outcome, j, i);
      }
      assert conversation[|old(conversation)| + 1..] == RunMessages(limits, trace);
    }
  }

  method LoopTurns(limits: Limits, start: seq<Message>, script: seq<TurnScript>)
    returns (messages: seq<Message>, outcome: Outcome, trace: seq<Turn>, executed: seq<ToolCall>, total: nat)
    ensures IsRun(limits, script, trace, outcome)
    ensures messages == start + RunMessages(limits, trace)
    ensures executed == Ran(AttemptsOf(trace), limits.maxToolCalls) && total == |AttemptsOf(trace)|
  {
    trace, executed, messages, total := [], [], start, 0;
    var seen: set<string> := {};
    while |trace| < limits.maxTurns
      invariant Worked(limits, script, trace) && (trace == [] || |trace| <= limits.maxTurns)
      invariant messages == start + RunMessages(limits, trace)
      invariant CallsDone(AttemptsOf(trace), limits.maxToolCalls, executed, seen) && total == |AttemptsOf(trace)|
      decreases limits.maxTurns - |trace|
    {
      if |trace| >= |script| || script[|trace|].aborted {
        return messages, Threw, trace, executed, total;
      }
      var added, t, end;
      added, t, executed, seen, end := TakeTurn(limits, script[|trace|], AttemptsOf(trace), executed, seen, total);
      TraceStep(limits, trace, t, start);
      messages, total, trace := messages + added, total + |t.attempts|, trace + [t];
      if end.Some? {
        return messages, end.value, trace, executed, total;
      }
    }
    return messages, LimitReached, trace, executed, total;
  }

  lemma TraceStep(limits: Limits, trace: seq<Turn>, t: Turn, start: seq<Message>)
    ensures (trace + [t])[..|trace|] == trace && (trace + [t])[|trace|] == t
    ensures AttemptsOf(trace + [t]) == AttemptsOf(trace) + t.attempts
    ensures start + RunMessages(limits, trace + [t]) == start + RunMessages(limits, trace) + TurnMessages(limits, AttemptsOf(trace), t)
  {
    assert (trace + [t])[..|trace|] == trace;
  }

  /** One pass of the outer loop, from the steering messages on; `end` is set when the run ends in it. */
  method TakeTurn(limits: Limits, world: TurnScript, ghost before: seq<Attempt>,
                  executed0: seq<ToolCall>, seen0: set<string>, total: nat)
    returns (added: seq<Message>, t: Turn, executed: seq<ToolCall>, seen: set<string>, end: Option<Outcome>)
    requires !world.aborted && total == |before| && CallsDone(before, limits.maxToolCalls, executed0, seen0)
    ensures added == TurnMessages(limits, before, t)
    ensures CallsDone(before + t.attempts, limits.maxToolCalls, executed, seen)
    ensures end == Some(Threw) || (end.Some? && end.value.Finished?) || end.None?
    ensures end == Some(Threw) ==> Interrupted(limits, world, total, t)
    ensures end != Some(Threw) ==> Completed(limits, world, total, t)
    ensures end.None? ==> t.reply.value.toolCalls != []
    ensures end.Some? && end.value.Finished? ==> t.reply == Some(Reply(end.value.text, []))
  {
    executed, seen := executed0, seen0;
    assert before + [] == before;
    if world.reply.None? {
      return Steering(world.steering), Turn(world.steering, None, []), executed, seen, Some(Threw);
    }
    var reply := world.reply.value;
    added := Steering(world.steering) + [AssistantMessage(reply)];
    if reply.toolCalls == [] {
      return added, Turn(world.steering, Some(reply), []), executed, seen, Some(Finished(reply.text));
    }
    if |reply.toolCalls| > limits.maxToolCallsPerTurn {
      added := added + [ToolMessage(GUARD, OverTurn(limits.maxToolCallsPerTurn), true)];
      return added, Turn(world.steering, Some(reply), []), executed, seen, None;
    }
    var answers, attempts, threw;
    answers, attempts, executed, seen, threw :=
      AnswerCalls(limits.maxToolCalls, reply.toolCalls, world.verdicts, before, executed0, seen0, total);
    added := added + answers;
    t := Turn(world.steering, Some(reply), attempts);
    end := if threw then Some(Threw) else None;
  }

  /** One call: its answer (none: the world stops the run), and whether it reaches a tool. */
  method AnswerCall(max: int, call: ToolCall, verdict: Verdict, ghost before: seq<Attempt>, ghost executed: seq<ToolCall>,
                    seen: set<string>, total0: nat)
    returns (answer: Option<Message>, executes: bool)
    requires total0 == |before| && CallsDone(before, max, executed, seen)
    ensures answer == if verdict.Stops(|before|, max) then None else Some(Answer(before, Attempt(call, verdict), max))
    ensures answer.Some? ==> executes == Runs(Attempt(call, verdict), |before| + 1, max, executed)
    ensures answer.None? <==>
              || verdict.aborted
              || (total0 < max && verdict.registered && verdict.policy.None?)
              || (total0 < max && verdict.registered && verdict.policy == Some(Confirm) && verdict.resolver == ResolverThrows)
    ensures answer.Some? ==> answer.value == Message(Tool, answer.value.content, Some(call.name), Some(call.id), None)
    ensures executes ==> answer.Some? && total0 < max && verdict.registered && Key(call) !in seen
    ensures executes ==> verdict.policy == Some(Allow) || (verdict.policy == Some(Confirm) && verdict.resolver in {AllowOnce, AllowSession})
    ensures executes ==>
              answer.value.content == if verdict.result.isError then "ERROR: " + verdict.result.content else verdict.result.content
    ensures answer.Some? && total0 >= max ==>
              !executes && answer.value.content == "ERROR: " + ("Stopped: total tool-call limit (" + Numeral(max) + ") exceeded.")
    ensures answer.Some? && total0 < max && !verdict.registered ==>
              !executes && answer.value.content == "ERROR: " + ("Unknown tool: " + call.name)
    ensures answer.Some? && total0 < max && verdict.registered ==>
              verdict.policy == Some(Deny) || (verdict.policy == Some(Confirm) && verdict.resolver in {NoResolver, Refuse}) ==>
                !executes && answer.value.content == "ERROR: " + ("Permission denied for tool " + call.name + ".")
    ensures answer.Some? && total0 < max && verdict.registered ==>
              verdict.policy == Some(Allow) || (verdict.policy == Some(Confirm) && verdict.resolver in {AllowOnce, AllowSession}) ==>
                executes == (Key(call) !in seen)
  {
    executes := false;
    if verdict.aborted { return None, false; }
    var total := total0 + 1;
    if total > max { return Some(ToolMessage(call, OverBudget(max), true)), false; }
    if !verdict.registered { return Some(ToolMessage(call, "Unknown tool: " + call.name, true)), false; }
    if verdict.policy.None? { return None, false; }
    var allowed := verdict.policy.value.Allow?;
    if verdict.policy.value.Confirm? {
      if verdict.resolver.ResolverThrows? { return None, false; }
      allowed := verdict.resolver.AllowOnce? || verdict.resolver.AllowSession?;
    }
    if !allowed {
      answer := Some(ToolMessage(call, "Permission denied for tool " + call.name + ".", true));
    } else if Key(call) in seen {
      answer := Some(ToolMessage(call, "Repeated tool call detected for " + call.name + "; stopped to prevent a loop.", true));
    } else {
      executes := true;
      answer := Some(ToolMessage(call, verdict.result.content, verdict.result.isError));
    }
  }

  ghost predicate CallsDone(done: seq<Attempt>, max: int, executed: seq<ToolCall>, seen: set<string>) {
    executed == Ran(done, max) && seen == KeySet(executed)
  }

  lemma DoneStep(done: seq<Attempt>, max: int, executed: seq<ToolCall>, seen: set<string>, a: Attempt)
    requires CallsDone(done, max, executed, seen)
    ensures Runs(a, |done| + 1, max, executed) ==> CallsDone(done + [a], max, executed + [a.call], seen + {Key(a.call)})
    ensures !Runs(a, |done| + 1, max, executed) ==> CallsDone(done + [a], max, executed, seen)
  {
    assert (done + [a])[..|done|] == done;
    KeySetStep(executed, a.call);
  }

  lemma KeySetStep(calls: seq<ToolCall>, call: ToolCall)
    ensures KeySet(calls + [call]) == KeySet(calls) + {Key(call)}
  {
    assert Keys(calls + [call]) == Keys(calls) + [Key(call)];
    ElemsStep(Keys(calls), Key(call));
  }

  lemma ElemsStep<T>(s: seq<T>, x: T)
    ensures Elems(s + [x]) == Elems(s) + {x}
  {
  }

  lemma AnswersStep(before: seq<Attempt>, attempts: seq<Attempt>, a: Attempt, max: int)
    ensures Answers(before, attempts + [a], max) == Answers(before, attempts, max) + [Answer(before + attempts, a, max)]
    ensures before + (attempts + [a]) == before + attempts + [a]
  {
    assert (attempts + [a])[..|attempts|] == attempts;
  }

  lemma AnsweredStep(calls: seq<ToolCall>, verdicts: seq<Verdict>, attempts: seq<Attempt>, done: nat, max: int, a: Attempt)
    requires Answered(calls, verdicts, attempts, done, max) && |attempts| < |calls|
    requires !StopsAt(verdicts, |attempts|, done, max) && a == Attempt(calls[|attempts|], verdicts[|attempts|])
    ensures Answered(calls, verdicts, attempts + [a], done, max)
  {
  }

  /** The answers to the first calls of a reply, and the calls run so far. */
  ghost predicate Progress(max: int, calls: seq<ToolCall>, verdicts: seq<Verdict>, before: seq<Attempt>, attempts: seq<Attempt>,
                           answers: seq<Message>, executed: seq<ToolCall>, seen: set<string>)
  {
    && Answered(calls, verdicts, attempts, |before|, max) && answers == Answers(before, attempts, max)
    && CallsDone(before + attempts, max, executed, seen)
  }

  lemma ProgressStep(max: int, calls: seq<ToolCall>, verdicts: seq<Verdict>, before: seq<Attempt>, attempts: seq<Attempt>,
                     answers: seq<Message>, executed: seq<ToolCall>, seen: set<string>, a: Attempt, runs: bool)
    requires Progress(max, calls, verdicts, before, attempts, answers, executed, seen) && |attempts| < |calls|
    requires !StopsAt(verdicts, |attempts|, |before|, max) && a == Attempt(calls[|attempts|], verdicts[|attempts|])
    requires runs == Runs(a, |before| + |attempts| + 1, max, executed)
    ensures Progress(max, calls, verdicts, before, attempts + [a], answers + [Answer(before + attempts, a, max)],
                     if runs then executed + [a.call] else executed, if runs then seen + {Key(a.call)} else seen)
  {
    DoneStep(before + attempts, max, executed, seen, a);
    AnswersStep(before, attempts, a, max);
    AnsweredStep(calls, verdicts, attempts, |before|, max, a);
  }

  /** One pass of the loop over the calls of a reply. */
  method AnswerNext(max: int, calls: seq<ToolCall>, verdicts: seq<Verdict>, ghost before: seq<Attempt>, attempts0: seq<Attempt>,
                    answers0: seq<Message>, executed0: seq<ToolCall>, seen0: set<string>, total: nat)
    returns (answers: seq<Message>, attempts: seq<Attempt>, executed: seq<ToolCall>, seen: set<string>, threw: bool)
    requires Progress(max, calls, verdicts, before, attempts0, answers0, executed0, seen0)
    requires |attempts0| < |calls| && total == |before| + |attempts0|
    ensures Progress(max, calls, verdicts, before, attempts, answers, executed, seen)
    ensures threw == StopsAt(verdicts, |attempts0|, |before|, max) && |attempts| == |attempts0| + if threw then 0 else 1
  {
    answers, attempts, executed, seen, threw := answers0, attempts0, executed0, seen0, true;
    var i := |attempts0|;
    if i >= |verdicts| { return; }
    var a := Attempt(calls[i], verdicts[i]);
    var answer, executes := AnswerCall(max, calls[i], verdicts[i], before + attempts0, executed0, seen0, total);
    if answer.None? { return; }
    ProgressStep(max, calls, verdicts, before, attempts0, answers0, executed0, seen0, a, executes);
    if executes {
      executed, seen := executed + [a.call], seen + {Key(a.call)};
    }
    answers, attempts, threw := answers + [answer.value], attempts + [a], false;
  }

  method AnswerCalls(max: int, calls: seq<ToolCall>, verdicts: seq<Verdict>, ghost before: seq<Attempt>,
                     executed0: seq<ToolCall>, seen0: set<string>, total0: nat)
    returns (answers: seq<Message>, attempts: seq<Attempt>, executed: seq<ToolCall>, seen: set<string>, threw: bool)
    requires total0 == |before| && CallsDone(before, max, executed0, seen0)
    ensures Answered(calls, verdicts, attempts, total0, max)
    ensures answers == Answers(before, attempts, max) && CallsDone(before + attempts, max, executed, seen)
    ensures !threw ==> |attempts| == Share(|calls|, total0, max)
    ensures threw ==> |attempts| < Share(|calls|, total0, max) && StopsAt(verdicts, |attempts|, total0, max)
  {
    answers, attempts, executed, seen, threw := [], [], executed0, seen0, false;
    var total := total0;
    assert before + [] == before;
    while |attempts| < |calls|
      invariant Progress(max, calls, verdicts, before, attempts, answers, executed, seen)
      invariant |attempts| <= |calls| && total == total0 + |attempts| && (attempts != [] ==> total <= max) && !threw
    {
      answers, attempts, executed, seen, threw :=
        AnswerNext(max, calls, verdicts, before, attempts, answers, executed, seen, total);
      if threw { return; }
      total := total + 1;
      if total > max { break; }
    }
  }
}
