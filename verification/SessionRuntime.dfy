// A live session: the log, the shared history, and the agent's conversation, kept in step.
module SessionRuntime {
  import opened IdOrder
  import opened Text
  import opened SessionStore
  import opened Transcript
  import opened TonyAgent
  import opened AgentTheorems

  // ---- what compaction keeps ----

  /** Where `slice(-k)` starts in a list of `n`: zero keeps everything, a negative `k` drops from the front. */
  function SliceStart(n: nat, k: int): (start: nat)
    ensures start <= n && (k == 0 ==> start == 0)
    ensures k > 0 ==> n - start == if k < n then k else n
    ensures k < 0 ==> start == if -k < n then -k else n
  {
    if k == 0 then 0 else if k > 0 then (if k < n then n - k else 0) else if -k < n then -k else n
  }

  function IdsOf(entries: seq<Entry>): set<EntryId> { set e | e in entries :: e.id }

  lemma {:induction false} KeepAll(entries: seq<Entry>, keep: set<EntryId>)
    requires forall e :: e in entries ==> e.id in keep
    ensures Keep(entries, keep) == entries
    decreases |entries|
  {
    if entries != [] {
      KeepAll(entries[1..], keep);
    }
  }

  /** Keeping the ids of a suffix keeps exactly that suffix. */
  lemma {:induction false} KeepSuffix(entries: seq<Entry>, start: nat)
    requires start <= |entries| && Distinct(EntryIds(entries))
    ensures Keep(entries, IdsOf(entries[start..])) == entries[start..]
    decreases start
  {
    if start == 0 {
      assert entries[0..] == entries;
      KeepAll(entries, IdsOf(entries));
    } else {
      var rest := entries[1..];
      assert rest[start - 1..] == entries[start..];
      forall i, j | 0 <= i < j < |rest| ensures EntryIds(rest)[i] != EntryIds(rest)[j] {
        assert EntryIds(entries)[i + 1] != EntryIds(entries)[j + 1];
      }
      KeepSuffix(rest, start - 1);
      FirstNotLater(entries, start);
    }
  }

  lemma FirstNotLater(entries: seq<Entry>, start: nat)
    requires 0 < start <= |entries| && Distinct(EntryIds(entries))
    ensures entries[0].id !in IdsOf(entries[start..])
  {
    forall e | e in entries[start..] ensures e.id != entries[0].id {
      var k :| start <= k < |entries| && entries[k] == e;
      assert EntryIds(entries)[0] != EntryIds(entries)[k];
    }
  }

  lemma {:induction false} RechainBodies(kept: seq<Entry>, parent: EntryId)
    ensures Derive(Rechain(kept, parent)) == Derive(kept)
    decreases |kept|
  {
    if kept != [] {
      RechainBodies(kept[1..], kept[0].id);
      var head := [kept[0].(parent := Some(parent))];
      DeriveConcat(head, Rechain(kept[1..], kept[0].id));
      DeriveConcat([kept[0]], kept[1..]);
      assert kept == [kept[0]] + kept[1..];
    }
  }

  lemma ChainView(head: Entry, kept: seq<Entry>, parent: EntryId)
    ensures Derive([head] + Rechain(kept, parent)) == [MessageOf(head.body)] + Derive(kept)
  {
    RechainBodies(kept, parent);
    DeriveConcat([head], Rechain(kept, parent));
    DeriveSingle(head);
  }

  /** What the model sees after compacting to `kept`. */
  lemma CompactedView(entries: seq<Entry>, keep: set<EntryId>, kept: seq<Entry>, summaryId: EntryId, s: SessionId, text: string)
    requires Keep(entries, keep) == kept
    ensures Derive(Compacted(entries, keep, summaryId, s, text)) == [SummaryMessage(text)] + Derive(kept)
    ensures SummaryMessage(text) == Message(System, "Earlier session summary:\n" + text, None, None, None)
  {
    var head := Entry(summaryId, s, None, Draft(SummaryEntry, text, None, None, None), Drop(entries, keep));
    ChainView(head, kept, summaryId);
  }

  lemma DeriveSingle(e: Entry)
    ensures Derive([e]) == [MessageOf(e.body)]
  {
  }

  lemma DeriveDrop(entries: seq<Entry>, start: nat)
    requires start <= |entries|
    ensures Derive(entries[start..]) == Derive(entries)[start..]
  {
  }

  // ---- agreement ----

  /** Between asks: the log holds the history, which the conversation extends by messages the log can hold. */
  ghost predicate Agrees(log: seq<Entry>, history: seq<Message>, conversation: seq<Message>) {
    Derive(log) == history <= conversation && AllLoggable(conversation[|history|..])
  }

  /** Log, history and conversation are one and the same. */
  ghost predicate Settled(log: seq<Entry>, history: seq<Message>, conversation: seq<Message>) {
    Derive(log) == history == conversation
  }

  /** What the log holds once an ask has run: `history` messages are taken to be there already. */
  function LogView(view: seq<Message>, history: nat, messages: seq<Message>): seq<Message> {
    view + LoggedAll(if history <= |messages| then messages[history..] else [])
  }

  /** A successful ask settles exactly when the log showed the history and everything it logs is loggable. */
  lemma AskSettlesIff(view: seq<Message>, history: seq<Message>, messages: seq<Message>)
    requires history <= messages
    ensures LogView(view, |history|, messages) == messages <==> view == history && AllLoggable(messages[|history|..])
  {
    var added := messages[|history|..];
    LoggedIffLoggable(added);
    assert messages == history + added;
    if LogView(view, |history|, messages) == messages {
      assert view == messages[..|history|] && LoggedAll(added) == messages[|history|..];
    }
  }

  /** A reset or compaction that comes while an ask runs rewrites the log and then throws; the ask appends behind it what
      lies beyond the old history. The two are back in step only if the rewriting changed nothing: it replaced one entry,
      a summary with the same text. */
  lemma RewriteDuringAskIff(history: seq<Message>, messages: seq<Message>, text: string, start: nat)
    requires history <= messages && start <= |history|
    ensures LogView([SummaryMessage(text)] + history[start..], |history|, messages) == messages <==>
            start == 1 && history[0] == SummaryMessage(text) && AllLoggable(messages[|history|..])
  {
    var view := [SummaryMessage(text)] + history[start..];
    AskSettlesIff(view, history, messages);
    if view == history {
      assert |view| == 1 + |history| - start;
    }
    if start == 1 && history[0] == SummaryMessage(text) {
      assert history == [history[0]] + history[1..];
    }
  }

  /** After opening, resetting or compacting, the conversation is the history behind the system prompt. The next
      successful ask settles exactly when the history was empty or already began with the prompt. */
  lemma PromptAgreementIff(history: seq<Message>, prompt: Option<string>, added: seq<Message>)
    requires AllLoggable(added)
    ensures var messages := WithSystemPrompt(history, prompt) + added;
            LogView(history, |history|, messages) == messages <==>
            history == [] || prompt == None || prompt == Some("") || (history[0].role == System && prompt == Some(history[0].content))
  {
    var before := WithSystemPrompt(history, prompt);
    var messages := before + added;
    LoggedIffLoggable(added);
    if before == history {
      assert messages[|history|..] == added;
    } else if history == [] {
      assert messages[0..] == messages && messages == [SystemMessage(prompt.value)] + added;
      LoggableConcat([SystemMessage(prompt.value)], added);
      LoggedIffLoggable(messages);
    } else {
      PromptNotFirst(history, prompt);
      assert LogView(history, |history|, messages)[0] == history[0];
      assert messages[0] == SystemMessage(prompt.value);
    }
  }

  lemma PromptNotFirst(history: seq<Message>, prompt: Option<string>)
    requires history != [] && WithSystemPrompt(history, prompt) != history
    ensures prompt.Some? && history[0] != SystemMessage(prompt.value)
    ensures WithSystemPrompt(history, prompt) == [SystemMessage(prompt.value)] + history
  {
  }

  /** Otherwise the last message of the history is logged a second time. */
  lemma PromptRepeatsLast(history: seq<Message>, prompt: Option<string>, added: seq<Message>)
    requires history != [] && prompt.Some? && prompt.value != "" && AllLoggable(added)
    requires history[0].role == System ==> history[0].content != prompt.value
    ensures LogView(history, |history|, WithSystemPrompt(history, prompt) + added) ==
            history + [Logged(history[|history| - 1])] + added
  {
    PromptNotFirst(history, prompt);
    var messages := [SystemMessage(prompt.value)] + history + added;
    assert messages[|history|..] == [history[|history| - 1]] + added;
    LoggedIffLoggable(added);
    assert LoggedAll([history[|history| - 1]] + added) == [Logged(history[|history| - 1])] + LoggedAll(added);
  }

  /** Every call the model asks for has an id and a name. */
  predicate NamedScript(script: seq<TurnScript>) {
    forall i :: 0 <= i < |script| && script[i].reply.Some? ==> NamedCalls(script[i].reply.value.toolCalls)
  }

  predicate NamedCalls(calls: seq<ToolCall>) { forall i :: 0 <= i < |calls| ==> calls[i].id != "" && calls[i].name != "" }

  lemma {:induction false} AttemptsNamed(calls: seq<ToolCall>, verdicts: seq<Verdict>, attempts: seq<Attempt>, done: nat, max: int)
    requires NamedCalls(calls) && Answered(calls, verdicts, attempts, done, max)
    ensures AllNamed(attempts)
    decreases |attempts|
  {
    if attempts != [] {
      var n := |attempts| - 1;
      assert !StopsAt(verdicts, n, done, max) && attempts[n] == Attempt(calls[n], verdicts[n]);
      AttemptsNamed(calls, verdicts, attempts[..n], done, max);
    }
  }

  lemma TurnNamed(limits: Limits, script: TurnScript, done: nat, t: Turn)
    requires Completed(limits, script, done, t) || Interrupted(limits, script, done, t)
    requires script.reply.Some? ==> NamedCalls(script.reply.value.toolCalls)
    ensures NamedTurn(limits, t)
  {
    if t.reply.Some? {
      AttemptsNamed(t.reply.value.toolCalls, script.verdicts, t.attempts, done, limits.maxToolCalls);
    }
  }

  lemma {:induction false} WorkedNamed(limits: Limits, script: seq<TurnScript>, trace: seq<Turn>)
    requires Worked(limits, script, trace) && NamedScript(script)
    ensures NamedTrace(limits, trace)
    decreases |trace|
  {
    if trace != [] {
      var front, last := trace[..|trace| - 1], trace[|trace| - 1];
      WorkedNamed(limits, script, front);
      TurnNamed(limits, script[|front|], |AttemptsOf(front)|, last);
    }
  }

  lemma RunNamed(limits: Limits, script: seq<TurnScript>, trace: seq<Turn>, outcome: Outcome)
    requires IsRun(limits, script, trace, outcome) && NamedScript(script)
    ensures AllLoggable(RunMessages(limits, trace))
  {
    RunLoggableIffNamed(limits, trace);
    if Worked(limits, script, trace) {
      WorkedNamed(limits, script, trace);
    } else {
      var front, last := trace[..|trace| - 1], trace[|trace| - 1];
      WorkedNamed(limits, script, front);
      TurnNamed(limits, script[|front|], |AttemptsOf(front)|, last);
    }
  }

  /** A run keeps what lies before it, and adds nothing the log would drop when every call is named. */
  lemma ExtensionLoggable(limits: Limits, script: seq<TurnScript>, history: seq<Message>, before: seq<Message>, prompt: string,
                          outcome: Outcome, after: seq<Message>)
    requires history <= before && RunExtends(limits, script, before, prompt, outcome, after)
    ensures history <= after && before < after
    ensures NamedScript(script) && AllLoggable(before[|history|..]) ==> AllLoggable(after[|history|..])
  {
    var trace :| IsRun(limits, script, trace, outcome) && after == before + [UserMessage(prompt)] + RunMessages(limits, trace);
    if NamedScript(script) && AllLoggable(before[|history|..]) {
      RunNamed(limits, script, trace, outcome);
      ConversationGrows(history, before, prompt, RunMessages(limits, trace));
    }
  }

  /** The conversation after a run with this outcome: the prompt and the messages of one of the loop's runs are added. */
  ghost predicate RunExtends(limits: Limits, script: seq<TurnScript>, before: seq<Message>, prompt: string, outcome: Outcome,
                             after: seq<Message>)
  {
    exists trace ::
      IsRun(limits, script, trace, outcome) && after == before + [UserMessage(prompt)] + RunMessages(limits, trace)
  }

  // ---- the session ----

  function LastOf<T>(s: seq<T>): seq<T> { if s == [] then [] else s[|s| - 1..] }

  const RESET_NOTE := "Session reset by user."

  /** What can happen to a session. The parts of an ask are apart, so that anything can come while it runs. */
  datatype Operation =
    | DoBegin
    | DoEnd(prompt: string, script: seq<TurnScript>)
    | DoReset
    | DoCompact(summary: string, keepRecent: int)
  {
    predicate Rewrites() { DoReset? || DoCompact? }

    /** It does not rewrite the log under a running ask, and brings no call without id or name. */
    predicate Harmless(running: bool) { (Rewrites() ==> !running) && (DoEnd? ==> NamedScript(script)) }
  }

  predicate RunsAfter(running: bool, op: Operation) { op.DoBegin? || (running && !op.DoEnd?) }

  predicate RunningAfter(operations: seq<Operation>) {
    operations != [] && RunsAfter(RunningAfter(operations[..|operations| - 1]), operations[|operations| - 1])
  }

  predicate AllHarmless(operations: seq<Operation>) {
    operations == [] ||
    var front := operations[..|operations| - 1];
    AllHarmless(front) && operations[|operations| - 1].Harmless(RunningAfter(front))
  }

  class TonySession {
    const store: SessionStore
    const agent: TonyAgent
    const id: SessionId
    var history: seq<Message>

    ghost predicate Valid()
      reads store
    {
      store.Valid() && id in store.sessions
    }

    function Log(): seq<Entry>
      requires id in store.sessions
      reads store
    {
      store.sessions[id]
    }

    ghost predicate InAgreement()
      requires id in store.sessions
      reads this, store, agent
    {
      Agrees(Log(), history, agent.conversation)
    }

    ghost predicate IsSettled()
      requires id in store.sessions
      reads this, store, agent
    {
      Settled(Log(), history, agent.conversation)
    }

    /** `hydrate`: the history and the agent are built from the log. */
    constructor (store: SessionStore, id: SessionId, limits: Limits, systemPrompt: Option<string>)
      requires store.Valid() && id in store.sessions
      ensures this.store == store && this.id == id && fresh(agent) && Valid()
      ensures agent.limits == limits && agent.systemPrompt == systemPrompt && !agent.running
      ensures history == Derive(store.sessions[id]) && agent.conversation == WithSystemPrompt(history, systemPrompt)
    {
      this.store, this.id := store, id;
      var entries := store.sessions[id];
      history := Derive(entries);
      agent := new TonyAgent(limits, systemPrompt, Derive(entries));
    }

    method PersistMessages(messages: seq<Message>, previousLength: nat)
      requires Valid()
      modifies store
      ensures Valid() && store.sessions == old(store.sessions)[id := Log()]
      ensures Derive(Log()) == LogView(Derive(old(Log())), previousLength, messages)
    {
      var appended := if previousLength <= |messages| then messages[previousLength..] else [];
      for i := 0 to |appended|
        invariant Valid() && store.sessions == old(store.sessions)[id := Log()]
        invariant Derive(Log()) == Derive(old(Log())) + LoggedAll(appended[..i])
      {
        ghost var before := Log();
        var r := store.Append(id, DraftOf(appended[i]), None);
        assert appended[..i + 1] == appended[..i] + [appended[i]];
        PersistStep(before, r.value, Derive(old(Log())), appended[..i], appended[i]);
      }
      assert appended[..|appended|] == appended;
    }

    /** The part of an ask behind `Begin`. A throw leaves log and history alone; a success logs what lies beyond the
        history's length. */
    method EndAsk(prompt: string, script: seq<TurnScript>) returns (r: Completion)
      requires Valid() && agent.running
      modifies this`history, store, agent
      ensures Valid() && !agent.running && !r.outcome.AlreadyRunning?
      ensures RunExtends(agent.limits, script, old(agent.conversation), prompt, r.outcome, agent.conversation)
      ensures r.outcome.Threw? ==> history == old(history) && store.sessions == old(store.sessions)
      ensures !r.outcome.Threw? ==>
                history == agent.conversation && store.sessions == old(store.sessions)[id := Log()]
                && Derive(Log()) == LogView(Derive(old(Log())), old(|history|), history)
    {
      var trace, executed;
      r, trace, executed := agent.Complete(prompt, script);
      if r.outcome.Threw? { return; }
      PersistMessages(r.messages, |history|);
      history := r.messages;
    }

    method Ask(prompt: string, script: seq<TurnScript>) returns (r: Completion)
      requires Valid()
      modifies this`history, store, agent
      ensures Valid() && (old(agent.running) <==> r.outcome.AlreadyRunning?)
      ensures old(agent.running) ==> agent.running && agent.conversation == old(agent.conversation)
      ensures !old(agent.running) ==>
                !agent.running && RunExtends(agent.limits, script, old(agent.conversation), prompt, r.outcome, agent.conversation)
      ensures r.outcome.Threw? || r.outcome.AlreadyRunning? ==> history == old(history) && store.sessions == old(store.sessions)
      ensures r.outcome.Finished? || r.outcome.LimitReached? ==>
                history == agent.conversation && store.sessions == old(store.sessions)[id := Log()]
                && Derive(Log()) == LogView(Derive(old(Log())), old(|history|), history)
    {
      var ok := agent.Begin();
      if !ok { return Completion(AlreadyRunning, "", 0, 0, []); }
      r := EndAsk(prompt, script);
    }

    /** The store's part of a compaction to the entries from `start` on. */
    method RewriteLog(summary: string, start: nat)
      requires Valid() && start <= |Log()|
      modifies store
      ensures Valid() && store.sessions == old(store.sessions)[id := Log()]
      ensures Derive(Log()) == [SummaryMessage(Trim(summary))] + Derive(old(Log()))[start..]
    {
      var entries := Log();
      var keep := IdsOf(entries[start..]);
      assert ValidSession(id, entries, store.nextId, store.owner);
      KeepSuffix(entries, start);
      DeriveDrop(entries, start);
      CompactedView(entries, keep, entries[start..], store.nextId, id, Trim(summary));
      var r := store.Compact(id, summary, keep);
    }

    /** The history and the agent are built from the log again; a running agent refuses. */
    method Refresh() returns (ok: bool)
      requires Valid()
      modifies this`history, agent`conversation
      ensures Valid() && ok == !agent.running
      ensures ok ==> history == Derive(Log()) && agent.conversation == WithSystemPrompt(history, agent.systemPrompt)
      ensures !ok ==> history == old(history) && agent.conversation == old(agent.conversation)
    {
      var refreshed := Derive(Log());
      ok := agent.SetHistory(refreshed);
      if ok { history := refreshed; }
    }

    /** Compaction to the entries from `start` on, shared by reset and compact. Throws, after rewriting the log, in a running agent. */
    method CompactFrom(summary: string, start: nat) returns (ok: bool)
      requires Valid() && start <= |Log()|
      modifies this`history, store, agent`conversation
      ensures Valid() && store.sessions == old(store.sessions)[id := Log()] && ok == !agent.running
      ensures Derive(Log()) == [SummaryMessage(Trim(summary))] + Derive(old(Log()))[start..]
      ensures ok ==> history == Derive(Log()) && agent.conversation == WithSystemPrompt(history, agent.systemPrompt)
      ensures !ok ==> history == old(history) && agent.conversation == old(agent.conversation)
    {
      RewriteLog(summary, start);
      ok := Refresh();
    }

    method Reset() returns (ok: bool)
      requires Valid()
      modifies this`history, store, agent`conversation
      ensures Valid() && store.sessions == old(store.sessions)[id := Log()] && ok == !agent.running
      ensures Derive(Log()) == [SummaryMessage(RESET_NOTE)] + LastOf(Derive(old(Log())))
      ensures ok ==> history == Derive(Log()) && agent.conversation == WithSystemPrompt(history, agent.systemPrompt)
      ensures !ok ==> history == old(history) && agent.conversation == old(agent.conversation)
    {
      TrimTight(RESET_NOTE);
      ok := CompactFrom(RESET_NOTE, if Log() == [] then 0 else |Log()| - 1);
    }

    method Compact(summary: string, keepRecent: int) returns (ok: bool)
      requires Valid()
      modifies this`history, store, agent`conversation
      ensures Valid() && store.sessions == old(store.sessions)[id := Log()] && ok == !agent.running
      ensures Derive(Log()) == [SummaryMessage(Trim(summary))]
                               + Derive(old(Log()))[SliceStart(|old(Log())|, keepRecent)..]
      ensures ok ==> history == Derive(Log()) && agent.conversation == WithSystemPrompt(history, agent.systemPrompt)
      ensures !ok ==> history == old(history) && agent.conversation == old(agent.conversation)
    {
      ok := CompactFrom(summary, SliceStart(|Log()|, keepRecent));
    }

    ghost predicate NoPrompt() { agent.systemPrompt.None? || agent.systemPrompt.value == "" }

    /** Without a system prompt, any operations in any order leave a history the conversation extends. If no reset or
        compaction comes while an ask runs, and every call has an id and a name, log, history and conversation stay in
        agreement and are settled by every operation that succeeds. */
    method Perform(operations: seq<Operation>) returns (succeeded: seq<bool>)
      requires Valid() && NoPrompt() && InAgreement() && !agent.running
      modifies this`history, store, agent
      ensures Valid() && history <= agent.conversation && |succeeded| == |operations|
      ensures agent.running == RunningAfter(operations)
      ensures AllHarmless(operations) ==> InAgreement()
      ensures operations != [] && succeeded[|succeeded| - 1] ==>
                var last := operations[|operations| - 1];
                (last.Rewrites() || (last.DoEnd? && AllHarmless(operations))) ==> IsSettled()
    {
      succeeded := [];
      for i := 0 to |operations|
        invariant Valid() && history <= agent.conversation && |succeeded| == i && agent.running == RunningAfter(operations[..i])
        invariant AllHarmless(operations[..i]) ==> InAgreement()
        invariant i > 0 && succeeded[i - 1] ==>
                    (operations[i - 1].Rewrites() || (operations[i - 1].DoEnd? && AllHarmless(operations[..i]))) ==> IsSettled()
      {
        assert operations[..i + 1][..i] == operations[..i] && operations[..i + 1][i] == operations[i];
        var ok := Step(operations[i]);
        succeeded := succeeded + [ok];
      }
      assert operations[..|operations|] == operations;
    }

    /** One operation; an end without a beginning changes nothing. */
    method Step(op: Operation) returns (ok: bool)
      requires Valid() && NoPrompt() && history <= agent.conversation
      modifies this`history, store, agent
      ensures Valid() && history <= agent.conversation && agent.running == RunsAfter(old(agent.running), op)
      ensures ok && op.DoEnd? ==> old(history) <= agent.conversation
      ensures ok && op.DoEnd? ==>
                (IsSettled() <==> Derive(old(Log())) == old(history) && AllLoggable(agent.conversation[|old(history)|..]))
      ensures op.Rewrites() ==> ok == !old(agent.running) && (ok ==> IsSettled())
      ensures !ok ==> history == old(history) && old(agent.conversation) <= agent.conversation
      ensures !ok && !op.Rewrites() ==> Log() == old(Log())
      ensures old(InAgreement()) && op.Harmless(old(agent.running)) ==> InAgreement() && (ok && op.DoEnd? ==> IsSettled())
    {
      match op
      case DoBegin => ok := agent.Begin();
      case DoReset => ok := Reset();
      case DoCompact(summary, keepRecent) => ok := Compact(summary, keepRecent);
      case DoEnd(prompt, script) =>
        if !agent.running { return false; }
        ghost var view0, history0, conversation0 := Derive(Log()), history, agent.conversation;
        var r := EndAsk(prompt, script);
        ok := !r.outcome.Threw?;
        ExtensionLoggable(agent.limits, script, history0, conversation0, prompt, r.outcome, agent.conversation);
        AskSettlesIff(view0, history0, agent.conversation);
    }
  }

  lemma PersistStep(log: seq<Entry>, e: Entry, view: seq<Message>, sent: seq<Message>, m: Message)
    requires Derive(log) == view + LoggedAll(sent) && e.body == Stored(DraftOf(m))
    ensures Derive(log + [e]) == view + LoggedAll(sent + [m])
  {
    DeriveConcat(log, [e]);
    DeriveSingle(e);
    assert LoggedAll(sent + [m]) == LoggedAll(sent) + [Logged(m)];
    Associative(view, LoggedAll(sent), [Logged(m)]);
  }

  lemma ConversationGrows(history: seq<Message>, conversation: seq<Message>, prompt: string, added: seq<Message>)
    requires history <= conversation && AllLoggable(conversation[|history|..]) && AllLoggable(added)
    ensures var next := conversation + [UserMessage(prompt)] + added;
            history <= next && conversation < next && AllLoggable(next[|history|..])
  {
    var next := conversation + [UserMessage(prompt)] + added;
    var pending := conversation[|history|..];
    LoggableConcat([UserMessage(prompt)], added);
    LoggableConcat(pending, [UserMessage(prompt)] + added);
    LoggableSingle(UserMessage(prompt));
    assert next[|history|..] == pending + ([UserMessage(prompt)] + added);
  }
}
