// What every run of the agent loop keeps: budgets, permission, answers, and what the log can hold.
module AgentTheorems {
  import opened IdOrder
  import opened Text
  import opened SessionStore
  import opened Transcript
  import opened TonyAgent

  // ---- budgets and permission ----

  /** Some call within the budget is registered, permitted and has this key. */
  ghost predicate Cleared(attempts: seq<Attempt>, max: int, key: string) {
    exists i :: 0 <= i < |attempts| && i < max && MayRun(attempts[i], key)
  }

  predicate MayRun(a: Attempt, key: string) {
    && a.verdict.registered && a.call.name + ":" + a.call.arguments == key
    && (a.verdict.policy == Some(Allow) || (a.verdict.policy == Some(Confirm) && a.verdict.resolver in {AllowOnce, AllowSession}))
  }

  lemma ClearedStep(attempts: seq<Attempt>, a: Attempt, max: int, key: string)
    ensures Cleared(attempts + [a], max, key) <==> Cleared(attempts, max, key) || (|attempts| < max && MayRun(a, key))
  {
    var all := attempts + [a];
    if Cleared(attempts, max, key) {
      var i :| 0 <= i < |attempts| && i < max && MayRun(attempts[i], key);
      assert MayRun(all[i], key);
    }
    if |attempts| < max && MayRun(a, key) {
      assert MayRun(all[|attempts|], key);
    }
  }

  /** Each key runs at most once, and runs exactly when some call with it was cleared within the budget. */
  lemma {:induction false} RunsOnceIffCleared(attempts: seq<Attempt>, max: int)
    ensures Distinct(Keys(Ran(attempts, max)))
    ensures forall key :: key in Keys(Ran(attempts, max)) <==> Cleared(attempts, max, key)
    ensures |Ran(attempts, max)| <= |attempts| && |Ran(attempts, max)| <= if max > 0 then max else 0
    decreases |attempts|
  {
    if attempts != [] {
      var front, last := attempts[..|attempts| - 1], attempts[|attempts| - 1];
      RunsOnceIffCleared(front, max);
      var prior := Ran(front, max);
      assert attempts == front + [last] && Keys(prior + [last.call]) == Keys(prior) + [Key(last.call)];
      forall key ensures key in Keys(Ran(attempts, max)) <==> Cleared(attempts, max, key) {
        ClearedStep(front, last, max, key);
      }
    }
  }

  /** No key of a registered tool is shared by two different calls: registered names have no colon. */
  lemma {:induction false} KeyIdentifiesCall(name: string, args: string, name': string, args': string)
    requires ':' !in name && ':' !in name'
    requires name + ":" + args == name' + ":" + args'
    ensures name == name' && args == args'
    decreases |name|
  {
    var whole, whole' := name + ":" + args, name' + ":" + args';
    assert whole[0] == whole'[0];
    assert name != "" ==> name[0] in name && name[0] == whole[0];
    assert name' != "" ==> name'[0] in name' && name'[0] == whole'[0];
    if name != "" {
      assert whole[1..] == name[1..] + ":" + args && whole'[1..] == name'[1..] + ":" + args';
      KeyIdentifiesCall(name[1..], args, name'[1..], args');
      assert name == [name[0]] + name[1..] && name' == [name'[0]] + name'[1..];
    } else {
      assert whole[1..] == args && whole'[1..] == args';
    }
  }

  // ---- answers ----

  function Ids(calls: seq<ToolCall>): seq<Option<string>> {
    seq(|calls|, i requires 0 <= i < |calls| => Some(calls[i].id))
  }

  function AnsweredIds(messages: seq<Message>): seq<Option<string>> {
    seq(|messages|, i requires 0 <= i < |messages| => messages[i].toolCallId)
  }

  /** A completed turn answers its calls in order, or answers only a call nobody made. All of them are answered exactly
      when there are not too many for a turn and the budget leaves room for all but one. */
  lemma CompletedTurnAnswers(limits: Limits, script: TurnScript, before: seq<Attempt>, t: Turn)
    requires Completed(limits, script, |before|, t)
    ensures var calls := t.reply.value.toolCalls;
            var ids := AnsweredIds(ToolMessages(limits, before, t.reply.value, t.attempts));
            && (ids == Ids(calls) <==> AllAnswered(limits, |before|, calls))
            && if calls != [] && TooMany(limits, t.reply.value) then ids == [Some(GUARD.id)] else ids <= Ids(calls)
    ensures var n := limits.maxToolCallsPerTurn;
            t.reply.value.toolCalls != [] && |t.reply.value.toolCalls| > n ==>
              ToolMessages(limits, before, t.reply.value, t.attempts) ==
              [Message(Tool, "ERROR: " + ("Stopped: tool-call limit per turn (" + Numeral(n) + ") exceeded."),
                       Some("tony_guard"), Some("guard"), None)]
  {
    var calls := t.reply.value.toolCalls;
    var ids := AnsweredIds(ToolMessages(limits, before, t.reply.value, t.attempts));
    if calls != [] && TooMany(limits, t.reply.value) {
      assert ids == [Some(GUARD.id)];
      assert |calls| == 1 ==> Ids(calls)[0] == Some(calls[0].id);
    } else {
      assert |ids| == Share(|calls|, |before|, limits.maxToolCalls);
      forall i | 0 <= i < |ids| ensures ids[i] == Ids(calls)[i] {
        AnswersAt(before, t.attempts, limits.maxToolCalls, i);
        assert t.attempts[i].call == calls[i];
      }
    }
  }

  /** There is nothing to answer; or the calls fit into a turn and all but one into the budget; or the one call is taken
      for the guard's. */
  predicate AllAnswered(limits: Limits, done: nat, calls: seq<ToolCall>) {
    || calls == []
    || (if |calls| > limits.maxToolCallsPerTurn then |calls| == 1 && calls[0].id == GUARD.id
        else |calls| == 1 || done + |calls| <= limits.maxToolCalls + 1)
  }

  // ---- what the log can hold ----

  predicate Named(a: Attempt) { a.call.id != "" && a.call.name != "" }

  predicate AllNamed(attempts: seq<Attempt>) {
    attempts == [] || (AllNamed(attempts[..|attempts| - 1]) && Named(attempts[|attempts| - 1]))
  }

  /** Every call that is answered one by one has an id and a name. */
  predicate NamedTurn(limits: Limits, t: Turn) {
    t.reply.Some? && (t.reply.value.toolCalls == [] || !TooMany(limits, t.reply.value)) ==>
      AllNamed(t.attempts)
  }

  predicate NamedTrace(limits: Limits, trace: seq<Turn>) {
    trace == [] || (NamedTrace(limits, trace[..|trace| - 1]) && NamedTurn(limits, trace[|trace| - 1]))
  }

  lemma LoggableConcat(a: seq<Message>, b: seq<Message>)
    ensures AllLoggable(a + b) <==> AllLoggable(a) && AllLoggable(b)
  {
    if AllLoggable(a + b) {
      forall i | 0 <= i < |b| ensures Loggable(b[i]) {
        assert Loggable((a + b)[|a| + i]);
      }
      forall i | 0 <= i < |a| ensures Loggable(a[i]) {
        assert Loggable((a + b)[i]);
      }
    }
  }

  lemma LoggableSingle(m: Message)
    ensures AllLoggable([m]) <==> Loggable(m)
  {
    assert [m][0] == m;
  }

  lemma AnswerLoggable(before: seq<Attempt>, a: Attempt, max: int)
    ensures Loggable(Answer(before, a, max)) <==> Named(a)
  {
  }

  lemma {:induction false} AnswersLoggable(before: seq<Attempt>, attempts: seq<Attempt>, max: int)
    ensures AllLoggable(Answers(before, attempts, max)) <==> AllNamed(attempts)
    decreases |attempts|
  {
    if attempts != [] {
      var front, last := attempts[..|attempts| - 1], attempts[|attempts| - 1];
      AnswersLoggable(before, front, max);
      var answer := Answer(before + front, last, max);
      AnswerLoggable(before + front, last, max);
      LoggableConcat(Answers(before, front, max), [answer]);
      LoggableSingle(answer);
    }
  }

  lemma ToolMessagesLoggable(limits: Limits, before: seq<Attempt>, reply: Reply, attempts: seq<Attempt>)
    ensures AllLoggable(ToolMessages(limits, before, reply, attempts)) <==>
            ((reply.toolCalls == [] || !TooMany(limits, reply)) ==> AllNamed(attempts))
  {
    if reply.toolCalls == [] || !TooMany(limits, reply) {
      AnswersLoggable(before, attempts, limits.maxToolCalls);
    } else {
      LoggableSingle(ToolMessage(GUARD, OverTurn(limits.maxToolCallsPerTurn), true));
    }
  }

  lemma TurnLoggable(limits: Limits, before: seq<Attempt>, t: Turn)
    ensures AllLoggable(TurnMessages(limits, before, t)) <==> NamedTurn(limits, t)
  {
    var steering := Steering(t.steering);
    assert AllLoggable(steering);
    match t.reply
    case None =>
      LoggableConcat(steering, []);
    case Some(reply) =>
      var answers := ToolMessages(limits, before, reply, t.attempts);
      LoggableConcat(steering, [AssistantMessage(reply)] + answers);
      LoggableConcat([AssistantMessage(reply)], answers);
      LoggableSingle(AssistantMessage(reply));
      ToolMessagesLoggable(limits, before, reply, t.attempts);
  }

  /** The messages of a run all survive the log exactly when every answered call has an id and a name. */
  lemma {:induction false} RunLoggableIffNamed(limits: Limits, trace: seq<Turn>)
    ensures AllLoggable(RunMessages(limits, trace)) <==> NamedTrace(limits, trace)
    decreases |trace|
  {
    if trace != [] {
      var front, last := trace[..|trace| - 1], trace[|trace| - 1];
      RunLoggableIffNamed(limits, front);
      TurnLoggable(limits, AttemptsOf(front), last);
      LoggableConcat(RunMessages(limits, front), TurnMessages(limits, AttemptsOf(front), last));
    }
  }
}
