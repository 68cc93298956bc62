// What every run of the harness loop keeps: budgets, answered calls, and a transcript that resends unchanged.
module HarnessTheorems {
  import opened Text
  import opened SessionStore
  import opened HarnessMessages
  import opened HarnessLoop

  // ---- budgets ----

  lemma {:induction false} StartedConcat(a: seq<TurnLog>, b: seq<TurnLog>)
    ensures StartedIn(a + b) == StartedIn(a) + StartedIn(b)
    decreases |b|
  {
    var whole := a + b;
    if b == [] {
      assert whole == a;
    } else {
      StartedConcat(a, b[..|b| - 1]);
      assert whole[..|whole| - 1] == a + b[..|b| - 1] && whole[|whole| - 1] == b[|b| - 1];
    }
  }

  lemma StartedOne(log: TurnLog)
    ensures StartedIn([log]) == Started(log.left, log.world)
  {
    assert [log][..0] == [];
  }

  /** The model is asked at most once for each turn left. */
  lemma {:induction false} TurnsBound(mode: Mode, all: bool, turns: nat, left: int, queue: seq<string>, script: seq<TurnScript>)
    ensures |Play(mode, all, turns, left, queue, script).logs| <= turns
    decreases turns
  {
    if turns > 0 {
      var world := Next(script);
      TurnsBound(mode, all, turns - 1, left - CallCount(world), Pending(queue, all, world), Tail(script));
    }
  }

  lemma StartedWithin(left: nat, world: TurnScript)
    ensures Started(left, world) <= left
  {
  }

  lemma StartedFirst(log: TurnLog, logs: seq<TurnLog>)
    ensures StartedIn([log] + logs) == Started(log.left, log.world) + StartedIn(logs)
    ensures StartedIn([log]) == Started(log.left, log.world)
  {
    StartedOne(log);
    StartedConcat([log], logs);
  }

  /** The first turn of a run, and where the run goes on behind it. */
  lemma PlayFirst(mode: Mode, all: bool, turns: nat, left: int, queue: seq<string>, script: seq<TurnScript>)
    returns (log: TurnLog, goesOn: bool, left': int, queue': seq<string>, script': seq<TurnScript>)
    requires turns > 0
    ensures log.left == left && (goesOn ==> left' == left - Started(left, log.world)) && (goesOn && left >= 0 ==> left' >= 0)
    ensures Play(mode, all, turns, left, queue, script).logs ==
            [log] + if goesOn then Play(mode, all, turns - 1, left', queue', script').logs else []
  {
    var world := Next(script);
    log, queue', script' := TurnLog(Drained(queue, all), left, world), Pending(queue, all, world), Tail(script);
    var end := TurnEnd(mode, left, queue', world);
    goesOn, left' := end.None?, left - CallCount(world);
    PlayUnfolds(mode, all, turns, left, queue, script, log, end, left', queue');
    FirstStarts(mode, left, queue', world, end);
  }

  lemma FirstStarts(mode: Mode, left: int, queue: seq<string>, world: TurnScript, end: Option<Ending>)
    requires end == TurnEnd(mode, left, queue, world)
    ensures end.None? ==> CallCount(world) == Started(left, world)
    ensures left >= 0 ==> Started(left, world) <= left
  {
    if end.None? { ContinuesInFull(mode, left, world.reply.value, world); }
    if left >= 0 { StartedWithin(left, world); }
  }

  lemma PlayUnfolds(mode: Mode, all: bool, turns: nat, left: int, queue: seq<string>, script: seq<TurnScript>, log: TurnLog,
                    end: Option<Ending>, left': int, queue': seq<string>)
    requires turns > 0 && log == TurnLog(Drained(queue, all), left, Next(script)) && queue' == Pending(queue, all, log.world)
    requires end == TurnEnd(mode, left, queue', log.world) && left' == left - CallCount(log.world)
    ensures Play(mode, all, turns, left, queue, script).logs ==
            [log] + if end.None? then Play(mode, all, turns - 1, left', queue', Tail(script)).logs else []
  {
  }

  lemma StepWithin(log: TurnLog, rest: seq<TurnLog>, left': int)
    requires log.left >= 0 && StartedIn(rest) <= left'
    requires rest != [] ==> left' == log.left - Started(log.left, log.world)
    ensures StartedIn([log] + rest) <= log.left
  {
    StartedFirst(log, rest);
    StartedWithin(log.left, log.world);
  }

  /** No more calls are started than a budget that is not negative has left. */
  lemma {:induction false} CallsBound(mode: Mode, all: bool, turns: nat, left: nat, queue: seq<string>, script: seq<TurnScript>)
    ensures StartedIn(Play(mode, all, turns, left, queue, script).logs) <= left
    decreases turns
  {
    if turns > 0 {
      var log, goesOn, left', queue', script' := PlayFirst(mode, all, turns, left, queue, script);
      var rest := [];
      if goesOn {
        CallsBound(mode, all, turns - 1, left', queue', script');
        rest := Play(mode, all, turns - 1, left', queue', script').logs;
      }
      StepWithin(log, rest, if goesOn then left' else 0);
    }
  }

  ghost predicate KeepsBudget(mode: Mode, turns: nat, max: int) {
    forall all, queue, script :: StartedIn(Play(mode, all, turns, max, queue, script).logs) <= if max > 0 then max else 0
  }

  /** The tool-call budget holds in every run exactly when it is not negative: `slice` counts a negative end from the back. */
  lemma BudgetKeptIffNotNegative(mode: Mode, turns: nat, max: int)
    requires turns > 0
    ensures KeepsBudget(mode, turns, max) <==> max >= 0
  {
    if max >= 0 {
      forall all, queue, script ensures StartedIn(Play(mode, all, turns, max, queue, script).logs) <= if max > 0 then max else 0 {
        CallsBound(mode, all, turns, max, queue, script);
      }
    } else {
      OverrunsNegative(mode, turns, max);
    }
  }

  lemma OverrunsNegative(mode: Mode, turns: nat, max: int)
    requires turns > 0 && max < 0
    ensures exists all, queue, script :: StartedIn(Play(mode, all, turns, max, queue, script).logs) > 0
  {
    var reply := Reply("", seq(1 - max, _ => ToolCall("c", "t", "{}")), None, None);
    var world := TurnScript([], Some(reply), [], [], None, false);
    var log := TurnLog(Drained([], true), max, world);
    assert Cut(1 - max, max) == 1 && Next([world]) == world;
    assert TurnEnd(mode, max, Pending([], true, world), world).Some?;
    assert Play(mode, true, turns, max, [], [world]).logs == [log];
    StartedOne(log);
    assert StartedIn(Play(mode, true, turns, max, [], [world]).logs) == 1;
  }

  // ---- answered calls ----

  function CallIds(calls: seq<ToolCall>): (ids: seq<Option<Json>>)
    ensures |ids| == |calls|
  {
    seq(|calls|, i requires 0 <= i < |calls| => Some(Str(calls[i].id)))
  }

  /** The id a tool result answers, and the ids of the calls an assistant message carries. */
  function AnsweredBy(m: AgentMessage): seq<Option<Json>> {
    if m.ToolResultMessage? && m.payload.Some? then [m.payload.value.toolCallId] else []
  }

  function CarriedBy(m: AgentMessage): seq<Option<Json>> {
    if m.AssistantMessage? then CallIds(CallsOf(m.toolCalls)) else []
  }

  function AnsweredIds(messages: seq<AgentMessage>): seq<Option<Json>> {
    if messages == [] then [] else AnsweredBy(messages[0]) + AnsweredIds(messages[1..])
  }

  function CarriedIds(messages: seq<AgentMessage>): seq<Option<Json>> {
    if messages == [] then [] else CarriedBy(messages[0]) + CarriedIds(messages[1..])
  }

  lemma {:induction false} IdsConcat(a: seq<AgentMessage>, b: seq<AgentMessage>)
    ensures AnsweredIds(a + b) == AnsweredIds(a) + AnsweredIds(b)
    ensures CarriedIds(a + b) == CarriedIds(a) + CarriedIds(b)
    decreases |a|
  {
    if a == [] {
      assert a + b == b;
    } else {
      IdsConcat(a[1..], b);
      FirstOf(a, b);
      Associative(AnsweredBy(a[0]), AnsweredIds(a[1..]), AnsweredIds(b));
      Associative(CarriedBy(a[0]), CarriedIds(a[1..]), CarriedIds(b));
    }
  }

  lemma FirstOf<T>(a: seq<T>, b: seq<T>)
    requires a != []
    ensures a + b != [] && (a + b)[0] == a[0] && (a + b)[1..] == a[1..] + b
  {
  }

  lemma {:induction false} ResultIds(messages: seq<AgentMessage>, calls: seq<ToolCall>)
    requires |messages| == |calls| && forall i :: 0 <= i < |calls| ==> AnswersId(messages[i], calls[i].id)
    ensures AnsweredIds(messages) == CallIds(calls) && CarriedIds(messages) == []
    decreases |calls|
  {
    if calls != [] {
      assert AnswersId(messages[0], calls[0].id);
      forall i | 0 <= i < |calls[1..]| ensures AnswersId(messages[1..][i], calls[1..][i].id) {
        assert AnswersId(messages[i + 1], calls[i + 1].id);
      }
      ResultIds(messages[1..], calls[1..]);
      assert CallIds(calls) == [Some(Str(calls[0].id))] + CallIds(calls[1..]);
    }
  }

  lemma OneId(m: AgentMessage, id: string)
    requires AnswersId(m, id)
    ensures AnsweredIds([m]) == [Some(Str(id))] && CarriedIds([m]) == []
  {
    assert [m][1..] == [] && [m][0] == m;
    assert AnsweredIds([m][1..]) == [] && CarriedIds([m][1..]) == [];
  }

  /** All of the first `n` calls throw. */
  predicate EveryThrows(fates: seq<Fate>, n: nat) { n == 0 || (EveryThrows(fates, n - 1) && FateAt(fates, n - 1).Throws()) }

  lemma PushedIds(call: ToolCall, fate: Fate)
    ensures CarriedIds(Pushed(call, fate)) == []
    ensures AnsweredIds(Pushed(call, fate)) == if fate.Throws() then [] else [Some(Str(call.id))]
  {
    if !fate.Throws() { OneId(ResultOf(call, fate), call.id); }
  }

  lemma LastSlot(calls: seq<ToolCall>, fates: seq<Fate>)
    requires calls != []
    ensures var n := |calls| - 1;
            Flat(Slots(calls, fates)) == Flat(Slots(calls[..n], fates)) + Pushed(calls[n], FateAt(fates, n))
  {
    var n := |calls| - 1;
    assert Slots(calls, fates)[..n] == Slots(calls[..n], fates);
  }

  /** All of the calls are answered, in order, if none throws; fewer otherwise, and none if all do. */
  predicate Covers(ids: seq<Option<Json>>, calls: seq<ToolCall>, fates: seq<Fate>) {
    && (if SomeThrows(fates, |calls|) then |ids| < |calls| else ids == CallIds(calls))
    && (|ids| == 0 <==> EveryThrows(fates, |calls|))
  }

  lemma CoversStep(ids: seq<Option<Json>>, calls: seq<ToolCall>, fates: seq<Fate>, last: seq<Option<Json>>)
    requires calls != [] && Covers(ids, calls[..|calls| - 1], fates)
    requires last == if FateAt(fates, |calls| - 1).Throws() then [] else [Some(Str(calls[|calls| - 1].id))]
    ensures Covers(ids + last, calls, fates)
  {
    var n := |calls| - 1;
    assert CallIds(calls) == CallIds(calls[..n]) + [Some(Str(calls[n].id))];
    if FateAt(fates, n).Throws() { assert ids + last == ids; }
  }

  lemma {:induction false} SlotIds(calls: seq<ToolCall>, fates: seq<Fate>)
    ensures CarriedIds(Flat(Slots(calls, fates))) == [] && Covers(AnsweredIds(Flat(Slots(calls, fates))), calls, fates)
    decreases |calls|
  {
    if calls != [] {
      var n := |calls| - 1;
      SlotIds(calls[..n], fates);
      LastSlot(calls, fates);
      IdsConcat(Flat(Slots(calls[..n], fates)), Pushed(calls[n], FateAt(fates, n)));
      PushedIds(calls[n], FateAt(fates, n));
      CoversStep(AnsweredIds(Flat(Slots(calls[..n], fates))), calls, fates, AnsweredIds(Pushed(calls[n], FateAt(fates, n))));
    }
  }

  lemma SkippedIds(calls: seq<ToolCall>)
    ensures AnsweredIds(Skipped(calls)) == CallIds(calls) && CarriedIds(Skipped(calls)) == []
  {
    forall i | 0 <= i < |calls| ensures AnswersId(Skipped(calls)[i], calls[i].id) {}
    ResultIds(Skipped(calls), calls);
  }

  /** Whatever order a parallel batch finishes in, the same messages are pushed. */
  lemma {:induction false} ArrangePermutes<T>(items: seq<T>, picks: seq<nat>)
    ensures multiset(Arrange(items, picks)) == multiset(items)
    decreases |items|
  {
    if items != [] {
      var i := PickIndex(|items|, picks);
      ArrangePermutes(items[..i] + items[i + 1..], if picks == [] then [] else picks[1..]);
      assert items == items[..i] + [items[i]] + items[i + 1..];
    }
  }

  lemma {:induction false} FlatConcat<T>(a: seq<seq<T>>, b: seq<seq<T>>)
    ensures Flat(a + b) == Flat(a) + Flat(b)
    decreases |b|
  {
    var whole := a + b;
    if b == [] {
      assert whole == a;
    } else {
      var n := |b| - 1;
      FlatConcat(a, b[..n]);
      assert whole[..|whole| - 1] == a + b[..n] && whole[|whole| - 1] == b[n];
      Associative(Flat(a), Flat(b[..n]), b[n]);
    }
  }

  lemma FlatAround<T>(a: seq<seq<T>>, x: seq<T>, b: seq<seq<T>>)
    ensures Flat(a + [x] + b) == Flat(a) + x + Flat(b) && Flat(a + b) == Flat(a) + Flat(b)
  {
    FlatConcat(a + [x], b);
    FlatConcat(a, b);
    assert (a + [x])[..|a|] == a;
  }

  lemma IdsAround(a: seq<AgentMessage>, x: seq<AgentMessage>, b: seq<AgentMessage>)
    ensures multiset(AnsweredIds(a + x + b)) == multiset(AnsweredIds(x)) + multiset(AnsweredIds(a + b))
    ensures CarriedIds(a + x + b) == [] ==> CarriedIds(a + b) == [] && CarriedIds(x) == []
  {
    IdsConcat(a, x);
    IdsConcat(a + x, b);
    IdsConcat(a, b);
  }

  lemma IdsFirst(x: seq<AgentMessage>, b: seq<AgentMessage>)
    ensures multiset(AnsweredIds(x + b)) == multiset(AnsweredIds(x)) + multiset(AnsweredIds(b))
    ensures CarriedIds(x + b) == CarriedIds(x) + CarriedIds(b)
  {
    IdsConcat(x, b);
  }

  lemma {:induction false} ArrangedIds(slots: seq<seq<AgentMessage>>, picks: seq<nat>)
    ensures multiset(AnsweredIds(Flat(Arrange(slots, picks)))) == multiset(AnsweredIds(Flat(slots)))
    ensures CarriedIds(Flat(slots)) == [] ==> CarriedIds(Flat(Arrange(slots, picks))) == []
    decreases |slots|
  {
    if slots != [] {
      var i := PickIndex(|slots|, picks);
      var rest, later := slots[..i] + slots[i + 1..], if picks == [] then [] else picks[1..];
      ArrangedIds(rest, later);
      Around(slots, i);
      FlatAround(slots[..i], slots[i], slots[i + 1..]);
      IdsAround(Flat(slots[..i]), slots[i], Flat(slots[i + 1..]));
      FlatFirst(slots[i], Arrange(rest, later));
      IdsFirst(slots[i], Flat(Arrange(rest, later)));
    }
  }

  lemma Around<T>(items: seq<T>, i: nat)
    requires i < |items|
    ensures items[..i] + [items[i]] + items[i + 1..] == items
  {
  }

  /** Every call of the batch gets its result: none throws, and no abort cuts a sequential batch. */
  predicate AllFinish(mode: Mode, n: nat, world: TurnScript) {
    match mode
    case Parallel => !SomeThrows(world.fates, n)
    case Sequential => Reach(n, world) == n
  }

  /** No call of the batch gets a result. */
  predicate NoneFinish(mode: Mode, n: nat, world: TurnScript) {
    match mode
    case Parallel => EveryThrows(world.fates, n)
    case Sequential => Reach(n, world) == 0
  }

  /** All calls of the reply get an answer; a truncated reply gets one. */
  predicate AllAnswered(mode: Mode, left: int, reply: Reply, world: TurnScript) {
    if LengthStopped(reply) then |reply.toolCalls| == 1 else AllFinish(mode, |ToExecute(reply, left)|, world)
  }

  /** No call of the reply gets an answer: it is not truncated, the budget cuts nothing, and nothing finishes. */
  predicate NothingAnswered(mode: Mode, left: int, reply: Reply, world: TurnScript) {
    var n := |reply.toolCalls|;
    !LengthStopped(reply) && Cut(n, left) == n && NoneFinish(mode, n, world)
  }

  lemma CallIdsConcat(a: seq<ToolCall>, b: seq<ToolCall>)
    ensures CallIds(a + b) == CallIds(a) + CallIds(b)
  {
  }

  lemma {:induction false} ReachClear(world: TurnScript, n: nat, r: nat)
    requires r <= Reach(n, world)
    ensures !SomeThrows(world.fates, r)
    decreases r
  {
    if r > 0 {
      ReachClear(world, n, r - 1);
      NoHaltBefore(world, 0, n, r - 1);
    }
  }

  lemma {:induction false} NoHaltBefore(world: TurnScript, i: nat, n: nat, j: nat)
    requires i <= n && i <= j < ReachFrom(i, n, world)
    ensures !Halts(world, j)
    decreases n - i
  {
    if i < j { NoHaltBefore(world, i + 1, n, j); }
  }

  lemma {:induction false} EveryImpliesSome(fates: seq<Fate>, n: nat)
    requires n > 0 && EveryThrows(fates, n)
    ensures SomeThrows(fates, n)
  {
  }

  /** The ids a batch answers: of all its calls, in some order, if all finish; of fewer otherwise. */
  lemma BatchAnswers(mode: Mode, calls: seq<ToolCall>, world: TurnScript)
    ensures CarriedIds(Batch(mode, calls, world)) == []
    ensures AllFinish(mode, |calls|, world) ==>
              multiset(AnsweredIds(Batch(mode, calls, world))) == multiset(CallIds(calls))
    ensures !AllFinish(mode, |calls|, world) ==> |AnsweredIds(Batch(mode, calls, world))| < |calls|
    ensures |AnsweredIds(Batch(mode, calls, world))| == 0 <==> NoneFinish(mode, |calls|, world)
  {
    match mode
    case Parallel =>
      var slots := Slots(calls, world.fates);
      SlotIds(calls, world.fates);
      ArrangedIds(slots, world.picks);
      SameSize(AnsweredIds(Flat(Arrange(slots, world.picks))), AnsweredIds(Flat(slots)));
    case Sequential =>
      var r := Reach(|calls|, world);
      SlotIds(calls[..r], world.fates);
      ReachClear(world, |calls|, r);
      if r > 0 && EveryThrows(world.fates, r) { EveryImpliesSome(world.fates, r); }
      assert r == |calls| ==> calls[..r] == calls;
  }

  lemma SameSize<T>(a: seq<T>, b: seq<T>)
    requires multiset(a) == multiset(b)
    ensures |a| == |b|
  {
    assert |multiset(a)| == |a| && |multiset(b)| == |b|;
  }

  lemma SplitCalls(calls: seq<ToolCall>, cut: nat)
    requires cut <= |calls|
    ensures multiset(CallIds(calls[cut..])) + multiset(CallIds(calls[..cut])) == multiset(CallIds(calls))
  {
    assert calls == calls[..cut] + calls[cut..];
    CallIdsConcat(calls[..cut], calls[cut..]);
  }

  /** The answers of a turn are for exactly its calls, as multisets of ids, in either mode and across the budget's
      overflow, if and only if the reply was not truncated (or had one call), no call threw and no abort cut the batch. */
  lemma AnswersMatchCallsIff(mode: Mode, left: int, reply: Reply, world: TurnScript)
    ensures CarriedIds(Answers(mode, left, reply, world)) == []
    ensures multiset(AnsweredIds(Answers(mode, left, reply, world))) == multiset(CallIds(reply.toolCalls))
            <==> AllAnswered(mode, left, reply, world)
    ensures AnsweredIds(Answers(mode, left, reply, world)) == [] <==>
            reply.toolCalls == [] || NothingAnswered(mode, left, reply, world)
  {
    var calls := reply.toolCalls;
    var ids := AnsweredIds(Answers(mode, left, reply, world));
    if LengthStopped(reply) {
      ResultIds([Truncated(calls[0])], [calls[0]]);
      if |calls| == 1 { assert calls == [calls[0]]; }
      assert |multiset(ids)| == 1 && |multiset(CallIds(calls))| == |calls|;
    } else {
      var cut := Cut(|calls|, left);
      var batch := Batch(mode, calls[..cut], world);
      IdsConcat(Skipped(calls[cut..]), batch);
      SkippedIds(calls[cut..]);
      BatchAnswers(mode, calls[..cut], world);
      SplitCalls(calls, cut);
      assert multiset(ids) == multiset(CallIds(calls[cut..])) + multiset(AnsweredIds(batch));
      assert |multiset(ids)| == |calls| - cut + |AnsweredIds(batch)| && |multiset(CallIds(calls))| == |calls|;
    }
  }

  // ---- balanced transcripts ----

  /** The calls the messages carry and the results they hold have the same ids, as multisets. */
  predicate Balanced(messages: seq<AgentMessage>) {
    multiset(CarriedIds(messages)) == multiset(AnsweredIds(messages))
  }

  /** The reply called no tools; or it had text and all calls were answered; or it had no text and none was. */
  predicate BalancedWorld(mode: Mode, log: TurnLog) {
    log.world.reply.Some? && log.world.reply.value.toolCalls != [] ==>
      BalancedReply(mode, log.left, log.world.reply.value, log.world)
  }

  predicate BalancedReply(mode: Mode, left: int, reply: Reply, world: TurnScript) {
    if reply.text != "" then AllAnswered(mode, left, reply, world) else NothingAnswered(mode, left, reply, world)
  }

  lemma {:induction false} UserIds(texts: seq<string>)
    ensures CarriedIds(Users(texts)) == [] && AnsweredIds(Users(texts)) == []
    decreases |texts|
  {
    if texts != [] {
      UserIds(texts[1..]);
      assert Users(texts)[1..] == Users(texts[1..]);
    }
  }

  lemma SaidIds(reply: Reply)
    ensures CarriedIds([AssistantOf(reply)]) == CallIds(reply.toolCalls) && AnsweredIds([AssistantOf(reply)]) == []
  {
    var one := [AssistantOf(reply)];
    assert one[1..] == [] && one[0].AssistantMessage?;
    assert CarriedIds(one[1..]) == [] && AnsweredIds(one[1..]) == [];
  }

  lemma EmptyMultiset<T>(ids: seq<T>)
    ensures multiset(ids) == multiset{} <==> ids == []
  {
    assert |multiset(ids)| == |ids|;
  }

  lemma ReplyIds(mode: Mode, left: int, reply: Reply, world: TurnScript)
    ensures AnsweredIds(ReplyMessages(mode, left, reply, world)) == AnsweredIds(Answers(mode, left, reply, world))
    ensures CarriedIds(ReplyMessages(mode, left, reply, world)) == if reply.text == "" then [] else CallIds(reply.toolCalls)
  {
    AnswersMatchCallsIff(mode, left, reply, world);
    SaidIds(reply);
    IdsConcat(if reply.text == "" then [] else [AssistantOf(reply)], Answers(mode, left, reply, world));
  }

  lemma ReplyBalancedIff(mode: Mode, left: int, reply: Reply, world: TurnScript)
    ensures Balanced(ReplyMessages(mode, left, reply, world)) <==>
            reply.toolCalls == [] || BalancedReply(mode, left, reply, world)
  {
    var answered := AnsweredIds(Answers(mode, left, reply, world));
    ReplyIds(mode, left, reply, world);
    AnswersMatchCallsIff(mode, left, reply, world);
    EmptyMultiset(answered);
  }

  /** A turn, aborted and truncated ones included, leaves calls and results balanced exactly when its reply had text and
      every call was answered, or had none and no call was: a reply without text leaves its results orphaned. */
  lemma TurnBalancedIff(mode: Mode, log: TurnLog)
    ensures Balanced(TurnMessages(mode, log)) <==> BalancedWorld(mode, log)
  {
    match log.world.reply
    case None =>
      UsersBalance(log.drained, []);
    case Some(reply) =>
      UsersBalance(log.drained, ReplyMessages(mode, log.left, reply, log.world));
      ReplyBalancedIff(mode, log.left, reply, log.world);
  }

  lemma UsersBalance(texts: seq<string>, rest: seq<AgentMessage>)
    ensures Balanced(Users(texts) + rest) <==> Balanced(rest)
  {
    UserIds(texts);
    IdsConcat(Users(texts), rest);
    assert CarriedIds(Users(texts) + rest) == CarriedIds(rest) && AnsweredIds(Users(texts) + rest) == AnsweredIds(rest);
  }

  ghost predicate EveryTurnBalanced(mode: Mode, logs: seq<TurnLog>) {
    forall i :: 0 <= i < |logs| ==> Balanced(TurnMessages(mode, logs[i]))
  }

  /** Runs that are neither aborted nor truncated, and in which no call throws. */
  predicate Smooth(logs: seq<TurnLog>) { forall i :: 0 <= i < |logs| ==> SmoothWorld(logs[i].world) }

  predicate SmoothWorld(world: TurnScript) {
    && world.abortAt.None? && (world.reply.Some? ==> !LengthStopped(world.reply.value))
    && forall i :: 0 <= i < |world.fates| ==> !world.fates[i].Throws()
  }

  lemma {:induction false} SmoothFinishes(world: TurnScript, n: nat)
    requires SmoothWorld(world)
    ensures !SomeThrows(world.fates, n) && (n > 0 ==> !EveryThrows(world.fates, n))
    decreases n
  {
    if n > 0 { SmoothFinishes(world, n - 1); }
  }

  lemma {:induction false} SmoothReaches(world: TurnScript, i: nat, n: nat)
    requires SmoothWorld(world) && i <= n
    ensures ReachFrom(i, n, world) == n
    decreases n - i
  {
    if i < n { SmoothReaches(world, i + 1, n); }
  }

  /** Every reply that calls tools also says something. */
  predicate Spoken(logs: seq<TurnLog>) { forall i :: 0 <= i < |logs| ==> SpokenWorld(logs[i].world) }

  predicate SpokenWorld(world: TurnScript) {
    world.reply.Some? && world.reply.value.toolCalls != [] ==> world.reply.value.text != ""
  }

  /** In such a run every turn is balanced exactly when every reply with calls has text. */
  lemma RunBalancedIffSpoken(mode: Mode, logs: seq<TurnLog>)
    requires Smooth(logs)
    ensures EveryTurnBalanced(mode, logs) <==> Spoken(logs)
  {
    forall i | 0 <= i < |logs| ensures Balanced(TurnMessages(mode, logs[i])) <==> SpokenWorld(logs[i].world) {
      TurnBalancedIff(mode, logs[i]);
      SmoothBalanced(mode, logs[i]);
    }
  }

  lemma SmoothBalanced(mode: Mode, log: TurnLog)
    requires SmoothWorld(log.world)
    ensures BalancedWorld(mode, log) <==> SpokenWorld(log.world)
  {
    if log.world.reply.Some? {
      var reply := log.world.reply.value;
      var n, m := |reply.toolCalls|, |ToExecute(reply, log.left)|;
      SmoothFinishes(log.world, n);
      SmoothFinishes(log.world, m);
      SmoothReaches(log.world, 0, n);
      SmoothReaches(log.world, 0, m);
    }
  }

  // ---- resending ----

  predicate Built(messages: seq<AgentMessage>) {
    Sendable(messages) && forall i :: 0 <= i < |messages| ==> TidyMessage(messages[i])
  }

  lemma BuiltConcat(a: seq<AgentMessage>, b: seq<AgentMessage>)
    requires Built(a) && Built(b)
    ensures Built(a + b)
  {
    SendableConcat(a, b);
  }

  lemma AnswersBuilt(mode: Mode, left: int, reply: Reply, world: TurnScript)
    ensures Built(Answers(mode, left, reply, world))
  {
    if !LengthStopped(reply) {
      var cut := Cut(|reply.toolCalls|, left);
      BuiltConcat(Skipped(reply.toolCalls[cut..]), Batch(mode, ToExecute(reply, left), world)) by {
        BatchBuilt(mode, ToExecute(reply, left), world);
      }
    }
  }

  lemma {:induction false} FlatBuilt(slots: seq<seq<AgentMessage>>)
    requires forall i :: 0 <= i < |slots| ==> Built(slots[i])
    ensures Built(Flat(slots))
    decreases |slots|
  {
    if slots != [] {
      FlatBuilt(slots[..|slots| - 1]);
      BuiltConcat(Flat(slots[..|slots| - 1]), slots[|slots| - 1]);
    }
  }

  lemma SlotsBuilt(calls: seq<ToolCall>, fates: seq<Fate>)
    ensures forall i :: 0 <= i < |calls| ==> Built(Slots(calls, fates)[i])
  {
    forall i | 0 <= i < |calls| ensures Built(Slots(calls, fates)[i]) {
      PushedBuilt(calls[i], FateAt(fates, i));
    }
  }

  lemma PushedBuilt(call: ToolCall, fate: Fate)
    ensures Built(Pushed(call, fate))
  {
  }

  lemma BatchBuilt(mode: Mode, calls: seq<ToolCall>, world: TurnScript)
    ensures Built(Batch(mode, calls, world))
  {
    match mode
    case Parallel =>
      var slots := Slots(calls, world.fates);
      var arranged := Arrange(slots, world.picks);
      SlotsBuilt(calls, world.fates);
      ArrangePermutes(slots, world.picks);
      forall i | 0 <= i < |arranged| ensures Built(arranged[i]) {
        assert arranged[i] in multiset(arranged);
        var j :| 0 <= j < |slots| && slots[j] == arranged[i];
      }
      FlatBuilt(arranged);
    case Sequential =>
      var started := calls[..Reach(|calls|, world)];
      SlotsBuilt(started, world.fates);
      FlatBuilt(Slots(started, world.fates));
  }

  lemma TurnBuilt(mode: Mode, log: TurnLog)
    ensures Built(TurnMessages(mode, log))
  {
    if log.world.reply.Some? {
      var reply := log.world.reply.value;
      var said := if reply.text == "" then [] else [AssistantOf(reply)];
      AnswersBuilt(mode, log.left, reply, log.world);
      BuiltConcat(said, Answers(mode, log.left, reply, log.world));
      BuiltConcat(Users(log.drained), ReplyMessages(mode, log.left, reply, log.world));
    }
  }

  lemma {:induction false} RunBuilt(mode: Mode, logs: seq<TurnLog>)
    ensures Built(RunMessages(mode, logs))
    decreases |logs|
  {
    if logs != [] {
      RunBuilt(mode, logs[..|logs| - 1]);
      TurnBuilt(mode, logs[|logs| - 1]);
      BuiltConcat(RunMessages(mode, logs[..|logs| - 1]), TurnMessages(mode, logs[|logs| - 1]));
    }
  }

  /** The transcript of any run goes over the wire and back without changing what is sent. */
  lemma RunResendsUnchanged(codec: Codec, mode: Mode, logs: seq<TurnLog>)
    requires codec.Lawful()
    ensures Sendable(RunMessages(mode, logs))
    ensures var wire := WireOf(codec, RunMessages(mode, logs));
            Normalize(codec, wire) == Some(wire)
  {
    RunBuilt(mode, logs);
    ResendUnchangedIffTidy(codec, RunMessages(mode, logs));
  }
}
