// Resuming a subagent from its session log: what of the log reaches the new transcript.
module ColdResume {
  import opened Text
  import S = SessionStore
  import T = Transcript
  import H = HarnessMessages

  /** A derived message handed to `fromWire` as it is: its role and text; the wire has no role for tool messages. */
  function AsWire(m: T.Message): H.SimpleMessage {
    var role := match m.role
      case System => H.WireSystem
      case User => H.WireUser
      case Assistant => H.WireAssistant
      case Tool => H.WireTool;
    H.SimpleMessage(role, H.Plain(m.content), None, None)
  }

  function AllAsWire(messages: seq<T.Message>): (wire: seq<H.SimpleMessage>)
    ensures |wire| == |messages|
  {
    seq(|messages|, i requires 0 <= i < |messages| => AsWire(messages[i]))
  }

  function Resumed(codec: H.Codec, log: seq<S.Entry>): seq<H.AgentMessage> {
    H.TranscriptOf(codec, AllAsWire(T.Derive(log)))
  }

  predicate IsTalk(e: S.Entry) { e.body.role.UserEntry? || e.body.role.AssistantEntry? }

  function Talk(log: seq<S.Entry>): seq<S.Entry> {
    if log == [] then []
    else Talk(log[..|log| - 1]) + if IsTalk(log[|log| - 1]) then [log[|log| - 1]] else []
  }

  function Spoken(e: S.Entry): H.AgentMessage {
    if e.body.role.UserEntry? then H.UserMessage(H.Plain(e.body.content))
    else H.AssistantMessage(H.Plain(e.body.content), None, None, None)
  }

  function SpokenAll(entries: seq<S.Entry>): (messages: seq<H.AgentMessage>)
    ensures |messages| == |entries|
  {
    seq(|entries|, i requires 0 <= i < |entries| => Spoken(entries[i]))
  }

  /** Only what users and the assistant said comes back: summaries, system and tool entries are lost, and so are
      the assistant's tool calls. */
  lemma {:induction false} OnlyTalkIsResumed(codec: H.Codec, log: seq<S.Entry>)
    ensures Resumed(codec, log) == SpokenAll(Talk(log))
    decreases |log|
  {
    var wire := AllAsWire(T.Derive(log));
    if log != [] {
      var front, last := log[..|log| - 1], log[|log| - 1];
      OnlyTalkIsResumed(codec, front);
      assert wire[..|wire| - 1] == AllAsWire(T.Derive(front));
      assert wire[|wire| - 1] == AsWire(T.MessageOf(last.body));
      SpokenText(codec, last);
      assert IsTalk(last) ==> SpokenAll(Talk(front) + [last]) == SpokenAll(Talk(front)) + [Spoken(last)];
    }
  }

  lemma OneText(text: string)
    ensures H.JoinText([H.TextPart(text)]) == text && H.CallsIn([H.TextPart(text)]) == []
  {
    var parts := [H.TextPart(text)];
    assert parts[0].TextPart? && parts[1..] == [];
    assert H.JoinText(parts[1..]) == "" && H.CallsIn(parts[1..]) == [];
  }

  lemma SpokenText(codec: H.Codec, e: S.Entry)
    ensures H.Received(codec, AsWire(T.MessageOf(e.body))) == if IsTalk(e) then [Spoken(e)] else []
  {
    OneText(e.body.content);
  }

  lemma {:induction false} TalkLength(log: seq<S.Entry>)
    ensures |Talk(log)| <= |log|
    ensures |Talk(log)| == |log| ==> Talk(log) == log
    ensures |Talk(log)| == |log| <==> forall i :: 0 <= i < |log| ==> IsTalk(log[i])
    decreases |log|
  {
    if log != [] {
      TalkLength(log[..|log| - 1]);
    }
  }

  function CallsOfResumed(r: H.AgentMessage): seq<S.ToolCall> {
    if r.AssistantMessage? then H.CallsOf(r.toolCalls) else []
  }

  /** `r` says what the derived message `m` said: the same role, text and tool calls. */
  predicate Says(r: H.AgentMessage, m: T.Message) {
    && ((m.role.User? && r.UserMessage? && r.content == H.Plain(m.content))
        || (m.role.Assistant? && r.AssistantMessage? && r.content == H.Plain(m.content)))
    && CallsOfResumed(r) == H.CallsOf(m.toolCalls)
  }

  predicate SaysAll(resumed: seq<H.AgentMessage>, messages: seq<T.Message>) {
    |resumed| == |messages| && forall i :: 0 <= i < |messages| ==> Says(resumed[i], messages[i])
  }

  /** Something a user or the assistant said, without tool calls. */
  predicate IsPlainTalk(e: S.Entry) { IsTalk(e) && H.CallsOf(e.body.toolCalls) == [] }

  lemma SpokenSaysIff(e: S.Entry)
    requires IsTalk(e)
    ensures Says(Spoken(e), T.MessageOf(e.body)) <==> IsPlainTalk(e)
  {
  }

  /** Every message of the log comes back with its role, text and tool calls exactly when the log holds only what users
      and the assistant said, without tool calls. */
  lemma ResumeKeepsAllIffPlainTalk(codec: H.Codec, log: seq<S.Entry>)
    ensures SaysAll(Resumed(codec, log), T.Derive(log)) <==> forall i :: 0 <= i < |log| ==> IsPlainTalk(log[i])
  {
    OnlyTalkIsResumed(codec, log);
    TalkLength(log);
    if |Talk(log)| == |log| {
      forall i | 0 <= i < |log|
        ensures Says(Resumed(codec, log)[i], T.Derive(log)[i]) <==> IsPlainTalk(log[i])
      {
        SpokenSaysIff(log[i]);
      }
    }
  }

  /** An assistant entry with a tool call comes back as an entry without it. */
  lemma ToolCallLost(codec: H.Codec, call: S.ToolCall)
    ensures var log := [S.Entry(0, 0, None, S.Draft(S.AssistantEntry, "looking", None, None, Some([call])), [])];
            && T.Derive(log)[0].toolCalls == Some([call])
            && Resumed(codec, log) == [H.AssistantMessage(H.Plain("looking"), None, None, None)]
  {
    var e := S.Entry(0, 0, None, S.Draft(S.AssistantEntry, "looking", None, None, Some([call])), []);
    OnlyTalkIsResumed(codec, [e]);
    assert [e][..0] == [] && Talk([e]) == [] + [e];
  }
}
