// The harness transcript and its wire form: normalisation by a round trip through the transcript.
module HarnessMessages {
  import opened Text
  import opened SessionStore

  datatype Part = TextPart(text: string) | CallPart(call: ToolCall)

  datatype Content = Plain(text: string) | Parts(parts: seq<Part>)

  datatype Usage = Usage(input: nat, output: nat, cacheRead: nat, cacheWrite: nat, totalTokens: nat)

  /** A JSON value: a string, or anything else by its text. */
  datatype Json = Str(value: string) | Other(text: string)

  /** The four fields a tool result has on the wire; any of them may be missing. */
  datatype Payload = Payload(toolCallId: Option<Json>, name: Option<Json>, content: Option<Json>, isError: Option<Json>)

  datatype Parsed = Malformed | Null | Fields(payload: Payload)

  /** `JSON.parse` and `JSON.stringify`, of which only the inverse law is used. */
  datatype Codec = Codec(parse: string -> Parsed, write: Payload -> string, writeParts: seq<Part> -> string) {
    ghost predicate Lawful() { forall p :: parse(write(p)) == Fields(p) }
  }

  datatype WireRole = WireSystem | WireUser | WireAssistant | WireToolResult | WireTool

  datatype SimpleMessage = SimpleMessage(role: WireRole, content: Content, usage: Option<Usage>, stopReason: Option<string>)

  /** Transcript messages. A tool result without payload came from the JSON text `null`. */
  datatype AgentMessage =
    | UserMessage(content: Content)
    | AssistantMessage(content: Content, toolCalls: Option<seq<ToolCall>>, usage: Option<Usage>, stopReason: Option<string>)
    | ToolResultMessage(payload: Option<Payload>)
    | SummaryMessage(summary: string)
    | BranchSummaryMessage(summary: string)

  // ---- single messages ----

  function JoinText(parts: seq<Part>): string {
    if parts == [] then "" else (if parts[0].TextPart? then parts[0].text else "") + JoinText(parts[1..])
  }

  function CallsIn(parts: seq<Part>): seq<ToolCall> {
    if parts == [] then [] else (if parts[0].CallPart? then [parts[0].call] else []) + CallsIn(parts[1..])
  }

  function CallParts(calls: seq<ToolCall>): (parts: seq<Part>)
    ensures |parts| == |calls|
  {
    seq(|calls|, i requires 0 <= i < |calls| => CallPart(calls[i]))
  }

  function PartsOf(content: Content): seq<Part> {
    match content
    case Plain(text) => [TextPart(text)]
    case Parts(parts) => parts
  }

  function PayloadText(codec: Codec, content: Content): string {
    match content
    case Plain(text) => text
    case Parts(parts) => codec.writeParts(parts)
  }

  function UnknownResult(text: string): Payload { Payload(Some(Str("unknown")), Some(Str("unknown")), Some(Str(text)), None) }

  function ReadPayload(codec: Codec, text: string): Option<Payload> {
    match codec.parse(text)
    case Malformed => Some(UnknownResult(text))
    case Null => None
    case Fields(payload) => Some(payload)
  }

  /** What `fromWire` pushes for a wire message: nothing for other roles. */
  function Received(codec: Codec, m: SimpleMessage): seq<AgentMessage> {
    match m.role
    case WireUser => [UserMessage(m.content)]
    case WireAssistant =>
      var calls := CallsIn(PartsOf(m.content));
      [AssistantMessage(Plain(JoinText(PartsOf(m.content))), if calls == [] then None else Some(calls), m.usage, Written(m.stopReason))]
    case WireToolResult => [ToolResultMessage(ReadPayload(codec, PayloadText(codec, m.content)))]
    case _ => []
  }

  function ContentParts(content: Content): seq<Part> {
    match content
    case Plain(text) => if text == "" then [] else [TextPart(text)]
    case Parts(parts) => parts
  }

  function CallsOf(toolCalls: Option<seq<ToolCall>>): seq<ToolCall> { if toolCalls.Some? then toolCalls.value else [] }

  /** What `toWire` pushes for a transcript message: nothing for summaries. */
  function Sent(codec: Codec, m: AgentMessage): seq<SimpleMessage>
    requires m.ToolResultMessage? ==> m.payload.Some?
  {
    match m
    case UserMessage(content) => [SimpleMessage(WireUser, content, None, None)]
    case AssistantMessage(content, toolCalls, usage, stopReason) =>
      [SimpleMessage(WireAssistant, Parts(ContentParts(content) + CallParts(CallsOf(toolCalls))), usage, Written(stopReason))]
    case ToolResultMessage(payload) => [SimpleMessage(WireToolResult, Plain(codec.write(payload.value)), None, None)]
    case _ => []
  }

  // ---- whole transcripts ----

  function TranscriptOf(codec: Codec, wire: seq<SimpleMessage>): seq<AgentMessage> {
    if wire == [] then [] else TranscriptOf(codec, wire[..|wire| - 1]) + Received(codec, wire[|wire| - 1])
  }

  /** No tool result was read from the JSON text `null`. */
  predicate Sendable(messages: seq<AgentMessage>) {
    forall i :: 0 <= i < |messages| && messages[i].ToolResultMessage? ==> messages[i].payload.Some?
  }

  function WireOf(codec: Codec, messages: seq<AgentMessage>): seq<SimpleMessage>
    requires Sendable(messages)
  {
    if messages == [] then [] else WireOf(codec, messages[..|messages| - 1]) + Sent(codec, messages[|messages| - 1])
  }

  method FromWire(codec: Codec, messages: seq<SimpleMessage>) returns (transcript: seq<AgentMessage>)
    ensures transcript == TranscriptOf(codec, messages)
    ensures forall m :: m in messages && m.role == WireToolResult && m.content.Plain? && codec.parse(m.content.text) == Malformed ==>
              ToolResultMessage(Some(Payload(Some(Str("unknown")), Some(Str("unknown")), Some(Str(m.content.text)), None))) in transcript
  {
    transcript := [];
    for i := 0 to |messages|
      invariant transcript == TranscriptOf(codec, messages[..i])
    {
      var message := messages[i];
      assert messages[..i + 1][..i] == messages[..i];
      match message.role {
        case WireUser => transcript := transcript + [UserMessage(message.content)];
        case WireAssistant =>
          var parts := PartsOf(message.content);
          var text, calls := JoinText(parts), CallsIn(parts);
          transcript := transcript + [AssistantMessage(Plain(text), if |calls| > 0 then Some(calls) else None,
                                                       message.usage, Written(message.stopReason))];
        case WireToolResult =>
          var text := PayloadText(codec, message.content);
          var parsed := match codec.parse(text)
            case Malformed => Some(UnknownResult(text))
            case Null => None
            case Fields(payload) => Some(payload);
          transcript := transcript + [ToolResultMessage(parsed)];
        case _ =>
      }
    }
    assert messages[..|messages|] == messages;
    forall m | m in messages && m.role == WireToolResult && m.content.Plain? && codec.parse(m.content.text) == Malformed
      ensures ToolResultMessage(Some(Payload(Some(Str("unknown")), Some(Str("unknown")), Some(Str(m.content.text)), None))) in transcript
    {
      ReceivedStays(codec, messages, m);
    }
  }

  lemma {:induction false} ReceivedStays(codec: Codec, wire: seq<SimpleMessage>, m: SimpleMessage)
    requires m in wire
    ensures forall r :: r in Received(codec, m) ==> r in TranscriptOf(codec, wire)
    decreases |wire|
  {
    if m in wire[..|wire| - 1] { ReceivedStays(codec, wire[..|wire| - 1], m); }
  }

  /** Throws (no result) exactly when some tool result is null. */
  method ToWire(codec: Codec, messages: seq<AgentMessage>) returns (wire: Option<seq<SimpleMessage>>)
    ensures wire.Some? <==> Sendable(messages)
    ensures wire.Some? ==> wire.value == WireOf(codec, messages)
  {
    var sent: seq<SimpleMessage> := [];
    for i := 0 to |messages|
      invariant Sendable(messages[..i]) && sent == WireOf(codec, messages[..i])
    {
      assert messages[..i + 1][..i] == messages[..i];
      match messages[i] {
        case UserMessage(content) => sent := sent + [SimpleMessage(WireUser, content, None, None)];
        case AssistantMessage(content, toolCalls, usage, stopReason) =>
          var parts := match content
            case Plain(text) => if |text| > 0 then [TextPart(text)] else []
            case Parts(given) => given;
          parts := parts + CallParts(if toolCalls.Some? then toolCalls.value else []);
          sent := sent + [SimpleMessage(WireAssistant, Parts(parts), usage, Written(stopReason))];
        case ToolResultMessage(payload) =>
          if payload.None? { return None; }
          sent := sent + [SimpleMessage(WireToolResult, Plain(codec.write(payload.value)), None, None)];
        case _ =>
      }
    }
    assert messages[..|messages|] == messages;
    return Some(sent);
  }

  // ---- what a message means ----

  /** What the model is told: user content, an assistant's joined text and calls, a tool result's fields. */
  datatype View =
    | UserView(content: Content)
    | AssistantView(text: string, calls: seq<ToolCall>, usage: Option<Usage>, stopReason: Option<string>)
    | ResultView(payload: Option<Payload>)

  function ViewsOf(codec: Codec, m: SimpleMessage): seq<View> {
    match m.role
    case WireUser => [UserView(m.content)]
    case WireAssistant => [AssistantView(JoinText(PartsOf(m.content)), CallsIn(PartsOf(m.content)), m.usage, Written(m.stopReason))]
    case WireToolResult => [ResultView(ReadPayload(codec, PayloadText(codec, m.content)))]
    case _ => []
  }

  function Views(codec: Codec, wire: seq<SimpleMessage>): seq<View> {
    if wire == [] then [] else Views(codec, wire[..|wire| - 1]) + ViewsOf(codec, wire[|wire| - 1])
  }

  /** The canonical wire message for a view. */
  function NormalForm(codec: Codec, v: View): SimpleMessage
    requires v != ResultView(None)
  {
    match v
    case UserView(content) => SimpleMessage(WireUser, content, None, None)
    case AssistantView(text, calls, usage, stopReason) =>
      SimpleMessage(WireAssistant, Parts(ContentParts(Plain(text)) + CallParts(calls)), usage, stopReason)
    case ResultView(payload) => SimpleMessage(WireToolResult, Plain(codec.write(payload.value)), None, None)
  }

  function NormalForms(codec: Codec, views: seq<View>): seq<SimpleMessage>
    requires ResultView(None) !in views
  {
    if views == [] then [] else NormalForms(codec, views[..|views| - 1]) + [NormalForm(codec, views[|views| - 1])]
  }

  /** `toWire(fromWire(wire))`; none when it throws. */
  function Normalize(codec: Codec, wire: seq<SimpleMessage>): Option<seq<SimpleMessage>> {
    var transcript := TranscriptOf(codec, wire);
    if Sendable(transcript) then Some(WireOf(codec, transcript)) else None
  }

  // ---- lemmas on parts ----

  lemma {:induction false} JoinConcat(a: seq<Part>, b: seq<Part>)
    ensures JoinText(a + b) == JoinText(a) + JoinText(b)
    decreases |a|
  {
    var whole := a + b;
    if a == [] {
      assert whole == b;
    } else {
      assert whole[0] == a[0] && whole[1..] == a[1..] + b;
      JoinConcat(a[1..], b);
    }
  }

  lemma {:induction false} CallsConcat(a: seq<Part>, b: seq<Part>)
    ensures CallsIn(a + b) == CallsIn(a) + CallsIn(b)
    decreases |a|
  {
    var whole := a + b;
    if a == [] {
      assert whole == b;
    } else {
      assert whole[0] == a[0] && whole[1..] == a[1..] + b;
      CallsConcat(a[1..], b);
    }
  }

  lemma {:induction false} CallPartsRead(calls: seq<ToolCall>)
    ensures JoinText(CallParts(calls)) == "" && CallsIn(CallParts(calls)) == calls
    decreases |calls|
  {
    if calls != [] {
      CallPartsRead(calls[1..]);
      assert CallParts(calls)[1..] == CallParts(calls[1..]);
      assert [calls[0]] + calls[1..] == calls;
    }
  }

  lemma NormalPartsRead(text: string, calls: seq<ToolCall>)
    ensures var parts := ContentParts(Plain(text)) + CallParts(calls);
            JoinText(parts) == text && CallsIn(parts) == calls
  {
    JoinConcat(ContentParts(Plain(text)), CallParts(calls));
    CallsConcat(ContentParts(Plain(text)), CallParts(calls));
    CallPartsRead(calls);
  }

  // ---- the normal form ----

  lemma OneMessage(codec: Codec, m: SimpleMessage)
    ensures Sendable(Received(codec, m)) <==> ResultView(None) !in ViewsOf(codec, m)
    ensures Sendable(Received(codec, m)) ==> WireOf(codec, Received(codec, m)) == NormalForms(codec, ViewsOf(codec, m))
  {
    var sent, views := Received(codec, m), ViewsOf(codec, m);
    assert sent[..0] == [] && views[..0] == [];
    if sent != [] {
      assert sent == [sent[0]] && views == [views[0]] && sent[0] in sent;
      assert sent[..|sent| - 1] == [] && views[..|views| - 1] == [];
    }
  }

  lemma WireAppend(codec: Codec, a: seq<AgentMessage>, b: seq<AgentMessage>)
    requires Sendable(a) && Sendable(b) && |b| <= 1
    ensures Sendable(a + b) && WireOf(codec, a + b) == WireOf(codec, a) + WireOf(codec, b)
  {
    if b == [] {
      assert a + b == a;
    } else {
      assert (a + b)[..|a|] == a && b[..0] == [];
    }
  }

  lemma {:induction false} NormalConcat(codec: Codec, a: seq<View>, b: seq<View>)
    requires ResultView(None) !in a && ResultView(None) !in b
    ensures NormalForms(codec, a + b) == NormalForms(codec, a) + NormalForms(codec, b)
    decreases |b|
  {
    if b == [] {
      assert a + b == a;
    } else {
      NormalConcat(codec, a, b[..|b| - 1]);
      assert (a + b)[..|a + b| - 1] == a + b[..|b| - 1];
    }
  }

  /** Normalising depends on the views alone: it writes the canonical message for each, and throws on a null result. */
  lemma {:induction false} NormalizeWritesViews(codec: Codec, wire: seq<SimpleMessage>)
    ensures Normalize(codec, wire) ==
            if ResultView(None) in Views(codec, wire) then None else Some(NormalForms(codec, Views(codec, wire)))
    decreases |wire|
  {
    if wire != [] {
      var front, last := wire[..|wire| - 1], wire[|wire| - 1];
      NormalizeWritesViews(codec, front);
      OneMessage(codec, last);
      var transcript, received := TranscriptOf(codec, front), Received(codec, last);
      assert Sendable(transcript + received) <==> Sendable(transcript) && Sendable(received) by {
        SendableConcat(transcript, received);
      }
      if Sendable(transcript) && Sendable(received) {
        WireAppend(codec, transcript, received);
        NormalConcat(codec, Views(codec, front), ViewsOf(codec, last));
      }
    }
  }

  lemma SendableConcat(a: seq<AgentMessage>, b: seq<AgentMessage>)
    ensures Sendable(a + b) <==> Sendable(a) && Sendable(b)
  {
    if Sendable(a + b) {
      assert forall i :: 0 <= i < |a| ==> (a + b)[i] == a[i];
      assert forall i :: 0 <= i < |b| ==> (a + b)[|a| + i] == b[i];
    }
  }

  /** Views that reading can produce: no empty stop reason. */
  predicate Sound(views: seq<View>) {
    forall i :: 0 <= i < |views| && views[i].AssistantView? ==> views[i].stopReason != Some("")
  }

  lemma ViewOfNormal(codec: Codec, v: View)
    requires codec.Lawful() && v != ResultView(None) && (v.AssistantView? ==> v.stopReason != Some(""))
    ensures ViewsOf(codec, NormalForm(codec, v)) == [v]
  {
    match v {
      case AssistantView(text, calls, _, _) => NormalPartsRead(text, calls);
      case ResultView(payload) => assert codec.parse(codec.write(payload.value)) == Fields(payload.value);
      case UserView(_) =>
    }
  }

  lemma {:induction false} ViewsOfNormal(codec: Codec, views: seq<View>)
    requires codec.Lawful() && ResultView(None) !in views && Sound(views)
    ensures Views(codec, NormalForms(codec, views)) == views
    decreases |views|
  {
    if views != [] {
      var front, last := views[..|views| - 1], views[|views| - 1];
      assert last in views;
      ViewsOfNormal(codec, front);
      ViewOfNormal(codec, last);
      assert NormalForms(codec, views)[..|NormalForms(codec, views)| - 1] == NormalForms(codec, front);
    }
  }

  lemma {:induction false} ReadViewsSound(codec: Codec, wire: seq<SimpleMessage>)
    ensures Sound(Views(codec, wire))
    decreases |wire|
  {
    if wire != [] {
      ReadViewsSound(codec, wire[..|wire| - 1]);
    }
  }

  /** Normalising keeps every view, in order, and normalising again changes nothing. */
  lemma NormalizeKeepsMeaning(codec: Codec, wire: seq<SimpleMessage>)
    requires codec.Lawful() && Normalize(codec, wire).Some?
    ensures Views(codec, Normalize(codec, wire).value) == Views(codec, wire)
    ensures Normalize(codec, Normalize(codec, wire).value) == Normalize(codec, wire)
  {
    NormalizeWritesViews(codec, wire);
    ReadViewsSound(codec, wire);
    ViewsOfNormal(codec, Views(codec, wire));
    NormalizeWritesViews(codec, Normalize(codec, wire).value);
  }

  /** Two wire transcripts normalise alike exactly when they tell the model the same. */
  lemma SameNormalFormIffSameViews(codec: Codec, w: seq<SimpleMessage>, w': seq<SimpleMessage>)
    requires codec.Lawful() && Normalize(codec, w).Some? && Normalize(codec, w').Some?
    ensures Normalize(codec, w) == Normalize(codec, w') <==> Views(codec, w) == Views(codec, w')
  {
    NormalizeWritesViews(codec, w);
    NormalizeWritesViews(codec, w');
    NormalizeKeepsMeaning(codec, w);
    NormalizeKeepsMeaning(codec, w');
  }

  // ---- resending a transcript ----

  /** At most one text part, non-empty and first; calls only after it. */
  predicate Tidy(parts: seq<Part>) {
    && (forall i :: 0 < i < |parts| ==> parts[i].CallPart?)
    && (parts != [] && parts[0].TextPart? ==> parts[0].text != "")
  }

  lemma {:induction false} OnlyCalls(parts: seq<Part>)
    requires forall i :: 0 <= i < |parts| ==> parts[i].CallPart?
    ensures CallParts(CallsIn(parts)) == parts && JoinText(parts) == ""
    decreases |parts|
  {
    if parts != [] {
      OnlyCalls(parts[1..]);
    }
  }

  lemma TidyIffNormal(parts: seq<Part>)
    ensures Tidy(parts) <==> ContentParts(Plain(JoinText(parts))) + CallParts(CallsIn(parts)) == parts
  {
    var normal := ContentParts(Plain(JoinText(parts))) + CallParts(CallsIn(parts));
    assert Tidy(normal);
    if Tidy(parts) && parts != [] {
      var head, rest := parts[0], parts[1..];
      OnlyCalls(rest);
      assert parts == [head] + rest;
      if head.CallPart? {
        OnlyCalls(parts);
      } else {
        assert JoinText(parts) == head.text && CallsIn(parts) == CallsIn(rest);
      }
    }
  }

  /** Messages that come back from the wire as they were sent. */
  predicate TidyMessage(m: AgentMessage) {
    m.AssistantMessage? && m.content.Parts? ==> Tidy(m.content.parts)
  }

  lemma TidyCalls(parts: seq<Part>, calls: seq<ToolCall>)
    ensures Tidy(parts + CallParts(calls)) <==> Tidy(parts)
  {
    var all := parts + CallParts(calls);
    if Tidy(all) {
      forall i | 0 < i < |parts| ensures parts[i].CallPart? {
        assert all[i] == parts[i];
      }
      assert parts != [] ==> all[0] == parts[0];
    }
  }

  lemma SentIsNormal(codec: Codec, m: AgentMessage)
    requires codec.Lawful() && (m.ToolResultMessage? ==> m.payload.Some?)
    ensures ResultView(None) !in WireViews(codec, Sent(codec, m))
    ensures |Sent(codec, m)| <= 1 && |NormalForms(codec, WireViews(codec, Sent(codec, m)))| == |Sent(codec, m)|
    ensures NormalForms(codec, WireViews(codec, Sent(codec, m))) == Sent(codec, m) <==> TidyMessage(m)
  {
    var wire := Sent(codec, m);
    match m {
      case UserMessage(content) => NormalOfOne(codec, wire[0], UserView(content));
      case AssistantMessage(content, toolCalls, usage, stopReason) =>
        var parts := ContentParts(content) + CallParts(CallsOf(toolCalls));
        TidyIffNormal(parts);
        TidyCalls(ContentParts(content), CallsOf(toolCalls));
        NormalOfOne(codec, wire[0], AssistantView(JoinText(parts), CallsIn(parts), usage, Written(stopReason)));
      case ToolResultMessage(payload) =>
        assert codec.parse(codec.write(payload.value)) == Fields(payload.value);
        NormalOfOne(codec, wire[0], ResultView(payload));
      case _ =>
    }
  }

  function WireViews(codec: Codec, wire: seq<SimpleMessage>): seq<View> {
    if wire == [] then [] else ViewsOf(codec, wire[0])
  }

  lemma NormalOfOne(codec: Codec, m: SimpleMessage, v: View)
    requires ViewsOf(codec, m) == [v] && v != ResultView(None)
    ensures WireViews(codec, [m]) == [v] && NormalForms(codec, [v]) == [NormalForm(codec, v)]
  {
    assert [v][..0] == [];
  }

  /** Resending a transcript after reading it back gives the same wire messages exactly when every assistant
      message is tidy, as those the agent builds are. */
  lemma {:induction false} ResendUnchangedIffTidy(codec: Codec, transcript: seq<AgentMessage>)
    requires codec.Lawful() && Sendable(transcript)
    ensures var wire := WireOf(codec, transcript);
            && Normalize(codec, wire).Some? && |Normalize(codec, wire).value| == |wire|
            && (Normalize(codec, wire) == Some(wire) <==> forall m :: m in transcript ==> TidyMessage(m))
    decreases |transcript|
  {
    var wire := WireOf(codec, transcript);
    if transcript == [] {
    } else {
      var front, last := transcript[..|transcript| - 1], transcript[|transcript| - 1];
      assert transcript == front + [last] && last in transcript && Sendable(front);
      ResendUnchangedIffTidy(codec, front);
      SentIsNormal(codec, last);
      ResendStep(codec, WireOf(codec, front), Sent(codec, last), TidyMessage(last));
    }
  }

  lemma ResendStep(codec: Codec, before: seq<SimpleMessage>, sent: seq<SimpleMessage>, tidy: bool)
    requires |sent| <= 1 && ResultView(None) !in WireViews(codec, sent)
    requires Normalize(codec, before).Some? && |Normalize(codec, before).value| == |before|
    requires NormalForms(codec, WireViews(codec, sent)) == sent <==> tidy
    requires |NormalForms(codec, WireViews(codec, sent))| == |sent|
    ensures Normalize(codec, before + sent).Some? && |Normalize(codec, before + sent).value| == |before + sent|
    ensures Normalize(codec, before + sent) == Some(before + sent) <==> Normalize(codec, before) == Some(before) && tidy
  {
    NormalizeWritesViews(codec, before);
    NormalizeWritesViews(codec, before + sent);
    ViewsAppend(codec, before, sent);
    NormalConcat(codec, Views(codec, before), WireViews(codec, sent));
    SplitEqual(NormalForms(codec, Views(codec, before)), NormalForms(codec, WireViews(codec, sent)), before, sent);
  }

  lemma ViewsAppend(codec: Codec, wire: seq<SimpleMessage>, sent: seq<SimpleMessage>)
    requires |sent| <= 1
    ensures Views(codec, wire + sent) == Views(codec, wire) + WireViews(codec, sent)
  {
    if sent == [] {
      assert wire + sent == wire;
    } else {
      assert (wire + sent)[..|wire|] == wire;
    }
  }

  lemma SplitEqual<T>(a: seq<T>, b: seq<T>, a': seq<T>, b': seq<T>)
    requires |a| == |a'|
    ensures a + b == a' + b' <==> a == a' && b == b'
  {
    if a + b == a' + b' {
      assert a == (a + b)[..|a|] && a' == (a' + b')[..|a|];
      assert b == (a + b)[|a|..] && b' == (a' + b')[|a|..];
    }
  }
}
