// Messages as the model sees them, and their projection from and to the session log.
module Transcript {
  import opened Text
  import opened SessionStore

  datatype Role = System | User | Assistant | Tool

  datatype Message = Message(role: Role, content: string, name: Option<string>, toolCallId: Option<string>,
                             toolCalls: Option<seq<ToolCall>>)

  function SystemMessage(content: string): Message { Message(System, content, None, None, None) }

  function UserMessage(content: string): Message { Message(User, content, None, None, None) }

  function SummaryMessage(summary: string): Message { SystemMessage("Earlier session summary:\n" + summary) }

  /** What a logged entry looks like to the model. */
  function MessageOf(body: Draft): Message {
    match body.role
    case SummaryEntry => SummaryMessage(body.content)
    case ToolEntry => Message(Tool, body.content, body.toolName, body.toolCallId, None)
    case SystemEntry => Message(System, body.content, None, None, body.toolCalls)
    case UserEntry => Message(User, body.content, None, None, body.toolCalls)
    case AssistantEntry => Message(Assistant, body.content, None, None, body.toolCalls)
  }

  /** `deriveMessages`. */
  function Derive(entries: seq<Entry>): (messages: seq<Message>)
    ensures |messages| == |entries|
  {
    seq(|entries|, i requires 0 <= i < |entries| => MessageOf(entries[i].body))
  }

  lemma DeriveConcat(a: seq<Entry>, b: seq<Entry>)
    ensures Derive(a + b) == Derive(a) + Derive(b)
  {
  }

  /** What is appended to the log for a message. */
  function DraftOf(m: Message): Draft {
    match m.role
    case Assistant => Draft(AssistantEntry, m.content, None, None, m.toolCalls)
    case Tool => Draft(ToolEntry, m.content, m.toolCallId, m.name, None)
    case System => Draft(SystemEntry, m.content, None, None, None)
    case User => Draft(UserEntry, m.content, None, None, None)
  }

  /** What comes back from the log for a message. */
  function Logged(m: Message): Message { MessageOf(Stored(DraftOf(m))) }

  function LoggedAll(messages: seq<Message>): (r: seq<Message>)
    ensures |r| == |messages|
  {
    seq(|messages|, i requires 0 <= i < |messages| => Logged(messages[i]))
  }

  /** No field the log would drop: an empty name or id is dropped, and each role has its own fields. */
  predicate Loggable(m: Message) {
    match m.role
    case Tool => m.name != Some("") && m.toolCallId != Some("") && m.toolCalls.None?
    case Assistant => m.name.None? && m.toolCallId.None?
    case _ => m.name.None? && m.toolCallId.None? && m.toolCalls.None?
  }

  predicate AllLoggable(messages: seq<Message>) { forall i :: 0 <= i < |messages| ==> Loggable(messages[i]) }

  /** A message survives the log exactly when it is loggable. */
  lemma LoggedIffLoggable(messages: seq<Message>)
    ensures LoggedAll(messages) == messages <==> AllLoggable(messages)
  {
    forall i | 0 <= i < |messages| ensures Logged(messages[i]) == messages[i] <==> Loggable(messages[i]) {}
    if LoggedAll(messages) == messages {
      forall i | 0 <= i < |messages| ensures Loggable(messages[i]) {
        assert LoggedAll(messages)[i] == messages[i];
      }
    }
  }
}
