// The text of server-sent events, as a server writes it: what the readers must find in it.
module EventText {
  import opened Text

  datatype Eol = Lf | CrLf {
    function Text(): string { if Lf? then "\n" else "\r\n" }
  }

  /** A line with data, or any other line: a comment, or another field. */
  datatype Field = Data(value: string) | Other(text: string) {
    function Text(): string { if Data? then "data:" + value else text }
  }

  datatype Line = Line(field: Field, eol: Eol)

  /** Lines, and the blank line behind them. */
  datatype Event = Event(lines: seq<Line>, blank: Eol)

  predicate OneLine(s: string) { forall i :: 0 <= i < |s| ==> s[i] != '\n' && s[i] != '\r' }

  predicate WellFormedField(f: Field) { OneLine(f.Text()) && (f.Other? ==> f.text != "" && !("data:" <= f.text)) }

  predicate WellFormedLines(lines: seq<Line>) { forall i :: 0 <= i < |lines| ==> WellFormedField(lines[i].field) }

  /** Every event has a line, and no line has a line end inside. */
  predicate WellFormed(events: seq<Event>) { forall i :: 0 <= i < |events| ==> events[i].lines != [] && WellFormedLines(events[i].lines) }

  function RenderLines(lines: seq<Line>): string {
    if lines == [] then "" else lines[0].field.Text() + lines[0].eol.Text() + RenderLines(lines[1..])
  }

  function Render(events: seq<Event>): string {
    if events == [] then "" else RenderLines(events[0].lines) + events[0].blank.Text() + Render(events[1..])
  }

  /** The data of an event, without white space before it. */
  function Values(lines: seq<Line>): seq<string> {
    if lines == [] then []
    else (if lines[0].field.Data? then [TrimStart(lines[0].field.value, Js)] else []) + Values(lines[1..])
  }

  function Joined(values: seq<string>): string {
    if values == [] then "" else if |values| == 1 then values[0] else values[0] + "\n" + Joined(values[1..])
  }

  /** What the events carry: their data lines, joined by newlines. */
  function Payloads(events: seq<Event>): (payloads: seq<string>)
    ensures |payloads| == |events|
  {
    seq(|events|, i requires 0 <= i < |events| => Joined(Values(events[i].lines)))
  }

  /** Applies what is read in the payloads, in order. */
  function After<S, J>(state: S, payloads: seq<string>, read: string -> Option<J>, apply: (S, J) -> S): S {
    if payloads == [] then state
    else After(if read(payloads[0]).Some? then apply(state, read(payloads[0]).value) else state, payloads[1..], read, apply)
  }
}
