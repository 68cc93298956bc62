// Server-sent events: the incremental reader against splitting the whole text.
module EventStream {
  import opened Text
  import E = EventText

  // ---- event boundaries: the regular expression \r?\n\r?\n ----

  /** End of an optional carriage return and a newline at `i`; `i` itself when there is none. */
  function LineEnd(text: string, i: nat): nat {
    if i < |text| && text[i] == '\n' then i + 1
    else if i + 1 < |text| && text[i] == '\r' && text[i + 1] == '\n' then i + 2
    else i
  }

  /** End of the event boundary that starts at `i`; `i` itself when there is none. */
  function BoundaryEnd(text: string, i: nat): (e: nat)
    ensures e == i || i + 2 <= e <= |text|
  {
    var m := LineEnd(text, i);
    if m == i || LineEnd(text, m) == m then i else LineEnd(text, m)
  }

  predicate IsFirstBoundary(text: string, i: int) {
    0 <= i < |text| && BoundaryEnd(text, i) > i && forall j :: 0 <= j < i ==> BoundaryEnd(text, j) == j
  }

  /** The leftmost match, searched from `from`. */
  function FindBoundary(text: string, from: nat): (r: Option<nat>)
    requires forall j :: 0 <= j < from ==> BoundaryEnd(text, j) == j
    ensures r.Some? ==> IsFirstBoundary(text, r.value)
    ensures r.None? ==> forall j: nat :: BoundaryEnd(text, j) == j
    decreases |text| - from
  {
    if from >= |text| then None
    else if BoundaryEnd(text, from) > from then Some(from)
    else FindBoundary(text, from + 1)
  }

  /** `text.split(/\r?\n\r?\n/)`: the blocks between boundaries, and what follows the last one. */
  function Split(text: string): (blocks: seq<string>)
    ensures blocks != []
    decreases |text|
  {
    match FindBoundary(text, 0)
    case None => [text]
    case Some(i) => [text[..i]] + Split(text[BoundaryEnd(text, i)..])
  }

  lemma FirstBoundaryUnique(text: string, i: int)
    requires IsFirstBoundary(text, i)
    ensures FindBoundary(text, 0) == Some(i)
  {
    var r := FindBoundary(text, 0);
    assert BoundaryEnd(text, i) > i;
  }

  /** More text can neither move the first boundary nor change its extent. */
  lemma FirstBoundaryStable(a: string, b: string, i: int)
    requires IsFirstBoundary(a, i)
    ensures IsFirstBoundary(a + b, i) && BoundaryEnd(a + b, i) == BoundaryEnd(a, i)
  {
    forall j | 0 <= j < i ensures BoundaryEnd(a + b, j) == j {
      assert BoundaryEnd(a, j) == j;
    }
  }

  /** Splitting longer text: the closed blocks stay, the open remainder is split together with the new text. */
  lemma {:induction false} SplitExtend(a: string, b: string)
    ensures var blocks := Split(a); Split(a + b) == blocks[..|blocks| - 1] + Split(blocks[|blocks| - 1] + b)
    decreases |a|
  {
    match FindBoundary(a, 0)
    case None =>
    case Some(i) =>
      FirstBoundaryStable(a, b, i);
      FirstBoundaryUnique(a + b, i);
      var e := BoundaryEnd(a, i);
      var rest := Split(a[e..]);
      SplitExtend(a[e..], b);
      assert (a + b)[..i] == a[..i] && (a + b)[e..] == a[e..] + b;
      var blocks := Split(a);
      assert blocks == [a[..i]] + rest;
      assert blocks[..|blocks| - 1] == [a[..i]] + rest[..|rest| - 1];
      assert blocks[|blocks| - 1] == rest[|rest| - 1];
      Associative([a[..i]], rest[..|rest| - 1], Split(rest[|rest| - 1] + b));
  }

  // ---- payloads ----

  /** `block.split(/\r?\n/)`. */
  function Lines(block: string, from: nat): (lines: seq<string>)
    requires from <= |block|
    decreases |block| - from
  {
    if from == |block| then [block]
    else if LineEnd(block, from) > from then [block[..from]] + Lines(block[LineEnd(block, from)..], 0)
    else Lines(block, from + 1)
  }

  const DATA := "data:"

  /** The `data:` fields of a block, joined by newlines. */
  function Join(lines: seq<string>): string {
    if lines == [] then ""
    else
      var rest := Join(lines[1..]);
      if DATA <= lines[0] then TrimStart(lines[0][5..], Js) + (if HasData(lines[1..]) then "\n" else "") + rest
      else rest
  }

  predicate HasData(lines: seq<string>) { exists i :: 0 <= i < |lines| && DATA <= lines[i] }

  function Payload(block: string): string { Join(Lines(block, 0)) }

  // ---- decoding events ----

  /** JSON.parse: JSON white space around a value is ignored, any other character around it is an error. */
  function Parse<J>(core: string -> Option<J>, payload: string): Option<J> {
    core(TrimEnd(TrimStart(payload, OnlyJson), OnlyJson))
  }

  /** A JSON value is not empty, does not begin or end with white space of any kind, and is not the end marker. */
  ghost predicate ParsesValues<J>(core: string -> Option<J>) {
    && core("") == None && core("[DONE]") == None
    && forall s :: core(s).Some? ==> s != "" && !Js.Has(s[0]) && !Js.Has(s[|s| - 1])
  }

  /** The streaming reader trims the payload before it looks at it. */
  function StreamedEvent<J>(core: string -> Option<J>, payload: string): Option<J> {
    var trimmed := Trim(payload);
    if trimmed == "" || trimmed == "[DONE]" then None else Parse(core, trimmed)
  }

  /** The whole-text reader does not. */
  function WholeTextEvent<J>(core: string -> Option<J>, payload: string): Option<J> {
    if payload == "" || payload == "[DONE]" then None else Parse(core, payload)
  }

  function Streaming<J>(core: string -> Option<J>): string -> Option<J> { p => StreamedEvent(core, p) }

  function WholeText<J>(core: string -> Option<J>): string -> Option<J> { p => WholeTextEvent(core, p) }

  /** Applies the events of the blocks in order. */
  function Fold<S, J>(state: S, blocks: seq<string>, decode: string -> Option<J>, apply: (S, J) -> S): S {
    if blocks == [] then state
    else
      var event := decode(Payload(blocks[0]));
      Fold(if event.Some? then apply(state, event.value) else state, blocks[1..], decode, apply)
  }

  lemma FoldOne<S, J>(init: S, block: string, decode: string -> Option<J>, apply: (S, J) -> S)
    ensures Fold(init, [block], decode, apply) ==
            match decode(Payload(block)) case None => init case Some(event) => apply(init, event)
  {
    var blocks := [block];
    var nothing: seq<string> := [];
    assert blocks[0] == block && blocks[1..] == nothing;
  }

  lemma {:induction false} FoldConcat<S, J>(state: S, a: seq<string>, b: seq<string>, decode: string -> Option<J>, apply: (S, J) -> S)
    ensures Fold(state, a + b, decode, apply) == Fold(Fold(state, a, decode, apply), b, decode, apply)
    decreases |a|
  {
    if a == [] {
      assert a + b == b;
    } else {
      var event := decode(Payload(a[0]));
      assert (a + b)[0] == a[0] && (a + b)[1..] == a[1..] + b;
      FoldConcat(if event.Some? then apply(state, event.value) else state, a[1..], b, decode, apply);
    }
  }

  function Concat(chunks: seq<string>): string { if chunks == [] then "" else Concat(chunks[..|chunks| - 1]) + chunks[|chunks| - 1] }

  /** The blocks the streaming reader handles: those of the whole text, without a blank remainder. */
  function StreamedBlocks(text: string): seq<string> {
    var blocks := Split(text);
    if Trim(blocks[|blocks| - 1]) == "" then blocks[..|blocks| - 1] else blocks
  }

  /** `processBuffer()`: handles every complete block and keeps the rest. */
  method ProcessBuffer<S, J>(state0: S, buffer0: string, decode: string -> Option<J>, apply: (S, J) -> S)
    returns (state: S, buffer: string)
    ensures var blocks := Split(buffer0);
            buffer == blocks[|blocks| - 1] && state == Fold(state0, blocks[..|blocks| - 1], decode, apply)
  {
    state, buffer := state0, buffer0;
    ghost var done: seq<string> := [];
    while true
      invariant Split(buffer0) == done + Split(buffer)
      invariant state == Fold(state0, done, decode, apply)
      decreases |buffer|
    {
      var boundary := FindBoundary(buffer, 0);
      if boundary.None? {
        assert Split(buffer) == [buffer];
        assert (done + [buffer])[..|done|] == done;
        return;
      }
      var block := buffer[..boundary.value];
      var rest := buffer[BoundaryEnd(buffer, boundary.value)..];
      Associative(done, [block], Split(rest));
      FoldConcat(state0, done, [block], decode, apply);
      done := done + [block];
      var event := decode(Payload(block));
      state := if event.Some? then apply(state, event.value) else state;
      buffer := rest;
    }
  }

  /** One more chunk: complete blocks move over, the last piece stays in the buffer. */
  lemma SplitNext(text: string, chunk: string, done: seq<string>, buffer: string)
    requires Split(text) == done + [buffer]
    ensures var blocks := Split(buffer + chunk);
            Split(text + chunk) == done + blocks[..|blocks| - 1] + [blocks[|blocks| - 1]]
  {
    SplitExtend(text, chunk);
    DropLast(done, buffer);
    var blocks := Split(buffer + chunk);
    FrontAndLast(blocks);
    Associative(done, blocks[..|blocks| - 1], [blocks[|blocks| - 1]]);
  }

  lemma DropLast<T>(a: seq<T>, x: T)
    ensures |a + [x]| == |a| + 1 && (a + [x])[..|a|] == a && (a + [x])[|a|] == x
  {
  }

  lemma FrontAndLast<T>(a: seq<T>)
    requires a != []
    ensures a == a[..|a| - 1] + [a[|a| - 1]]
  {
  }

  lemma ChunkStep<S, J>(chunks: seq<string>, i: nat, done: seq<string>, buffer: string, init: S, decode: string -> Option<J>,
                        apply: (S, J) -> S)
    returns (done': seq<string>)
    requires i < |chunks| && Split(Concat(chunks[..i])) == done + [buffer]
    ensures var blocks := Split(buffer + chunks[i]);
            && Split(Concat(chunks[..i + 1])) == done' + [blocks[|blocks| - 1]]
            && Fold(init, done', decode, apply) == Fold(Fold(init, done, decode, apply), blocks[..|blocks| - 1], decode, apply)
  {
    var blocks := Split(buffer + chunks[i]);
    done' := done + blocks[..|blocks| - 1];
    assert chunks[..i + 1][..i] == chunks[..i];
    SplitNext(Concat(chunks[..i]), chunks[i], done, buffer);
    FoldConcat(init, done, blocks[..|blocks| - 1], decode, apply);
  }

  lemma LastBlock<S, J>(text: string, done: seq<string>, buffer: string, init: S, decode: string -> Option<J>, apply: (S, J) -> S)
    requires Split(text) == done + [buffer]
    ensures Trim(buffer) == "" ==> StreamedBlocks(text) == done
    ensures Trim(buffer) != "" ==>
              Fold(init, StreamedBlocks(text), decode, apply) == Fold(Fold(init, done, decode, apply), [buffer], decode, apply)
  {
    DropLast(done, buffer);
    FoldConcat(init, done, [buffer], decode, apply);
  }

  /** `readSse`: the chunks are appended to the buffer one by one. */
  method ReadSse<S, J>(chunks: seq<string>, init: S, core: string -> Option<J>, apply: (S, J) -> S) returns (state: S)
    ensures state == Fold(init, StreamedBlocks(Concat(chunks)), Streaming(core), apply)
    ensures forall events: seq<E.Event> :: ParsesValues(core) && E.WellFormed(events) && E.Render(events) == Concat(chunks) ==>
              state == E.After(init, E.Payloads(events), TrimmedRead(core), apply)
  {
    var decode := Streaming(core);
    var buffer := "";
    ghost var done: seq<string> := [];
    state := init;
    for i := 0 to |chunks|
      invariant Split(Concat(chunks[..i])) == done + [buffer]
      invariant state == Fold(init, done, decode, apply)
    {
      done := ChunkStep(chunks, i, done, buffer, init, decode, apply);
      state, buffer := ProcessBuffer(state, buffer + chunks[i], decode, apply);
    }
    assert chunks[..|chunks|] == chunks;
    LastBlock(Concat(chunks), done, buffer, init, decode, apply);
    AllReadEvents(Concat(chunks), init, core, apply);
    if Trim(buffer) != "" {
      FoldOne(state, buffer, decode, apply);
      var event := decode(Payload(buffer));
      state := if event.Some? then apply(state, event.value) else state;
    }
  }

  /** `parseSseText`: one pass over the split text. */
  method ParseSseText<S, J>(raw: string, init: S, core: string -> Option<J>, apply: (S, J) -> S) returns (state: S)
    ensures state == Fold(init, Split(raw), WholeText(core), apply)
    ensures forall events: seq<E.Event> :: ParsesValues(core) && E.WellFormed(events) && E.Render(events) == raw ==>
              state == E.After(init, E.Payloads(events), JsonRead(core), apply)
  {
    var decode := WholeText(core);
    var blocks := Split(raw);
    state := init;
    for i := 0 to |blocks|
      invariant state == Fold(init, blocks[..i], decode, apply)
    {
      assert blocks[..i + 1] == blocks[..i] + [blocks[i]];
      FoldConcat(init, blocks[..i], [blocks[i]], decode, apply);
      var event := decode(Payload(blocks[i]));
      state := if event.Some? then apply(state, event.value) else state;
    }
    assert blocks[..|blocks|] == blocks;
    AllReadEvents(raw, init, core, apply);
  }

  // ---- the two readers compared ----

  lemma {:induction false} LinesAreParts(block: string, from: nat, space: Space)
    requires from <= |block| && forall i :: 0 <= i < |block| ==> space.Has(block[i])
    ensures forall k :: 0 <= k < |Lines(block, from)| ==> forall i :: 0 <= i < |Lines(block, from)[k]| ==> space.Has(Lines(block, from)[k][i])
    decreases |block| - from
  {
    if from < |block| {
      if LineEnd(block, from) > from {
        LinesAreParts(block[LineEnd(block, from)..], 0, space);
      } else {
        LinesAreParts(block, from + 1, space);
      }
    }
  }

  lemma {:induction false} JoinNothing(lines: seq<string>)
    requires !HasData(lines)
    ensures Join(lines) == ""
    decreases |lines|
  {
    if lines != [] {
      assert forall i :: 0 <= i < |lines[1..]| ==> lines[1..][i] == lines[i + 1];
      JoinNothing(lines[1..]);
    }
  }

  lemma NotData(line: string)
    requires line != "" ==> Js.Has(line[0])
    ensures !(DATA <= line)
  {
    assert DATA[0] == 'd';
  }

  lemma AllSpace(s: string)
    requires TrimEnd(s, Js) == ""
    ensures forall i :: 0 <= i < |s| ==> Js.Has(s[i])
  {
  }

  lemma BlankHasNoPayload(block: string)
    requires Trim(block) == ""
    ensures Payload(block) == ""
  {
    AllSpace(TrimStart(block, Js));
    LinesAreParts(block, 0, Js);
    var lines := Lines(block, 0);
    forall k | 0 <= k < |lines| ensures !(DATA <= lines[k]) {
      NotData(lines[k]);
    }
    JoinNothing(lines);
  }

  /**
   * With one decoder both readers end in the same state, whatever the division into chunks: the streaming reader
   * leaves out at most a blank remainder, which carries no event.
   */
  lemma SameDecoderSameState<S, J>(text: string, init: S, decode: string -> Option<J>, apply: (S, J) -> S)
    requires decode("") == None
    ensures Fold(init, StreamedBlocks(text), decode, apply) == Fold(init, Split(text), decode, apply)
  {
    var blocks := Split(text);
    if Trim(blocks[|blocks| - 1]) == "" {
      BlankHasNoPayload(blocks[|blocks| - 1]);
      EmptyPayloadSkipped(init, blocks, decode, apply);
    }
  }

  lemma EmptyPayloadSkipped<S, J>(init: S, blocks: seq<string>, decode: string -> Option<J>, apply: (S, J) -> S)
    requires blocks != [] && decode(Payload(blocks[|blocks| - 1])) == None
    ensures Fold(init, blocks, decode, apply) == Fold(init, blocks[..|blocks| - 1], decode, apply)
  {
    var front, last := blocks[..|blocks| - 1], blocks[|blocks| - 1];
    FrontAndLast(blocks);
    FoldConcat(init, front, [last], decode, apply);
    FoldOne(Fold(init, front, decode, apply), last, decode, apply);
  }

  lemma {:induction false} AgreeingDecodersSameState<S, J>(init: S, blocks: seq<string>, d1: string -> Option<J>,
                                                          d2: string -> Option<J>, apply: (S, J) -> S)
    requires forall b :: b in blocks ==> d1(Payload(b)) == d2(Payload(b))
    ensures Fold(init, blocks, d1, apply) == Fold(init, blocks, d2, apply)
    decreases |blocks|
  {
    if blocks != [] {
      var event := d1(Payload(blocks[0]));
      assert blocks[0] in blocks;
      assert forall b :: b in blocks[1..] ==> b in blocks;
      AgreeingDecodersSameState(if event.Some? then apply(init, event.value) else init, blocks[1..], d1, d2, apply);
    }
  }

  function TrimJson(s: string): string { TrimEnd(TrimStart(s, OnlyJson), OnlyJson) }

  predicate Bare(t: string, space: Space) { t == "" || (!space.Has(t[0]) && !space.Has(t[|t| - 1])) }

  lemma TrimFixed(t: string, space: Space)
    requires Bare(t, space)
    ensures TrimEnd(TrimStart(t, space), space) == t
  {
  }

  lemma EndKeepsHead(a: string, space: Space)
    ensures var t := TrimEnd(a, space); t != "" ==> t[0] == a[0] && !space.Has(t[|t| - 1])
  {
  }

  lemma TrimIsBare(s: string, space: Space)
    ensures Bare(TrimEnd(TrimStart(s, space), space), space)
  {
    var a := TrimStart(s, space);
    EndKeepsHead(a, space);
  }

  /** Removing more kinds of white space after fewer kinds gives the same as removing more kinds at once. */
  lemma TrimAfterTrimJson(s: string)
    ensures Trim(TrimJson(s)) == Trim(s)
  {
    StartAfterStart(s);
    EndAfterEnd(TrimStart(s, OnlyJson));
  }

  lemma {:induction false} StartAfterStart(s: string)
    ensures TrimStart(TrimStart(s, OnlyJson), Js) == TrimStart(s, Js)
    decreases |s|
  {
    if s != "" && IsJsonSpace(s[0]) {
      StartAfterStart(s[1..]);
    }
  }

  /** Dropping trailing JSON white space first makes no difference to a full trim. */
  lemma {:induction false} EndAfterEnd(s: string)
    ensures Trim(TrimEnd(s, OnlyJson)) == Trim(s)
    decreases |s|
  {
    if s != "" && IsJsonSpace(s[|s| - 1]) {
      EndAfterEnd(s[..|s| - 1]);
      StartThenLast(s);
    }
  }

  lemma {:induction false} StartThenLast(s: string)
    requires s != "" && Js.Has(s[|s| - 1])
    ensures Trim(s[..|s| - 1]) == Trim(s)
    decreases |s|
  {
    var front := s[..|s| - 1];
    if |s| == 1 {
      assert TrimStart(s, Js) == s[1..] == "";
    } else {
      assert front[0] == s[0];
      if Js.Has(s[0]) {
        var t := s[1..];
        assert front[1..] == t[..|t| - 1];
        StartThenLast(t);
      }
    }
  }

  lemma TrimJsonBareIff(s: string)
    ensures TrimJson(s) == Trim(s) <==> Bare(TrimJson(s), Js)
  {
    TrimAfterTrimJson(s);
    TrimIsBare(s, Js);
    if Bare(TrimJson(s), Js) {
      TrimFixed(TrimJson(s), Js);
    }
  }

  lemma TrimJsonOfTrim(s: string)
    ensures TrimJson(Trim(s)) == Trim(s)
  {
    TrimIsBare(s, Js);
    BareForFewer(Trim(s));
    TrimFixed(Trim(s), OnlyJson);
  }

  lemma BareForFewer(t: string)
    requires Bare(t, Js)
    ensures Bare(t, OnlyJson)
  {
  }

  lemma BracketedIsBare(m: string)
    requires m != "" && m[0] == '[' && m[|m| - 1] == ']'
    ensures Bare(m, Js) && Bare(m, OnlyJson)
  {
  }

  lemma MarkerIsBare(m: string)
    ensures m == "[DONE]" ==> Trim(m) == m && TrimJson(m) == m
  {
    if m == "[DONE]" {
      BracketedIsBare(m);
      TrimFixed(m, Js);
      TrimFixed(m, OnlyJson);
    }
  }

  lemma ValuesAreBare<J>(core: string -> Option<J>, s: string)
    requires ParsesValues(core)
    ensures core(s).Some? ==> s != "" && Bare(s, Js)
  {
  }

  lemma StreamingReads<J>(core: string -> Option<J>, p: string)
    requires core("") == None && core("[DONE]") == None
    ensures StreamedEvent(core, p) == core(Trim(p))
  {
    TrimJsonOfTrim(p);
    assert Parse(core, Trim(p)) == core(TrimJson(Trim(p)));
  }

  lemma WholeTextReads<J>(core: string -> Option<J>, p: string)
    requires core("") == None && core("[DONE]") == None
    ensures WholeTextEvent(core, p) == core(TrimJson(p))
  {
    MarkerIsBare(p);
    if p == "" { assert TrimJson(p) == p; }
    assert Parse(core, p) == core(TrimJson(p));
  }

  /** A payload that holds a value holds it between JSON white space only. */
  predicate Plain<J>(core: string -> Option<J>, payload: string) {
    core(Trim(payload)).Some? ==> TrimJson(payload) == Trim(payload)
  }

  /**
   * The two readers see the same event in a payload unless trimming uncovers a JSON value that stands next to white
   * space JSON does not know.
   */
  lemma ReadersAgreeIff<J>(core: string -> Option<J>, payload: string)
    requires ParsesValues(core)
    ensures StreamedEvent(core, payload) == WholeTextEvent(core, payload) <==> Plain(core, payload)
  {
    StreamingReads(core, payload);
    WholeTextReads(core, payload);
    TrimJsonBareIff(payload);
    ValuesAreBare(core, TrimJson(payload));
  }

  /** A no-break space after a value: the streaming reader sees the event, the whole-text reader does not. */
  lemma ReadersCanDiffer<J>(core: string -> Option<J>, value: string, p: string)
    requires ParsesValues(core) && core(value).Some? && p == value + "\U{A0}"
    ensures StreamedEvent(core, p) == core(value) && WholeTextEvent(core, p) == None
  {
    ValuesAreBare(core, value);
    AppendedSpace(value, '\U{A0}');
    ValuesAreBare(core, p);
    NotBare(value, p);
    TrimJsonOfTrim(p);
    assert Parse(core, p) == core(p) && Parse(core, value) == core(value);
  }

  lemma NotBare(value: string, p: string)
    requires p == value + "\U{A0}"
    ensures !Bare(p, Js)
  {
    assert p[|p| - 1] == '\U{A0}';
  }

  lemma AppendedSpace(value: string, space: char)
    requires value != "" && Bare(value, Js) && Js.Has(space) && !IsJsonSpace(space)
    ensures Trim(value + [space]) == value && TrimJson(value + [space]) == value + [space]
  {
    var p := value + [space];
    assert p[..|p| - 1] == value && p[|p| - 1] == space && p[0] == value[0];
    TrimFixed(p, OnlyJson);
  }

  // ---- whole texts ----

  /** The events of the blocks, in order. */
  function Events<J>(blocks: seq<string>, decode: string -> Option<J>): seq<J> {
    if blocks == [] then []
    else (match decode(Payload(blocks[0])) case None => [] case Some(event) => [event]) + Events(blocks[1..], decode)
  }

  /** The state of a reader that collects what it is given. */
  function Append<J>(): (seq<J>, J) -> seq<J> { (seen, event) => seen + [event] }

  lemma {:induction false} CollectsEvents<J>(start: seq<J>, blocks: seq<string>, decode: string -> Option<J>)
    ensures Fold(start, blocks, decode, Append()) == start + Events(blocks, decode)
    decreases |blocks|
  {
    if blocks != [] {
      match decode(Payload(blocks[0]))
      case None => CollectsEvents(start, blocks[1..], decode);
      case Some(event) =>
        CollectsEvents(start + [event], blocks[1..], decode);
        Associative(start, [event], Events(blocks[1..], decode));
    }
  }

  lemma {:induction false} EventsConcat<J>(a: seq<string>, b: seq<string>, decode: string -> Option<J>)
    ensures Events(a + b, decode) == Events(a, decode) + Events(b, decode)
    decreases |a|
  {
    if a == [] {
      assert a + b == b;
    } else {
      assert (a + b)[0] == a[0] && (a + b)[1..] == a[1..] + b;
      EventsConcat(a[1..], b, decode);
    }
  }

  lemma StreamedBlocksSameEvents<J>(text: string, decode: string -> Option<J>)
    requires decode("") == None
    ensures Events(StreamedBlocks(text), decode) == Events(Split(text), decode)
  {
    var blocks := Split(text);
    var last := blocks[|blocks| - 1];
    if Trim(last) == "" {
      BlankHasNoPayload(last);
      FrontAndLast(blocks);
      EventsConcat(blocks[..|blocks| - 1], [last], decode);
      assert [last][0] == last && [last][1..] == [];
    }
  }

  /** The whole-text reader can miss an event, but it sees none the streaming reader does not. */
  lemma WholeTextOnlyDrops<J>(core: string -> Option<J>, payload: string)
    requires ParsesValues(core)
    ensures WholeTextEvent(core, payload) == None || WholeTextEvent(core, payload) == StreamedEvent(core, payload)
  {
    ReadersAgreeIff(core, payload);
    ValuesAreBare(core, TrimJson(payload));
    TrimJsonBareIff(payload);
  }

  /** `fewer` sees what `more` sees, or nothing. */
  ghost predicate OnlyDrops<J>(fewer: string -> Option<J>, more: string -> Option<J>) {
    forall p :: fewer(p) == None || fewer(p) == more(p)
  }

  lemma {:induction false} SameEventsIffAgree<J>(blocks: seq<string>, fewer: string -> Option<J>, more: string -> Option<J>)
    requires OnlyDrops(fewer, more)
    ensures |Events(blocks, fewer)| <= |Events(blocks, more)|
    ensures Events(blocks, fewer) == Events(blocks, more) <==> forall b :: b in blocks ==> fewer(Payload(b)) == more(Payload(b))
    ensures |Events(blocks, fewer)| == |Events(blocks, more)| ==> Events(blocks, fewer) == Events(blocks, more)
    decreases |blocks|
  {
    if blocks != [] {
      var p := Payload(blocks[0]);
      assert fewer(p) == None || fewer(p) == more(p);
      SameEventsIffAgree(blocks[1..], fewer, more);
      assert forall b :: b in blocks <==> b == blocks[0] || b in blocks[1..];
    }
  }

  /**
   * The two readers find the same events in a text, however it is divided into chunks, exactly when every value in it
   * stands between JSON white space only; so exactly then do they collect the same.
   */
  lemma ReadersSameEventsIff<J>(core: string -> Option<J>, text: string)
    requires ParsesValues(core)
    ensures Events(StreamedBlocks(text), Streaming(core)) == Events(Split(text), WholeText(core)) <==>
            forall b :: b in Split(text) ==> Plain(core, Payload(b))
    ensures Fold([], StreamedBlocks(text), Streaming(core), Append()) == Fold([], Split(text), WholeText(core), Append()) <==>
            forall b :: b in Split(text) ==> Plain(core, Payload(b))
  {
    CollectsEvents([], StreamedBlocks(text), Streaming(core));
    CollectsEvents([], Split(text), WholeText(core));
    StreamedBlocksSameEvents(text, Streaming(core));
    forall p ensures WholeText(core)(p) == None || WholeText(core)(p) == Streaming(core)(p) {
      WholeTextOnlyDrops(core, p);
    }
    SameEventsIffAgree(Split(text), WholeText(core), Streaming(core));
    forall b | b in Split(text) ensures WholeText(core)(Payload(b)) == Streaming(core)(Payload(b)) <==> Plain(core, Payload(b)) {
      ReadersAgreeIff(core, Payload(b));
    }
  }

  /** On such a text they also end in the same state, whatever an event does to it. */
  lemma ReadersSameState<S, J>(core: string -> Option<J>, text: string, init: S, apply: (S, J) -> S)
    requires ParsesValues(core) && forall b :: b in Split(text) ==> Plain(core, Payload(b))
    ensures Fold(init, StreamedBlocks(text), Streaming(core), apply) == Fold(init, Split(text), WholeText(core), apply)
  {
    SameDecoderSameState(text, init, Streaming(core), apply);
    forall b | b in Split(text) ensures Streaming(core)(Payload(b)) == WholeText(core)(Payload(b)) {
      ReadersAgreeIff(core, Payload(b));
    }
    AgreeingDecodersSameState(init, Split(text), Streaming(core), WholeText(core), apply);
  }

  // ---- texts as a server writes them ----

  /** An event's lines without the last line end: the block the readers should find. */
  function Body(lines: seq<E.Line>): string
    requires lines != []
  {
    if |lines| == 1 then lines[0].field.Text() else lines[0].field.Text() + lines[0].eol.Text() + Body(lines[1..])
  }

  lemma LineEndShift(a: string, b: string, i: nat)
    ensures LineEnd(a + b, |a| + i) == |a| + LineEnd(b, i) && BoundaryEnd(a + b, |a| + i) == |a| + BoundaryEnd(b, i)
  {
    LineEndsShift(a, b, i);
    LineEndsShift(a, b, LineEnd(b, i));
  }

  lemma LineEndsShift(a: string, b: string, i: nat)
    ensures LineEnd(a + b, |a| + i) == |a| + LineEnd(b, i)
  {
    assert i < |b| ==> (a + b)[|a| + i] == b[i];
    assert i + 1 < |b| ==> (a + b)[|a| + i + 1] == b[i + 1];
  }

  /** No boundary begins inside a line. */
  lemma InsideLine(t: string, rest: string, j: nat)
    requires E.OneLine(t) && j < |t|
    ensures LineEnd(t + rest, j) == j && BoundaryEnd(t + rest, j) == j
  {
    assert (t + rest)[j] == t[j];
  }

  /** A line end is read as one, wherever it begins. */
  lemma AtEol(eol: E.Eol, rest: string)
    ensures LineEnd(eol.Text() + rest, 0) == |eol.Text()|
    ensures LineEnd(eol.Text() + rest, |eol.Text()| - 1) == |eol.Text()|
  {
    var text := eol.Text() + rest;
    assert text[|eol.Text()| - 1] == '\n' && (eol.CrLf? ==> text[0] == '\r');
  }

  /** No boundary begins at or inside a line end with more text on the next line. */
  lemma BeforeText(eol: E.Eol, rest: string, j: nat)
    requires j < |eol.Text()| && rest != "" && rest[0] != '\n' && rest[0] != '\r'
    ensures BoundaryEnd(eol.Text() + rest, j) == j
  {
    AtEol(eol, rest);
    LineEndsShift(eol.Text(), rest, 0);
    assert LineEnd(rest, 0) == 0;
    assert j == 0 || j == |eol.Text()| - 1;
  }

  lemma FieldStarts(f: E.Field)
    requires E.WellFormedField(f)
    ensures f.Text() != "" && f.Text()[0] != '\n' && f.Text()[0] != '\r'
  {
  }

  lemma RenderFirst(lines: seq<E.Line>, tail: string)
    requires lines != []
    ensures E.RenderLines(lines) + tail == lines[0].field.Text() + lines[0].eol.Text() + (E.RenderLines(lines[1..]) + tail)
    ensures |E.RenderLines(lines)| == |lines[0].field.Text()| + |lines[0].eol.Text()| + |E.RenderLines(lines[1..])|
  {
    Associative(lines[0].field.Text() + lines[0].eol.Text(), E.RenderLines(lines[1..]), tail);
  }

  /** The text begins with the body, and the first boundary lies from there to `end`. */
  ghost predicate Opens(text: string, body: string, end: nat) {
    text != "" && body <= text && IsFirstBoundary(text, |body|) && BoundaryEnd(text, |body|) == end
  }

  /** In the text of an event, with anything behind it, the first boundary is the end of its last line. */
  lemma {:induction false} EventBoundary(lines: seq<E.Line>, blank: E.Eol, rest: string, text: string)
    requires lines != [] && E.WellFormedLines(lines) && text == E.RenderLines(lines) + (blank.Text() + rest)
    ensures Opens(text, Body(lines), |E.RenderLines(lines)| + |blank.Text()|) && text[0] == lines[0].field.Text()[0]
    decreases |lines|
  {
    var t, eol, tail := lines[0].field.Text(), lines[0].eol, blank.Text() + rest;
    FieldStarts(lines[0].field);
    RenderFirst(lines, tail);
    var more := E.RenderLines(lines[1..]) + tail;
    if |lines| == 1 {
      assert more == tail;
      LastLine(t, eol, blank, rest, text);
    } else {
      EventBoundary(lines[1..], blank, rest, more);
      FieldStarts(lines[1].field);
      EarlierLine(t, eol, more, Body(lines[1..]), |E.RenderLines(lines[1..])| + |blank.Text()|, text);
    }
  }

  lemma LastLine(t: string, eol: E.Eol, blank: E.Eol, rest: string, text: string)
    requires E.OneLine(t) && t != "" && text == t + eol.Text() + (blank.Text() + rest)
    ensures Opens(text, t, |t| + |eol.Text()| + |blank.Text()|) && text[0] == t[0]
  {
    var behind := eol.Text() + (blank.Text() + rest);
    Associative(t, eol.Text(), blank.Text() + rest);
    forall j | 0 <= j < |t| ensures BoundaryEnd(text, j) == j { InsideLine(t, behind, j); }
    AtEol(eol, blank.Text() + rest);
    AtEol(blank, rest);
    LineEndsShift(eol.Text(), blank.Text() + rest, 0);
    LineEndShift(t, behind, 0);
  }

  lemma EarlierLine(t: string, eol: E.Eol, more: string, body: string, end: nat, text: string)
    requires E.OneLine(t) && t != "" && text == t + eol.Text() + more && Opens(more, body, end)
    requires more[0] != '\n' && more[0] != '\r'
    ensures Opens(text, t + eol.Text() + body, |t| + |eol.Text()| + end) && text[0] == t[0]
  {
    var n, behind := |t| + |eol.Text()|, eol.Text() + more;
    Associative(t, eol.Text(), more);
    forall j | 0 <= j < n + |body| ensures BoundaryEnd(text, j) == j {
      if j < |t| {
        InsideLine(t, behind, j);
      } else if j < n {
        BeforeText(eol, more, j - |t|);
        LineEndShift(t, behind, j - |t|);
      } else {
        LineEndShift(t + eol.Text(), more, j - n);
      }
    }
    LineEndShift(t + eol.Text(), more, |body|);
  }

  /** The blocks of a text of events: their lines, and nothing behind the last. */
  lemma {:induction false} SplitRendered(events: seq<E.Event>)
    requires E.WellFormed(events)
    ensures var blocks := Split(E.Render(events));
            && |blocks| == |events| + 1 && blocks[|events|] == ""
            && forall i :: 0 <= i < |events| ==> blocks[i] == Body(events[i].lines)
    decreases |events|
  {
    if events == [] {
      var r := FindBoundary("", 0);
    } else {
      var e, rest := events[0], E.Render(events[1..]);
      var text := E.RenderLines(e.lines) + (e.blank.Text() + rest);
      Associative(E.RenderLines(e.lines), e.blank.Text(), rest);
      EventBoundary(e.lines, e.blank, rest, text);
      FirstBoundaryUnique(text, |Body(e.lines)|);
      assert text[|E.RenderLines(e.lines)| + |e.blank.Text()|..] == rest;
      SplitRendered(events[1..]);
    }
  }

  // ---- the lines of a block ----

  lemma {:induction false} LinesFrom(block: string, n: nat, from: nat)
    requires from <= n <= |block| && forall j :: from <= j < n ==> LineEnd(block, j) == j
    ensures Lines(block, from) == Lines(block, n)
    decreases n - from
  {
    if from < n { LinesFrom(block, n, from + 1); }
  }

  function Texts(lines: seq<E.Line>): (texts: seq<string>)
    ensures |texts| == |lines|
  {
    seq(|lines|, i requires 0 <= i < |lines| => lines[i].field.Text())
  }

  lemma {:induction false} LinesOfBody(lines: seq<E.Line>)
    requires lines != [] && E.WellFormedLines(lines)
    ensures Lines(Body(lines), 0) == Texts(lines)
    decreases |lines|
  {
    var t, eol := lines[0].field.Text(), lines[0].eol;
    if |lines| == 1 {
      forall j | 0 <= j < |t| ensures LineEnd(t, j) == j {}
      LinesFrom(t, |t|, 0);
    } else {
      var rest := Body(lines[1..]);
      FirstLine(t, eol, rest);
      LinesOfBody(lines[1..]);
      assert Texts(lines) == [t] + Texts(lines[1..]);
    }
  }

  lemma FirstLine(t: string, eol: E.Eol, rest: string)
    requires E.OneLine(t)
    ensures Lines(t + eol.Text() + rest, 0) == [t] + Lines(rest, 0)
  {
    var block := t + eol.Text() + rest;
    Associative(t, eol.Text(), rest);
    forall j | 0 <= j < |t| ensures LineEnd(block, j) == j { InsideLine(t, eol.Text() + rest, j); }
    LinesFrom(block, |t|, 0);
    AtEol(eol, rest);
    LineEndsShift(t, eol.Text() + rest, 0);
    assert block[..|t|] == t && block[|t| + |eol.Text()|..] == rest;
  }

  lemma {:induction false} JoinTexts(lines: seq<E.Line>)
    requires E.WellFormedLines(lines)
    ensures Join(Texts(lines)) == E.Joined(E.Values(lines)) && (HasData(Texts(lines)) <==> E.Values(lines) != [])
    decreases |lines|
  {
    if lines != [] {
      var texts := Texts(lines);
      assert texts[1..] == Texts(lines[1..]);
      JoinTexts(lines[1..]);
      DataLine(lines[0].field);
      HasDataFirst(texts);
      if lines[0].field.Data? {
        JoinFirst(texts, TrimStart(lines[0].field.value, Js), E.Values(lines[1..]));
      } else {
        assert E.Values(lines) == E.Values(lines[1..]);
      }
    }
  }

  lemma JoinFirst(texts: seq<string>, v: string, values: seq<string>)
    requires texts != [] && DATA <= texts[0] && TrimStart(texts[0][5..], Js) == v
    requires Join(texts[1..]) == E.Joined(values) && (HasData(texts[1..]) <==> values != [])
    ensures Join(texts) == E.Joined([v] + values)
  {
    assert ([v] + values)[1..] == values;
  }

  lemma HasDataFirst(lines: seq<string>)
    requires lines != []
    ensures HasData(lines) <==> DATA <= lines[0] || HasData(lines[1..])
  {
    if i :| 0 <= i < |lines[1..]| && DATA <= lines[1..][i] { assert DATA <= lines[i + 1]; }
    if i :| 0 < i < |lines| && DATA <= lines[i] { assert DATA <= lines[1..][i - 1]; }
  }

  lemma DataLine(f: E.Field)
    requires E.WellFormedField(f)
    ensures (DATA <= f.Text()) == f.Data? && (f.Data? ==> f.Text()[5..] == f.value)
  {
  }

  lemma PayloadOfBody(lines: seq<E.Line>)
    requires lines != [] && E.WellFormedLines(lines)
    ensures Payload(Body(lines)) == E.Joined(E.Values(lines))
  {
    LinesOfBody(lines);
    JoinTexts(lines);
  }

  // ---- what the readers read in it ----

  /** The value a reader makes of a payload: the parser's answer, without the white space the reader drops. */
  function TrimmedRead<J>(core: string -> Option<J>): string -> Option<J> { p => core(Trim(p)) }

  function JsonRead<J>(core: string -> Option<J>): string -> Option<J> { p => core(TrimJson(p)) }

  lemma {:induction false} FoldIsAfter<S, J>(init: S, blocks: seq<string>, payloads: seq<string>, decode: string -> Option<J>,
                                             read: string -> Option<J>, apply: (S, J) -> S)
    requires |blocks| == |payloads| && forall i :: 0 <= i < |blocks| ==> Payload(blocks[i]) == payloads[i]
    requires forall p :: decode(p) == read(p)
    ensures Fold(init, blocks, decode, apply) == E.After(init, payloads, read, apply)
    decreases |blocks|
  {
    if blocks != [] {
      var event := decode(Payload(blocks[0]));
      FoldIsAfter(if event.Some? then apply(init, event.value) else init, blocks[1..], payloads[1..], decode, read, apply);
    }
  }

  /** Both readers make of a text of events exactly what its payloads are worth, in order. */
  lemma ReadersReadEvents<S, J>(events: seq<E.Event>, init: S, core: string -> Option<J>, apply: (S, J) -> S)
    requires E.WellFormed(events) && ParsesValues(core)
    ensures Fold(init, StreamedBlocks(E.Render(events)), Streaming(core), apply) ==
            E.After(init, E.Payloads(events), TrimmedRead(core), apply)
    ensures Fold(init, Split(E.Render(events)), WholeText(core), apply) == E.After(init, E.Payloads(events), JsonRead(core), apply)
  {
    var blocks := Split(E.Render(events));
    SplitRendered(events);
    forall i | 0 <= i < |events| ensures Payload(blocks[i]) == E.Payloads(events)[i] { PayloadOfBody(events[i].lines); }
    forall p ensures Streaming(core)(p) == TrimmedRead(core)(p) { StreamingReads(core, p); }
    forall p ensures WholeText(core)(p) == JsonRead(core)(p) { WholeTextReads(core, p); }
    FoldIsAfter(init, blocks[..|events|], E.Payloads(events), Streaming(core), TrimmedRead(core), apply);
    FoldIsAfter(init, blocks[..|events|], E.Payloads(events), WholeText(core), JsonRead(core), apply);
    BlankHasNoPayload("");
    EmptyPayloadSkipped(init, blocks, WholeText(core), apply);
  }

  lemma AllReadEvents<S, J>(text: string, init: S, core: string -> Option<J>, apply: (S, J) -> S)
    ensures forall events: seq<E.Event> :: ParsesValues(core) && E.WellFormed(events) && E.Render(events) == text ==>
              Fold(init, StreamedBlocks(text), Streaming(core), apply) == E.After(init, E.Payloads(events), TrimmedRead(core), apply)
              && Fold(init, Split(text), WholeText(core), apply) == E.After(init, E.Payloads(events), JsonRead(core), apply)
  {
    forall events: seq<E.Event> | ParsesValues(core) && E.WellFormed(events) && E.Render(events) == text
      ensures Fold(init, StreamedBlocks(text), Streaming(core), apply) == E.After(init, E.Payloads(events), TrimmedRead(core), apply)
              && Fold(init, Split(text), WholeText(core), apply) == E.After(init, E.Payloads(events), JsonRead(core), apply)
    {
      ReadersReadEvents(events, init, core, apply);
    }
  }
}
