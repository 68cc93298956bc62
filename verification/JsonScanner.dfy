// The balanced-JSON scanner that fishes JSON values out of free text.
module JsonScanner {
  import opened Text

  // ---- the scanner's state ----

  /** Scanning from one start position: still going, closed at this character, or abandoned. */
  datatype Scan = Active(stack: string, inString: bool, escaped: bool) | Closed | Broken

  const INIT: Scan := Active("", false, false)

  predicate IsOpen(c: char) { c == '{' || c == '[' }

  predicate IsClose(c: char) { c == '}' || c == ']' }

  function Opening(close: char): char { if close == '}' then '{' else '[' }

  function Closing(open: char): char { if open == '{' then '}' else ']' }

  function Step(s: Scan, c: char): Scan {
    if !s.Active? then s
    else if s.inString then
      if s.escaped then s.(escaped := false)
      else if c == '\\' then s.(escaped := true)
      else if c == '"' then s.(inString := false)
      else s
    else if c == '"' then s.(inString := true)
    else if IsOpen(c) then s.(stack := s.stack + [c])
    else if IsClose(c) then
      if s.stack == "" || s.stack[|s.stack| - 1] != Opening(c) then Broken
      else if |s.stack| == 1 then Closed
      else s.(stack := s.stack[..|s.stack| - 1])
    else s
  }

  function Run(s: Scan, text: string): Scan
    decreases text
  {
    if text == "" then s else Run(Step(s, text[0]), text[1..])
  }

  lemma {:induction false} RunConcat(s: Scan, a: string, b: string)
    ensures Run(s, a + b) == Run(Run(s, a), b)
    decreases a
  {
    if a == "" {
      assert a + b == b;
    } else {
      assert (a + b)[0] == a[0] && (a + b)[1..] == a[1..] + b;
      RunConcat(Step(s, a[0]), a[1..], b);
    }
  }

  lemma RunOne(s: Scan, c: char)
    ensures Run(s, [c]) == Step(s, c)
  {
    assert [c][1..] == "";
  }

  /** Once closed or abandoned the scan stays so. */
  lemma {:induction false} RunSettled(s: Scan, text: string)
    requires !s.Active?
    ensures Run(s, text) == s
    decreases text
  {
    if text != "" {
      RunSettled(s, text[1..]);
    }
  }

  // ---- the scanner ----

  /** Where the scan started at `start` closes. */
  ghost predicate ClosesAt(text: string, start: nat, end: nat) {
    && start <= end < |text| && IsOpen(text[start])
    && Run(INIT, text[start..end]).Active?
    && Run(INIT, text[start..end + 1]) == Closed
  }

  lemma ClosesOnce(text: string, start: nat, e1: nat, e2: nat)
    requires ClosesAt(text, start, e1) && ClosesAt(text, start, e2)
    ensures e1 == e2
  {
    var a, b := if e1 < e2 then e1 else e2, if e1 < e2 then e2 else e1;
    if a < b {
      assert text[start..b] == text[start..a + 1] + text[a + 1..b];
      RunConcat(INIT, text[start..a + 1], text[a + 1..b]);
      RunSettled(Closed, text[a + 1..b]);
    }
  }

  ghost function SpanEnd(text: string, start: nat): (r: Option<nat>)
    ensures r.Some? ==> ClosesAt(text, start, r.value)
    ensures r.None? ==> forall e :: !ClosesAt(text, start, e)
  {
    if exists e: nat :: ClosesAt(text, start, e) then var e: nat :| ClosesAt(text, start, e); Some(e) else None
  }

  /** The value emitted for start position `start`, if any. */
  ghost function Emitted<V>(text: string, start: nat, parse: string -> Option<V>): seq<V> {
    match SpanEnd(text, start)
    case None => []
    case Some(end) => (match parse(text[start..end + 1]) case None => [] case Some(value) => [value])
  }

  /** The values emitted from `start` on, in order of their start. */
  ghost function Candidates<V>(text: string, start: nat, parse: string -> Option<V>): seq<V>
    decreases |text| - start
  {
    if start >= |text| then [] else Emitted(text, start, parse) + Candidates(text, start + 1, parse)
  }

  /** What the scan says about the part up to `i` settles where, if anywhere, it closes. */
  lemma ScanSettles(text: string, start: nat, i: nat)
    requires start <= i < |text| && IsOpen(text[start])
    ensures ClosesAt(text, start, i) ==> SpanEnd(text, start) == Some(i)
    ensures Run(INIT, text[start..i + 1]) == Broken && Run(INIT, text[start..i]).Active? ==> SpanEnd(text, start) == None
  {
    var r := SpanEnd(text, start);
    if ClosesAt(text, start, i) {
      ClosesOnce(text, start, i, r.value);
    }
    if Run(INIT, text[start..i + 1]) == Broken && Run(INIT, text[start..i]).Active? && r.Some? {
      if r.value >= i {
        SettledAfter(text, start, i, r.value);
      } else {
        SettledAfter(text, start, r.value, i - 1);
      }
    }
  }

  /** A prefix that is closed or broken stays so. */
  lemma SettledAfter(text: string, start: nat, i: nat, j: nat)
    requires start <= i <= j < |text| && !Run(INIT, text[start..i + 1]).Active?
    ensures Run(INIT, text[start..j + 1]) == Run(INIT, text[start..i + 1])
  {
    assert text[start..j + 1] == text[start..i + 1] + text[i + 1..j + 1];
    RunConcat(INIT, text[start..i + 1], text[i + 1..j + 1]);
    RunSettled(Run(INIT, text[start..i + 1]), text[i + 1..j + 1]);
  }

  lemma NeverSettles(text: string, start: nat)
    requires start < |text| && Run(INIT, text[start..]).Active?
    ensures SpanEnd(text, start) == None
  {
    var r := SpanEnd(text, start);
    assert text[start..|text| - 1 + 1] == text[start..];
    if r.Some? {
      SettledAfter(text, start, r.value, |text| - 1);
    }
  }

  lemma RunNext(text: string, start: nat, i: nat)
    requires start <= i < |text|
    ensures Run(INIT, text[start..i + 1]) == Step(Run(INIT, text[start..i]), text[i])
  {
    assert text[start..i + 1] == text[start..i] + [text[i]];
    RunConcat(INIT, text[start..i], [text[i]]);
    RunOne(Run(INIT, text[start..i]), text[i]);
  }

  /** The inner loop: from an opening bracket to the bracket that closes it. */
  method ScanFrom(text: string, start: nat) returns (end: Option<nat>)
    requires start < |text| && IsOpen(text[start])
    ensures end == SpanEnd(text, start)
  {
    var stack, inString, escaped := "", false, false;
    for i := start to |text|
      invariant Run(INIT, text[start..i]) == Active(stack, inString, escaped)
    {
      var c := text[i];
      RunNext(text, start, i);
      ScanSettles(text, start, i);
      if inString {
        if escaped { escaped := false; }
        else if c == '\\' { escaped := true; }
        else if c == '"' { inString := false; }
        continue;
      }
      if c == '"' {
        inString := true;
        continue;
      }
      if IsOpen(c) {
        stack := stack + [c];
      } else if IsClose(c) {
        if stack == "" || stack[|stack| - 1] != Opening(c) { return None; }
        stack := stack[..|stack| - 1];
        if |stack| == 0 { return Some(i); }
      }
    }
    assert text[start..|text|] == text[start..];
    NeverSettles(text, start);
    return None;
  }

  lemma CandidatesStep<V>(text: string, start: nat, parse: string -> Option<V>, before: seq<V>)
    requires start < |text|
    ensures before + Candidates(text, start, parse) == before + Emitted(text, start, parse) + Candidates(text, start + 1, parse)
  {
    Associative(before, Emitted(text, start, parse), Candidates(text, start + 1, parse));
  }

  /** One round of the outer loop: the value of the span that starts here, when there is one and it parses. */
  method EmitFrom<V>(text: string, start: nat, parse: string -> Option<V>) returns (emitted: seq<V>)
    requires start < |text|
    ensures emitted == Emitted(text, start, parse)
  {
    if !IsOpen(text[start]) { return []; }
    var end := ScanFrom(text, start);
    if end.None? { return []; }
    var value := parse(text[start..end.value + 1]);
    emitted := if value.Some? then [value.value] else [];
  }

  /** `balancedJsonCandidates`: every start position is tried, also inside spans already emitted. */
  method BalancedJsonCandidates<V>(text: string, parse: string -> Option<V>) returns (candidates: seq<V>)
    ensures candidates == Candidates(text, 0, parse)
  {
    candidates := [];
    for start := 0 to |text|
      invariant Candidates(text, 0, parse) == candidates + Candidates(text, start, parse)
    {
      CandidatesStep(text, start, parse, candidates);
      var emitted := EmitFrom(text, start, parse);
      candidates := candidates + emitted;
    }
  }

  predicate FirstRecord<V>(candidates: seq<V>, isRecord: V -> bool, i: int) {
    0 <= i < |candidates| && isRecord(candidates[i]) && forall j :: 0 <= j < i ==> !isRecord(candidates[j])
  }

  /** `parseJsonPayload`: the first candidate that is an object. */
  method ParseJsonPayload<V>(text: string, parse: string -> Option<V>, isRecord: V -> bool) returns (payload: Option<V>)
    ensures payload.None? ==> forall v :: v in Candidates(text, 0, parse) ==> !isRecord(v)
    ensures payload.Some? ==> exists i :: FirstRecord(Candidates(text, 0, parse), isRecord, i) && Candidates(text, 0, parse)[i] == payload.value
  {
    var candidates := BalancedJsonCandidates(text, parse);
    for i := 0 to |candidates|
      invariant forall j :: 0 <= j < i ==> !isRecord(candidates[j])
    {
      if isRecord(candidates[i]) {
        assert FirstRecord(candidates, isRecord, i);
        return Some(candidates[i]);
      }
    }
    return None;
  }

  // ---- what a span is, independently of the scanner ----

  /** Inside a string or not, and whether the next character is escaped. */
  datatype StringMode = Mode(inString: bool, escaped: bool)

  const PLAIN: StringMode := Mode(false, false)

  function CharMode(m: StringMode, c: char): StringMode {
    if m.inString then Mode(m.escaped || c != '"', !m.escaped && c == '\\') else Mode(c == '"', false)
  }

  function TextMode(m: StringMode, text: string): StringMode
    decreases text
  {
    if text == "" then m else TextMode(CharMode(m, text[0]), text[1..])
  }

  /** The brackets of the text that stand outside strings. */
  function Skeleton(m: StringMode, text: string): string
    decreases text
  {
    if text == "" then ""
    else (if !m.inString && (IsOpen(text[0]) || IsClose(text[0])) then [text[0]] else "") + Skeleton(CharMode(m, text[0]), text[1..])
  }

  /** Well-nested brackets: an opening bracket, what it encloses, its closing bracket, and what follows. */
  datatype Nest = Empty | Nested(open: char, inside: Nest, rest: Nest)

  predicate WellFormed(n: Nest) { n.Nested? ==> IsOpen(n.open) && WellFormed(n.inside) && WellFormed(n.rest) }

  function Flatten(n: Nest): string {
    match n
    case Empty => ""
    case Nested(open, inside, rest) => [open] + Flatten(inside) + [Closing(open)] + Flatten(rest)
  }

  /** A span that opens with a bracket and ends with the matching one, properly nested outside strings. */
  ghost predicate IsBalancedSpan(span: string) {
    && |span| >= 2 && IsOpen(span[0]) && span[|span| - 1] == Closing(span[0])
    && !TextMode(PLAIN, span[..|span| - 1]).inString
    && exists n :: WellFormed(n) && Skeleton(PLAIN, span[..|span| - 1]) == [span[0]] + Flatten(n)
  }

  // ---- the scanner on skeletons ----

  /** What brackets alone do to the stack. */
  function StackRun(s: Scan, w: string): Scan
    decreases w
  {
    if w == "" || !s.Active? then s else StackRun(Step(s, w[0]), w[1..])
  }

  function Outside(stack: string): Scan { Active(stack, false, false) }

  /** Scanning a text does to the stack what its skeleton does, and to the string state what the text does. */
  lemma {:induction false} RunIsStackRun(stack: string, m: StringMode, text: string)
    requires m.escaped ==> m.inString
    ensures var after := StackRun(Outside(stack), Skeleton(m, text));
            var m' := TextMode(m, text);
            (m'.escaped ==> m'.inString) &&
            Run(Active(stack, m.inString, m.escaped), text) ==
              (if after.Active? then Active(after.stack, m'.inString, m'.escaped) else after)
    decreases text
  {
    if text != "" {
      var c := text[0];
      var next := Step(Active(stack, m.inString, m.escaped), c);
      var tail := Skeleton(CharMode(m, c), text[1..]);
      if !m.inString && (IsOpen(c) || IsClose(c)) {
        assert ([c] + tail)[1..] == tail;
        if next.Active? {
          RunIsStackRun(next.stack, CharMode(m, c), text[1..]);
        } else {
          RunSettled(next, text[1..]);
          RunIsStackRun(stack, CharMode(m, c), text[1..]);
        }
      } else {
        assert Skeleton(m, text) == tail;
        RunIsStackRun(stack, CharMode(m, c), text[1..]);
      }
    }
  }

  lemma {:induction false} SkeletonBrackets(m: StringMode, text: string)
    ensures forall i :: 0 <= i < |Skeleton(m, text)| ==> IsOpen(Skeleton(m, text)[i]) || IsClose(Skeleton(m, text)[i])
    decreases text
  {
    if text != "" {
      SkeletonBrackets(CharMode(m, text[0]), text[1..]);
    }
  }

  lemma {:induction false} StackRunConcat(s: Scan, a: string, b: string)
    ensures StackRun(s, a + b) == StackRun(StackRun(s, a), b)
    decreases a
  {
    if a == "" {
      assert a + b == b;
    } else if s.Active? {
      assert (a + b)[0] == a[0] && (a + b)[1..] == a[1..] + b;
      StackRunConcat(Step(s, a[0]), a[1..], b);
    }
  }

  /** Well-nested brackets above a non-empty stack leave it as it was. */
  lemma {:induction false} FlattenKeepsStack(stack: string, n: Nest)
    requires stack != "" && WellFormed(n)
    ensures StackRun(Outside(stack), Flatten(n)) == Outside(stack)
    decreases n
  {
    if n.Nested? {
      var open, close := [n.open], [Closing(n.open)];
      var inner := stack + open;
      assert [n.open][1..] == "" && close[1..] == "";
      assert StackRun(Outside(stack), open) == Outside(inner);
      FlattenKeepsStack(inner, n.inside);
      assert inner[..|inner| - 1] == stack;
      assert StackRun(Outside(inner), close) == Outside(stack);
      FlattenKeepsStack(stack, n.rest);
      StackRunConcat(Outside(stack), open, Flatten(n.inside));
      StackRunConcat(Outside(stack), open + Flatten(n.inside), close);
      StackRunConcat(Outside(stack), open + Flatten(n.inside) + close, Flatten(n.rest));
    }
  }

  /** `w` closes the brackets of `stack` one by one, from the top, with nested parts in between. */
  ghost predicate Unwinds(stack: string, w: string)
    decreases |stack|
  {
    if stack == "" then exists n :: WellFormed(n) && w == Flatten(n)
    else exists n, rest :: UnwindsOne(stack, w, n, rest)
  }

  ghost predicate UnwindsOne(stack: string, w: string, n: Nest, rest: string)
    requires stack != ""
    decreases |stack|, 0
  {
    && WellFormed(n) && w == Flatten(n) + [Closing(stack[|stack| - 1])] + rest
    && Unwinds(stack[..|stack| - 1], rest)
  }

  lemma StackRunSettled(s: Scan, w: string)
    ensures !s.Active? ==> StackRun(s, w) == s
  {
  }

  /** A bracket word that brings the stack back to its bottom element consists of nested parts and closings. */
  lemma {:induction false} ReturnUnwinds(bottom: char, stack: string, w: string, end: string)
    requires forall i :: 0 <= i < |w| ==> IsOpen(w[i]) || IsClose(w[i])
    requires forall i :: 0 <= i < |stack| ==> IsOpen(stack[i])
    requires StackRun(Outside([bottom] + stack), w) == Outside(end) && |end| == 1
    ensures end == [bottom] && Unwinds(stack, w)
    decreases w
  {
    var full := [bottom] + stack;
    if w == "" {
      assert Flatten(Empty) == w;
    } else {
      var next := Step(Outside(full), w[0]);
      StackRunSettled(next, w[1..]);
      if IsOpen(w[0]) {
        assert next.stack == [bottom] + (stack + [w[0]]);
        ReturnUnwinds(bottom, stack + [w[0]], w[1..], end);
        OpenUnwinds(stack, w);
      } else if stack != "" {
        var top := stack[|stack| - 1];
        assert full[|full| - 1] == top;
        assert next.stack == [bottom] + stack[..|stack| - 1];
        ReturnUnwinds(bottom, stack[..|stack| - 1], w[1..], end);
        assert w == Flatten(Empty) + [Closing(top)] + w[1..];
        assert UnwindsOne(stack, w, Empty, w[1..]);
      }
    }
  }

  lemma OpenUnwinds(stack: string, w: string)
    requires w != "" && IsOpen(w[0]) && Unwinds(stack + [w[0]], w[1..])
    ensures Unwinds(stack, w)
  {
    var c := w[0];
    var deeper := stack + [c];
    assert deeper[..|deeper| - 1] == stack && deeper[|deeper| - 1] == c;
    var inside, rest :| UnwindsOne(deeper, w[1..], inside, rest);
    assert Unwinds(stack, rest);
    assert w == [c] + w[1..];
    if stack == "" {
      var n :| WellFormed(n) && rest == Flatten(n);
      Regroup(c, inside, n, w, rest, "");
      assert w == Flatten(Nested(c, inside, n));
    } else {
      var n, rest' :| UnwindsOne(stack, rest, n, rest');
      var tail := [Closing(stack[|stack| - 1])] + rest';
      assert rest == Flatten(n) + tail;
      Regroup(c, inside, n, w, rest, tail);
      assert UnwindsOne(stack, w, Nested(c, inside, n), rest');
    }
  }

  lemma Regroup(c: char, inside: Nest, n: Nest, w: string, rest: string, tail: string)
    requires w == [c] + (Flatten(inside) + [Closing(c)] + rest) && rest == Flatten(n) + tail
    ensures w == Flatten(Nested(c, inside, n)) + tail
  {
  }

  lemma OpensSkeleton(body: string)
    requires body != "" && IsOpen(body[0])
    ensures Skeleton(PLAIN, body) == [body[0]] + Skeleton(PLAIN, body[1..])
    ensures forall n :: WellFormed(n) && Skeleton(PLAIN, body[1..]) == Flatten(n) ==>
              StackRun(Outside(""), Skeleton(PLAIN, body)) == Outside([body[0]])
    ensures StackRun(Outside(""), Skeleton(PLAIN, body)) == StackRun(Outside([body[0]]), Skeleton(PLAIN, body[1..]))
  {
    var w := Skeleton(PLAIN, body[1..]);
    assert ([body[0]] + w)[1..] == w;
    assert Step(Outside(""), body[0]) == Outside([body[0]]);
    forall n | WellFormed(n) && w == Flatten(n)
      ensures StackRun(Outside(""), [body[0]] + w) == Outside([body[0]]) {
      FlattenKeepsStack([body[0]], n);
    }
  }

  /** The scan that reads `body` and then closes on `last`. */
  ghost predicate ClosesOn(body: string, last: char) {
    Run(INIT, body).Active? && Step(Run(INIT, body), last) == Closed
  }

  lemma ClosesImpliesBalanced(body: string, last: char)
    requires body != "" && IsOpen(body[0]) && ClosesOn(body, last)
    ensures IsBalancedSpan(body + [last])
  {
    var span := body + [last];
    assert span[..|span| - 1] == body;
    RunIsStackRun("", PLAIN, body);
    OpensSkeleton(body);
    SkeletonBrackets(PLAIN, body[1..]);
    var stack := StackRun(Outside(""), Skeleton(PLAIN, body)).stack;
    StackRunMode(Outside(""), Skeleton(PLAIN, body));
    assert [body[0]] + "" == [body[0]];
    ReturnUnwinds(body[0], "", Skeleton(PLAIN, body[1..]), stack);
  }

  lemma {:induction false} StackRunMode(s: Scan, w: string)
    requires s.Active? && !s.inString && !s.escaped
    requires forall i :: 0 <= i < |w| ==> IsOpen(w[i]) || IsClose(w[i])
    ensures StackRun(s, w).Active? ==> StackRun(s, w) == Outside(StackRun(s, w).stack)
    decreases w
  {
    if w != "" && Step(s, w[0]).Active? {
      StackRunMode(Step(s, w[0]), w[1..]);
    }
  }

  lemma BalancedImpliesCloses(body: string, last: char)
    requires IsBalancedSpan(body + [last])
    ensures body != "" && IsOpen(body[0]) && ClosesOn(body, last)
  {
    var span := body + [last];
    assert span[..|span| - 1] == body && span[0] == body[0];
    RunIsStackRun("", PLAIN, body);
    OpensSkeleton(body);
    var n :| WellFormed(n) && Skeleton(PLAIN, body) == [body[0]] + Flatten(n);
    assert Skeleton(PLAIN, body[1..]) == Skeleton(PLAIN, body)[1..] == Flatten(n);
  }

  /** The scan closes at `end` exactly when the text from `start` to `end` is a balanced span. */
  lemma ClosesIffBalanced(text: string, start: nat, end: nat)
    requires start <= end < |text|
    ensures ClosesAt(text, start, end) <==> IsBalancedSpan(text[start..end + 1])
  {
    var span, body, last := text[start..end + 1], text[start..end], text[end];
    assert span == body + [last];
    RunNext(text, start, end);
    if ClosesAt(text, start, end) {
      assert body != "" by {
        assert body == "" ==> Run(INIT, body) == INIT;
      }
      ClosesImpliesBalanced(body, last);
    }
    if IsBalancedSpan(span) {
      BalancedImpliesCloses(body, last);
    }
  }

  /** The balanced span from `s` to `e` parses to `v`. */
  ghost predicate SpanParsesTo<V>(text: string, s: int, e: int, parse: string -> Option<V>, v: V) {
    0 <= s <= e < |text| && IsBalancedSpan(text[s..e + 1]) && parse(text[s..e + 1]) == Some(v)
  }

  /** Every value the scanner emits was parsed from a balanced span, and every balanced span that parses is emitted. */
  lemma {:induction false} EmittedAreBalanced<V>(text: string, start: nat, parse: string -> Option<V>, v: V)
    ensures v in Candidates(text, start, parse) <==> exists s, e :: start <= s && SpanParsesTo(text, s, e, parse, v)
    decreases |text| - start
  {
    if start < |text| {
      EmittedAreBalanced(text, start + 1, parse, v);
      EmittedHere(text, start, parse, v);
      if s, e :| start <= s && SpanParsesTo(text, s, e, parse, v) {
        assert s == start || start + 1 <= s;
      }
    }
  }

  lemma EmittedHere<V>(text: string, start: nat, parse: string -> Option<V>, v: V)
    requires start < |text|
    ensures v in Emitted(text, start, parse) <==> exists e :: SpanParsesTo(text, start, e, parse, v)
  {
    if v in Emitted(text, start, parse) {
      ClosesIffBalanced(text, start, SpanEnd(text, start).value);
      assert SpanParsesTo(text, start, SpanEnd(text, start).value, parse, v);
    }
    forall e | SpanParsesTo(text, start, e, parse, v) ensures v in Emitted(text, start, parse) {
      ClosesIffBalanced(text, start, e);
      ClosesOnce(text, start, e, SpanEnd(text, start).value);
    }
  }

  // ---- printed JSON ----

  /** One character of a string literal: itself, or a backslash escape (section 7 of RFC 8259). */
  datatype Piece = Plain(c: char) | Escape(c: char, hex: string)

  /** A JSON text with its insignificant white space (section 2 of RFC 8259). */
  datatype Json =
    | Literal(name: string)
    | Number(digits: string)
    | Str(pieces: seq<Piece>)
    | Arr(blank: string, items: Items)
    | Obj(blank': string, members: Members)

  datatype Items = NoItems | Item(before: string, value: Json, after: string, rest: Items)

  datatype Members =
    | NoMembers
    | Member(before: string, key: seq<Piece>, beforeColon: string, afterColon: string, value: Json, after: string, rest: Members)

  predicate IsBlank(s: string) { forall i :: 0 <= i < |s| ==> s[i] in {' ', '\t', '\n', '\r'} }

  predicate IsHex(c: char) { '0' <= c <= '9' || 'a' <= c <= 'f' || 'A' <= c <= 'F' }

  predicate ValidPiece(p: Piece) {
    match p
    case Plain(c) => c != '"' && c != '\\' && ' ' <= c
    case Escape(c, hex) =>
      (c in {'"', '\\', '/', 'b', 'f', 'n', 'r', 't'} && hex == "") ||
      (c == 'u' && |hex| == 4 && forall i :: 0 <= i < 4 ==> IsHex(hex[i]))
  }

  predicate ValidPieces(ps: seq<Piece>) { forall i :: 0 <= i < |ps| ==> ValidPiece(ps[i]) }

  /** Numbers are kept as text; every character a JSON number may contain is allowed. */
  predicate IsNumeral(s: string) { s != "" && forall i :: 0 <= i < |s| ==> s[i] in {'+', '-', '.', 'e', 'E'} || '0' <= s[i] <= '9' }

  predicate Valid(j: Json) {
    match j
    case Literal(name) => name in {"true", "false", "null"}
    case Number(digits) => IsNumeral(digits)
    case Str(pieces) => ValidPieces(pieces)
    case Arr(blank, items) => IsBlank(blank) && ValidItems(items)
    case Obj(blank, members) => IsBlank(blank) && ValidMembers(members)
  }

  predicate ValidItems(items: Items) {
    items.Item? ==> IsBlank(items.before) && Valid(items.value) && IsBlank(items.after) && ValidItems(items.rest)
  }

  predicate ValidMembers(ms: Members) {
    ms.Member? ==>
      && IsBlank(ms.before) && ValidPieces(ms.key) && IsBlank(ms.beforeColon) && IsBlank(ms.afterColon)
      && Valid(ms.value) && IsBlank(ms.after) && ValidMembers(ms.rest)
  }

  function PrintPiece(p: Piece): string {
    match p
    case Plain(c) => [c]
    case Escape(c, hex) => ['\\', c] + hex
  }

  function PrintPieces(ps: seq<Piece>): string {
    if ps == [] then "" else PrintPiece(ps[0]) + PrintPieces(ps[1..])
  }

  function PrintString(ps: seq<Piece>): string { "\"" + PrintPieces(ps) + "\"" }

  function Print(j: Json): string {
    match j
    case Literal(name) => name
    case Number(digits) => digits
    case Str(pieces) => PrintString(pieces)
    case Arr(blank, items) => "[" + (blank + PrintItems(items)) + "]"
    case Obj(blank, members) => "{" + (blank + PrintMembers(members)) + "}"
  }

  function PrintItems(items: Items): string {
    match items
    case NoItems => ""
    case Item(before, value, after, rest) =>
      before + Print(value) + after + (if rest.Item? then "," else "") + PrintItems(rest)
  }

  function PrintMembers(ms: Members): string {
    match ms
    case NoMembers => ""
    case Member(before, key, beforeColon, afterColon, value, after, rest) =>
      before + PrintString(key) + beforeColon + ":" + afterColon + Print(value) + after
      + (if rest.Member? then "," else "") + PrintMembers(rest)
  }

  // ---- the scanner reads printed JSON back ----

  /** Reading `text` outside strings, below an open bracket, changes nothing. */
  ghost predicate Neutral(text: string) {
    forall stack :: stack != "" ==> Run(Outside(stack), text) == Outside(stack)
  }

  predicate IsFlat(c: char) { c != '"' && !IsOpen(c) && !IsClose(c) }

  lemma {:induction false} FlatIsNeutral(text: string)
    requires forall i :: 0 <= i < |text| ==> IsFlat(text[i])
    ensures Neutral(text)
    decreases text
  {
    forall stack | stack != "" ensures Run(Outside(stack), text) == Outside(stack) {
      if text != "" {
        FlatIsNeutral(text[1..]);
        assert Step(Outside(stack), text[0]) == Outside(stack);
      }
    }
  }

  lemma NeutralConcat(a: string, b: string)
    requires Neutral(a) && Neutral(b)
    ensures Neutral(a + b)
  {
    forall stack | stack != "" ensures Run(Outside(stack), a + b) == Outside(stack) {
      RunConcat(Outside(stack), a, b);
    }
  }

  /** Inside a string, the characters of the literal keep the scanner inside it. */
  lemma {:induction false} PiecesStayInside(stack: string, ps: seq<Piece>)
    requires ValidPieces(ps)
    ensures Run(Active(stack, true, false), PrintPieces(ps)) == Active(stack, true, false)
    decreases |ps|
  {
    if ps != [] {
      PiecesStayInside(stack, ps[1..]);
      RunConcat(Active(stack, true, false), PrintPiece(ps[0]), PrintPieces(ps[1..]));
      PieceStaysInside(stack, ps[0]);
    }
  }

  lemma PieceStaysInside(stack: string, p: Piece)
    requires ValidPiece(p)
    ensures Run(Active(stack, true, false), PrintPiece(p)) == Active(stack, true, false)
  {
    match p
    case Plain(c) => RunOne(Active(stack, true, false), c);
    case Escape(c, hex) =>
      var text := ['\\', c] + hex;
      assert text[1..] == [c] + hex && ([c] + hex)[1..] == hex;
      assert Run(Active(stack, true, false), text) == Run(Active(stack, true, false), hex);
      HexStaysInside(stack, hex);
  }

  lemma {:induction false} HexStaysInside(stack: string, hex: string)
    requires forall i :: 0 <= i < |hex| ==> IsHex(hex[i])
    ensures Run(Active(stack, true, false), hex) == Active(stack, true, false)
    decreases hex
  {
    if hex != "" {
      HexStaysInside(stack, hex[1..]);
    }
  }

  lemma StringIsNeutral(ps: seq<Piece>)
    requires ValidPieces(ps)
    ensures Neutral(PrintString(ps))
  {
    forall stack | stack != "" ensures Run(Outside(stack), PrintString(ps)) == Outside(stack) {
      var body := PrintPieces(ps);
      RunOne(Outside(stack), '"');
      PiecesStayInside(stack, ps);
      RunOne(Active(stack, true, false), '"');
      RunConcat(Outside(stack), "\"", body);
      RunConcat(Outside(stack), "\"" + body, "\"");
    }
  }

  lemma BracketsAreNeutral(open: char, body: string)
    requires IsOpen(open) && Neutral(body)
    ensures Neutral([open] + body + [Closing(open)])
    ensures Run(INIT, [open] + body) == Outside([open])
  {
    OpenAndRead("", open, body);
    assert "" + [open] == [open];
    forall stack | stack != "" ensures Run(Outside(stack), [open] + body + [Closing(open)]) == Outside(stack) {
      OpenReadClose(stack, open, body);
    }
  }

  lemma OpenReadClose(stack: string, open: char, body: string)
    requires IsOpen(open) && Neutral(body) && stack != ""
    ensures Run(Outside(stack), [open] + body + [Closing(open)]) == Outside(stack)
  {
    var inner, read := stack + [open], [open] + body;
    OpenAndRead(stack, open, body);
    RunConcat(Outside(stack), read, [Closing(open)]);
    RunOne(Outside(inner), Closing(open));
    assert inner[..|inner| - 1] == stack;
  }

  lemma OpenAndRead(stack: string, open: char, body: string)
    requires IsOpen(open) && Neutral(body)
    ensures Run(Outside(stack), [open] + body) == Outside(stack + [open])
  {
    RunOne(Outside(stack), open);
    RunConcat(Outside(stack), [open], body);
  }

  lemma {:induction false} PrintIsNeutral(j: Json)
    requires Valid(j)
    ensures Neutral(Print(j))
    decreases j
  {
    match j
    case Literal(name) => FlatIsNeutral(name);
    case Number(digits) => FlatIsNeutral(digits);
    case Str(pieces) => StringIsNeutral(pieces);
    case Arr(blank, items) =>
      FlatIsNeutral(blank);
      ItemsAreNeutral(items);
      NeutralConcat(blank, PrintItems(items));
      BracketsAreNeutral('[', blank + PrintItems(items));
    case Obj(blank, members) =>
      FlatIsNeutral(blank);
      MembersAreNeutral(members);
      NeutralConcat(blank, PrintMembers(members));
      BracketsAreNeutral('{', blank + PrintMembers(members));
  }

  lemma {:induction false} ItemsAreNeutral(items: Items)
    requires ValidItems(items)
    ensures Neutral(PrintItems(items))
    decreases items
  {
    match items
    case NoItems =>
    case Item(before, value, after, rest) =>
      var comma := if rest.Item? then "," else "";
      FlatIsNeutral(before); FlatIsNeutral(after); FlatIsNeutral(comma);
      PrintIsNeutral(value);
      ItemsAreNeutral(rest);
      NeutralConcat(before, Print(value));
      NeutralConcat(before + Print(value), after);
      NeutralConcat(before + Print(value) + after, comma);
      NeutralConcat(before + Print(value) + after + comma, PrintItems(rest));
  }

  lemma {:induction false} MembersAreNeutral(ms: Members)
    requires ValidMembers(ms)
    ensures Neutral(PrintMembers(ms))
    decreases ms
  {
    match ms
    case NoMembers =>
    case Member(before, key, beforeColon, afterColon, value, after, rest) =>
      var comma := if rest.Member? then "," else "";
      FlatIsNeutral(before); FlatIsNeutral(beforeColon); FlatIsNeutral(":"); FlatIsNeutral(afterColon);
      FlatIsNeutral(after); FlatIsNeutral(comma);
      StringIsNeutral(key);
      PrintIsNeutral(value);
      MembersAreNeutral(rest);
      var a := before + PrintString(key);
      NeutralConcat(before, PrintString(key));
      NeutralConcat(a, beforeColon);
      NeutralConcat(a + beforeColon, ":");
      NeutralConcat(a + beforeColon + ":", afterColon);
      NeutralConcat(a + beforeColon + ":" + afterColon, Print(value));
      NeutralConcat(a + beforeColon + ":" + afterColon + Print(value), after);
      NeutralConcat(a + beforeColon + ":" + afterColon + Print(value) + after, comma);
      NeutralConcat(a + beforeColon + ":" + afterColon + Print(value) + after + comma, PrintMembers(rest));
  }

  /** The scan of a printed array or object closes on its last character and not before. */
  lemma PrintedCloses(j: Json)
    requires Valid(j) && (j.Arr? || j.Obj?)
    ensures ClosesAt(Print(j), 0, |Print(j)| - 1)
  {
    var text := Print(j);
    var open := if j.Arr? then '[' else '{';
    var body := if j.Arr? then j.blank + PrintItems(j.items) else j.blank' + PrintMembers(j.members);
    FlatIsNeutral(if j.Arr? then j.blank else j.blank');
    if j.Arr? {
      ItemsAreNeutral(j.items);
      NeutralConcat(j.blank, PrintItems(j.items));
    } else {
      MembersAreNeutral(j.members);
      NeutralConcat(j.blank', PrintMembers(j.members));
    }
    BracketsAreNeutral(open, body);
    assert text == [open] + body + [Closing(open)];
    assert text[0..|text| - 1] == [open] + body;
    RunNext(text, 0, |text| - 1);
  }

  /** Where a scan closes depends on the characters it reads only. */
  lemma ClosesShift(prefix: string, body: string, suffix: string, end: nat)
    requires ClosesAt(body, 0, end)
    ensures ClosesAt(prefix + body + suffix, |prefix|, |prefix| + end)
  {
    var text := prefix + body + suffix;
    assert text[|prefix|..|prefix| + end] == body[0..end];
    assert text[|prefix|..|prefix| + end + 1] == body[0..end + 1];
  }

  lemma {:induction false} NothingBeforeBracket<V>(text: string, start: nat, n: nat, parse: string -> Option<V>)
    requires start <= n <= |text| && forall i :: start <= i < n ==> !IsOpen(text[i])
    ensures Candidates(text, start, parse) == Candidates(text, n, parse)
    decreases n - start
  {
    if start < n {
      NothingBeforeBracket(text, start + 1, n, parse);
      NotOpenEmitsNothing(text, start, parse);
      assert [] + Candidates(text, start + 1, parse) == Candidates(text, start + 1, parse);
    }
  }

  lemma NotOpenEmitsNothing<V>(text: string, start: nat, parse: string -> Option<V>)
    requires start < |text| && !IsOpen(text[start])
    ensures Emitted(text, start, parse) == []
  {
  }

  /**
   * A JSON array or object, printed with any white space after text without brackets and before any text, is the
   * first value the scanner emits.
   */
  lemma FirstCandidateIsPrinted<V>(prefix: string, j: Json, suffix: string, parse: string -> Option<V>, v: V)
    requires Valid(j) && (j.Arr? || j.Obj?) && parse(Print(j)) == Some(v)
    requires forall i :: 0 <= i < |prefix| ==> !IsOpen(prefix[i])
    ensures var text := prefix + Print(j) + suffix;
            Candidates(text, 0, parse) == [v] + Candidates(text, |prefix| + 1, parse)
  {
    var text := prefix + Print(j) + suffix;
    assert forall i :: 0 <= i < |prefix| ==> text[i] == prefix[i];
    NothingBeforeBracket(text, 0, |prefix|, parse);
    PrintedEmitted(prefix, j, suffix, parse);
  }

  lemma PrintedEmitted<V>(prefix: string, j: Json, suffix: string, parse: string -> Option<V>)
    requires Valid(j) && (j.Arr? || j.Obj?) && parse(Print(j)).Some?
    ensures Emitted(prefix + Print(j) + suffix, |prefix|, parse) == [parse(Print(j)).value]
  {
    var body := Print(j);
    var text := prefix + body + suffix;
    PrintedCloses(j);
    var end := |prefix| + (|body| - 1);
    ClosesShift(prefix, body, suffix, |body| - 1);
    ClosesOnce(text, |prefix|, end, SpanEnd(text, |prefix|).value);
    assert text[|prefix|..end + 1] == body;
  }
}
