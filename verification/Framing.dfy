// Length-prefixed frames, and decoding a stream of them however it is cut into chunks.
module Framing {
  import opened Text

  type Byte = b: int | 0 <= b < 256

  const MAX_FRAME_BYTES := 64 * 1024 * 1024

  /** The body codec, of which only the inverse law is used. */
  datatype Codec<!T> = Codec(encode: T -> seq<Byte>, decode: seq<Byte> -> Option<T>)

  ghost predicate Lawful<T(!new)>(codec: Codec<T>) { forall m :: codec.decode(codec.encode(m)) == Some(m) }

  /** Outcome of one decoding step; `Incomplete` keeps the buffer, the last two are thrown errors. */
  datatype Decoding<T> = Incomplete(buffer: seq<Byte>) | Decoded(message: T, rest: seq<Byte>) | Oversized(length: nat) | Corrupt

  // ---- the header ----

  function ReadUInt32BE(s: seq<Byte>): (n: nat)
    requires |s| >= 4
    ensures n < 0x1_0000_0000
  {
    (s[0] as int) * 0x100_0000 + (s[1] as int) * 0x1_0000 + (s[2] as int) * 0x100 + s[3] as int
  }

  function Header(n: nat): (s: seq<Byte>)
    requires n < 0x1_0000_0000
    ensures |s| == 4
  {
    [n / 0x100_0000, n / 0x1_0000 % 0x100, n / 0x100 % 0x100, n % 0x100]
  }

  lemma Digits(n: nat)
    ensures n == n / 0x100_0000 * 0x100_0000 + n / 0x1_0000 % 0x100 * 0x1_0000 + n / 0x100 % 0x100 * 0x100 + n % 0x100
  {
    var a, b := n / 0x100, n / 0x1_0000;
    assert a / 0x100 == b && b / 0x100 == n / 0x100_0000;
    assert n == a * 0x100 + n % 0x100 && a == b * 0x100 + a % 0x100 && b == b / 0x100 * 0x100 + b % 0x100;
  }

  lemma HeaderReads(n: nat, tail: seq<Byte>)
    requires n < 0x1_0000_0000
    ensures ReadUInt32BE(Header(n) + tail) == n
  {
    var s := Header(n) + tail;
    assert s[0] == n / 0x100_0000 && s[1] == n / 0x1_0000 % 0x100 && s[2] == n / 0x100 % 0x100 && s[3] == n % 0x100;
    Digits(n);
  }

  // ---- frames ----

  function Frame(body: seq<Byte>): (frame: seq<Byte>)
    requires |body| < 0x1_0000_0000
    ensures |frame| == 4 + |body|
  {
    Header(|body|) + body
  }

  /** Writing the header throws for a body of 4 GiB or more. */
  method EncodeFrame<T>(codec: Codec<T>, message: T) returns (frame: Option<seq<Byte>>)
    ensures frame.Some? <==> |codec.encode(message)| < 0x1_0000_0000
    ensures frame.Some? ==> frame.value == Frame(codec.encode(message))
    ensures frame.Some? ==> |frame.value| >= 4 && frame.value[4..] == codec.encode(message)
    ensures frame.Some? ==>
              var f := frame.value;
              (f[0] as int) * 0x100_0000 + (f[1] as int) * 0x1_0000 + (f[2] as int) * 0x100 + f[3] as int == |codec.encode(message)|
  {
    var body := codec.encode(message);
    if |body| >= 0x1_0000_0000 { return None; }
    var header := new Byte[4](_ => 0);
    var n := |body|;
    header[3] := n % 0x100;
    header[2] := n / 0x100 % 0x100;
    header[1] := n / 0x1_0000 % 0x100;
    header[0] := n / 0x100_0000;
    assert header[..] == Header(n);
    HeaderReads(n, body);
    return Some(header[..] + body);
  }

  function DecodeFrame<T>(codec: Codec<T>, buffer: seq<Byte>): Decoding<T> {
    if |buffer| < 4 then Incomplete(buffer)
    else
      var length := ReadUInt32BE(buffer);
      if length > MAX_FRAME_BYTES then Oversized(length)
      else if |buffer| - 4 < length then Incomplete(buffer)
      else match codec.decode(buffer[4..4 + length])
        case None => Corrupt
        case Some(message) => Decoded(message, buffer[4 + length..])
  }

  /** A frame decodes to its message, leaving what follows, exactly when its body is within the cap; otherwise its header
      is refused, although it could be encoded. */
  lemma FrameRoundTripIff<T(!new)>(codec: Codec<T>, message: T, tail: seq<Byte>)
    requires Lawful(codec) && |codec.encode(message)| < 0x1_0000_0000
    ensures var body := codec.encode(message);
            DecodeFrame(codec, Frame(body) + tail) ==
            if |body| <= 64 * 1024 * 1024 then Decoded(message, tail) else Oversized(|body|)
  {
    var body := codec.encode(message);
    var buffer := Frame(body) + tail;
    assert buffer == Header(|body|) + (body + tail);
    HeaderReads(|body|, body + tail);
    assert buffer[4..4 + |body|] == body && buffer[4 + |body|..] == tail;
  }

  /** Every proper prefix of a frame within the cap waits for more, with the buffer untouched. */
  lemma PrefixWaits<T>(codec: Codec<T>, body: seq<Byte>, n: nat)
    requires |body| <= MAX_FRAME_BYTES && n < |Frame(body)|
    ensures DecodeFrame(codec, Frame(body)[..n]) == Incomplete(Frame(body)[..n])
  {
    if n >= 4 {
      HeaderReads(|body|, body);
      assert Frame(body)[..n][..4] == Frame(body)[..4];
    }
  }

  // ---- streams ----

  /** What a buffer yields when decoded until it waits (`rest`) or throws (no rest). */
  datatype Drained<T> = Drained(messages: seq<T>, rest: Option<seq<Byte>>)

  function Drain<T>(codec: Codec<T>, buffer: seq<Byte>): (d: Drained<T>)
    decreases |buffer|
  {
    match DecodeFrame(codec, buffer)
    case Incomplete(rest) => Drained([], Some(rest))
    case Decoded(message, rest) =>
      var later := Drain(codec, rest);
      Drained([message] + later.messages, later.rest)
    case _ => Drained([], None)
  }

  /** Feeding chunks one by one, draining after each and stopping at an error. */
  function Feed<T>(codec: Codec<T>, buffer: seq<Byte>, chunks: seq<seq<Byte>>): Drained<T>
    decreases |chunks|
  {
    if chunks == [] then Drained([], Some(buffer))
    else
      var now := Drain(codec, buffer + chunks[0]);
      if now.rest.None? then now
      else
        var later := Feed(codec, now.rest.value, chunks[1..]);
        Drained(now.messages + later.messages, later.rest)
  }

  function Joined<T>(chunks: seq<seq<T>>): seq<T> { if chunks == [] then [] else chunks[0] + Joined(chunks[1..]) }

  /** More bytes never change a decision already made. */
  lemma DecodeStable<T>(codec: Codec<T>, buffer: seq<Byte>, more: seq<Byte>)
    ensures match DecodeFrame(codec, buffer)
            case Incomplete(rest) => rest == buffer
            case Decoded(message, rest) => DecodeFrame(codec, buffer + more) == Decoded(message, rest + more)
            case Oversized(length) => DecodeFrame(codec, buffer + more) == Oversized(length)
            case Corrupt => DecodeFrame(codec, buffer + more) == Corrupt
  {
    if |buffer| >= 4 {
      var length := ReadUInt32BE(buffer);
      assert ReadUInt32BE(buffer + more) == length;
      if length <= |buffer| - 4 {
        assert (buffer + more)[4..4 + length] == buffer[4..4 + length];
        assert (buffer + more)[4 + length..] == buffer[4 + length..] + more;
      }
    }
  }

  lemma {:induction false} DrainExtends<T>(codec: Codec<T>, buffer: seq<Byte>, more: seq<Byte>)
    ensures var now := Drain(codec, buffer);
            Drain(codec, buffer + more) ==
            if now.rest.None? then now
            else var later := Drain(codec, now.rest.value + more); Drained(now.messages + later.messages, later.rest)
    decreases |buffer|
  {
    DecodeStable(codec, buffer, more);
    match DecodeFrame(codec, buffer)
    case Decoded(message, rest) =>
      DrainExtends(codec, rest, more);
      var now := Drain(codec, rest);
      if now.rest.Some? {
        Associative([message], now.messages, Drain(codec, now.rest.value + more).messages);
      }
    case _ =>
  }

  lemma {:induction false} DrainedWaits<T>(codec: Codec<T>, buffer: seq<Byte>)
    requires Drain(codec, buffer).rest.Some?
    ensures Drain(codec, Drain(codec, buffer).rest.value) == Drained([], Drain(codec, buffer).rest)
    decreases |buffer|
  {
    match DecodeFrame(codec, buffer)
    case Decoded(_, rest) => DrainedWaits(codec, rest);
    case _ =>
  }

  /** However a byte stream is cut, feeding it yields what draining it at once does, errors included. */
  lemma {:induction false} ChunkingIrrelevant<T>(codec: Codec<T>, buffer: seq<Byte>, chunks: seq<seq<Byte>>)
    requires Drain(codec, buffer) == Drained([], Some(buffer))
    ensures Feed(codec, buffer, chunks) == Drain(codec, buffer + Joined(chunks))
    decreases |chunks|
  {
    if chunks == [] {
      assert buffer + Joined(chunks) == buffer;
    } else {
      var now := Drain(codec, buffer + chunks[0]);
      assert buffer + Joined(chunks) == buffer + chunks[0] + Joined(chunks[1..]);
      DrainExtends(codec, buffer + chunks[0], Joined(chunks[1..]));
      if now.rest.Some? {
        DrainedWaits(codec, buffer + chunks[0]);
        ChunkingIrrelevant(codec, now.rest.value, chunks[1..]);
      }
    }
  }

  predicate Fits<T>(codec: Codec<T>, message: T) { |codec.encode(message)| <= MAX_FRAME_BYTES }

  predicate AllFit<T>(codec: Codec<T>, messages: seq<T>) {
    forall i :: 0 <= i < |messages| ==> Fits(codec, messages[i])
  }

  predicate Encodable<T>(codec: Codec<T>, messages: seq<T>) {
    forall i :: 0 <= i < |messages| ==> |codec.encode(messages[i])| < 0x1_0000_0000
  }

  function Frames<T>(codec: Codec<T>, messages: seq<T>): seq<Byte>
    requires Encodable(codec, messages)
  {
    if messages == [] then [] else Frame(codec.encode(messages[0])) + Frames(codec, messages[1..])
  }

  lemma {:induction false} FramesDrain<T(!new)>(codec: Codec<T>, messages: seq<T>)
    requires Lawful(codec) && Encodable(codec, messages)
    ensures Drain(codec, Frames(codec, messages)) == Drained(messages, Some([])) <==> AllFit(codec, messages)
    ensures Drain(codec, Frames(codec, messages)).rest.None? <==> !AllFit(codec, messages)
    decreases |messages|
  {
    if messages != [] {
      FrameRoundTripIff(codec, messages[0], Frames(codec, messages[1..]));
      FramesDrain(codec, messages[1..]);
      assert AllFit(codec, messages) <==> Fits(codec, messages[0]) && AllFit(codec, messages[1..]) by {
        if AllFit(codec, messages) {
          assert Fits(codec, messages[0]);
          forall i | 0 <= i < |messages[1..]| ensures Fits(codec, messages[1..][i]) { assert Fits(codec, messages[i + 1]); }
        }
      }
      assert messages == [messages[0]] + messages[1..];
    }
  }

  /** A list of messages comes through every chunking of its frames exactly, with nothing left over, if and only if every
      body is within the cap; otherwise the reader throws. */
  lemma StreamRoundTripIff<T(!new)>(codec: Codec<T>, messages: seq<T>, chunks: seq<seq<Byte>>)
    requires Lawful(codec) && Encodable(codec, messages) && Joined(chunks) == Frames(codec, messages)
    ensures Feed(codec, [], chunks) == Drained(messages, Some([])) <==> AllFit(codec, messages)
    ensures Feed(codec, [], chunks).rest.None? <==> !AllFit(codec, messages)
  {
    ChunkingIrrelevant(codec, [], chunks);
    assert [] + Joined(chunks) == Joined(chunks);
    FramesDrain(codec, messages);
  }
}
