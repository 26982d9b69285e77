/** The event stream on the wire: the worker's writer and the peer's incremental
    reader (section 9.2.6 of the WHATWG HTML standard, as far as the program uses it). */
module Sse {
  import opened Basics
  import opened Utf8
  import opened Numerals
  import opened JobRecords

  /** JSON is a library: `render` writes an event on one line, `parse` is JSON.parse
      followed by schema validation. */
  datatype Codec = Codec(render: JobEvent -> Text, parse: Text -> Option<JobEvent>)

  const LF: Scalar := 10
  const CR: Scalar := 13
  const SPACE: Scalar := 32
  const DATA: Text := [100, 97, 116, 97, 58]                                       // data:
  const ID: Text := [105, 100, 58, 32]                                             // "id: "
  const KEEPALIVE: Text := [58, 32, 107, 101, 101, 112, 97, 108, 105, 118, 101]    // : keepalive

  const MAX_SSE_EVENT_BYTES: nat := 2 * 1024 * 1024
  const MAX_SSE_TOTAL_BYTES: nat := 16 * 1024 * 1024

  ghost predicate Faithful(codec: Codec) {
    forall e :: codec.parse(codec.render(e)) == Some(e) && LF !in codec.render(e) && CR !in codec.render(e)
  }

  // ---- The writer ----------------------------------------------------------

  datatype Frame = Heartbeat | Record(event: JobEvent)

  function Lines(codec: Codec, frame: Frame): seq<Text> {
    match frame
    case Heartbeat => [KEEPALIVE, []]
    case Record(e) => [ID + Decimal(e.seqNo), DATA + [SPACE] + codec.render(e), []]
  }

  function Terminated(lines: seq<Text>): Text
    decreases |lines|
  {
    if lines == [] then [] else lines[0] + [LF] + Terminated(lines[1..])
  }

  function Wire(codec: Codec, frames: seq<Frame>): Text
    decreases |frames|
  {
    if frames == [] then [] else Terminated(Lines(codec, frames[0])) + Wire(codec, frames[1..])
  }

  function Events(frames: seq<Frame>): seq<JobEvent>
    decreases |frames|
  {
    if frames == [] then []
    else (if frames[0].Record? then [frames[0].event] else []) + Events(frames[1..])
  }

  // ---- The reader ----------------------------------------------------------

  datatype Status = Reading | Finished | TooLarge | Malformed

  datatype Parser = Parser(
    pending: Pending,
    buffer: Text,
    dataLines: seq<Text>,
    dataBytes: nat,
    totalBytes: nat,
    events: seq<JobEvent>,
    status: Status)

  const FRESH := Parser([], [], [], 0, 0, [], Reading)

  function Join(lines: seq<Text>): Text
    decreases |lines|
  {
    if lines == [] then [] else if |lines| == 1 then lines[0] else lines[0] + [LF] + Join(lines[1..])
  }

  function Bytes(text: Text): nat { |Encode(text)| }

  function StripCr(line: Text): Text {
    if line != [] && Last(line) == CR then Init(line) else line
  }

  /** Text after `data:`, with one leading space stripped. */
  function Content(line: Text): Text
    requires DATA <= line
  {
    var rest := line[|DATA|..];
    if rest != [] && rest[0] == SPACE then rest[1..] else rest
  }

  /** A blank line ends a record. */
  function Flush(codec: Codec, p: Parser): Parser {
    var clean := p.(dataLines := [], dataBytes := 0);
    if p.dataLines == [] then clean
    else match codec.parse(Join(p.dataLines))
      case None => p.(status := Malformed)
      case Some(e) =>
        clean.(events := p.events + [e], status := if e.body.ResultEvent? then Finished else Reading)
  }

  function TakeLine(codec: Codec, p: Parser, raw: Text): (q: Parser)
    ensures q.buffer == p.buffer && q.pending == p.pending && q.totalBytes == p.totalBytes && p.events <= q.events
  {
    var line := StripCr(raw);
    if line == [] then Flush(codec, p)
    else if DATA <= line then
      p.(dataLines := p.dataLines + [Content(line)], dataBytes := p.dataBytes + Bytes(Content(line)))
    else p
  }

  function IndexOfLf(text: Text): (i: nat)
    ensures i <= |text| && LF !in text[..i] && (i < |text| ==> text[i] == LF)
  {
    if text == [] then 0 else if text[0] == LF then 0 else
      var i := 1 + IndexOfLf(text[1..]);
      assert text[..i] == [text[0]] + text[1..][..i - 1];
      i
  }

  /** Consumes every complete line in the buffer. */
  function DrainLines(codec: Codec, p: Parser): Parser
    decreases |p.buffer|
  {
    var i := IndexOfLf(p.buffer);
    if p.status != Reading || i == |p.buffer| then p
    else DrainLines(codec, TakeLine(codec, p.(buffer := p.buffer[i + 1..]), p.buffer[..i]))
  }

  function TakeChunk(codec: Codec, p: Parser, chunk: seq<Byte>): Parser {
    if p.status != Reading then p
    else
      var counted := p.(totalBytes := p.totalBytes + |chunk|);
      if counted.totalBytes > MAX_SSE_TOTAL_BYTES then counted.(status := TooLarge)
      else
        var d := Write(p.pending, chunk);
        var q := DrainLines(codec, counted.(pending := d.pending, buffer := p.buffer + d.text));
        if q.status == Reading && q.dataBytes + Bytes(q.buffer) > MAX_SSE_EVENT_BYTES then q.(status := TooLarge)
        else q
  }

  function TakeChunks(codec: Codec, p: Parser, chunks: seq<seq<Byte>>): Parser {
    if chunks == [] then p else TakeChunk(codec, TakeChunks(codec, p, Init(chunks)), Last(chunks))
  }

  /** The reader as the loop it is. */
  method ParseSseEvents(codec: Codec, chunks: seq<seq<Byte>>) returns (events: seq<JobEvent>, status: Status)
    ensures var end := TakeChunks(codec, FRESH, chunks);
      events == end.events && status == end.status
  {
    hide TakeLine, Write, Encode, IndexOfLf;
    var p := FRESH;
    var n := 0;
    while n < |chunks|
      invariant 0 <= n <= |chunks| && p == TakeChunks(codec, FRESH, chunks[..n]) && p.status == Reading
    {
      assert Init(chunks[..n + 1]) == chunks[..n] && Last(chunks[..n + 1]) == chunks[n];
      ghost var before := p;
      var total := p.totalBytes + |chunks[n]|;
      if total > MAX_SSE_TOTAL_BYTES {
        StoppedStays(codec, chunks, n + 1);
        return p.events, TooLarge;
      }
      var d := Write(p.pending, chunks[n]);
      p := p.(totalBytes := total, pending := d.pending, buffer := p.buffer + d.text);
      ghost var loaded := p;
      var newline := IndexOfLf(p.buffer);
      while newline < |p.buffer|
        invariant newline == IndexOfLf(p.buffer) && p.status == Reading
        invariant DrainLines(codec, p) == DrainLines(codec, loaded)
        decreases |p.buffer|
      {
        var line := p.buffer[..newline];
        p := TakeLine(codec, p.(buffer := p.buffer[newline + 1..]), line);
        if p.status != Reading {
          assert p == TakeChunk(codec, before, chunks[n]);
          StoppedStays(codec, chunks, n + 1);
          return p.events, p.status;
        }
        newline := IndexOfLf(p.buffer);
      }
      if p.dataBytes + Bytes(p.buffer) > MAX_SSE_EVENT_BYTES {
        StoppedStays(codec, chunks, n + 1);
        return p.events, TooLarge;
      }
      n := n + 1;
    }
    assert chunks[..|chunks|] == chunks;
    return p.events, p.status;
  }

  lemma {:induction false} StoppedStays(codec: Codec, chunks: seq<seq<Byte>>, n: nat)
    requires n <= |chunks| && TakeChunks(codec, FRESH, chunks[..n]).status != Reading
    ensures TakeChunks(codec, FRESH, chunks) == TakeChunks(codec, FRESH, chunks[..n])
    decreases |chunks|
  {
    if n == |chunks| {
      assert chunks[..n] == chunks;
    } else {
      assert Init(chunks)[..n] == chunks[..n];
      StoppedStays(codec, Init(chunks), n);
    }
  }
}
