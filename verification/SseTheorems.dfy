/** Reading undoes writing, for every way of cutting the bytes. */
module SseTheorems {
  import opened Basics
  import opened Utf8
  import opened Numerals
  import opened JobRecords
  import opened Sse

  // ---- The reader, one character at a time ---------------------------------

  function PushChar(codec: Codec, p: Parser, c: Scalar): Parser {
    if p.status == Reading && c == LF then TakeLine(codec, p.(buffer := []), p.buffer)
    else p.(buffer := p.buffer + [c])
  }

  function Push(codec: Codec, p: Parser, text: Text): Parser {
    if text == [] then p else PushChar(codec, Push(codec, p, Init(text)), Last(text))
  }

  lemma {:induction false} PushConcat(codec: Codec, p: Parser, a: Text, b: Text)
    ensures Push(codec, p, a + b) == Push(codec, Push(codec, p, a), b)
  {
    hide PushChar;
    if b == [] {
      assert a + b == a;
    } else {
      PushConcat(codec, p, a, Init(b));
      assert Init(a + b) == a + Init(b) && Last(a + b) == Last(b);
    }
  }

  /** Without a line end, or once the reader has stopped, text just piles up. */
  lemma {:induction false} PushPiles(codec: Codec, p: Parser, text: Text)
    requires LF !in text || p.status != Reading
    ensures Push(codec, p, text) == p.(buffer := p.buffer + text)
  {
    if text == [] {
      assert p.buffer + text == p.buffer;
    } else {
      assert text == Init(text) + [Last(text)];
      PushPiles(codec, p, Init(text));
      assert (p.buffer + Init(text)) + [Last(text)] == p.buffer + text;
    }
  }

  lemma PushLine(codec: Codec, p: Parser, line: Text)
    requires LF !in line && p.status == Reading && p.buffer == []
    ensures Push(codec, p, line + [LF]) == TakeLine(codec, p, line)
  {
    PushConcat(codec, p, line, [LF]);
    PushPiles(codec, p, line);
    assert [] + line == line;
    var q := p.(buffer := line);
    assert Init([LF]) == [];
    assert Push(codec, q, [LF]) == PushChar(codec, q, LF);
    assert q.(buffer := []) == p;
  }

  /** Draining whole lines from the buffer is the same as having taken the text
      character by character. */
  lemma {:induction false} DrainIsPush(codec: Codec, p: Parser, text: Text)
    requires p.status == Reading && p.buffer == []
    ensures DrainLines(codec, p.(buffer := text)) == Push(codec, p, text)
    decreases |text|
  {
    hide TakeLine, Push;
    var i := IndexOfLf(text);
    if i == |text| {
      assert text[..i] == text;
      PushPiles(codec, p, text);
      assert [] + text == text;
    } else {
      var line, rest := text[..i], text[i + 1..];
      assert text == (line + [LF]) + rest;
      PushConcat(codec, p, line + [LF], rest);
      PushLine(codec, p, line);
      var q := TakeLine(codec, p, line);
      TakeLineIgnoresBuffer(codec, p, rest, line);
      if q.status == Reading {
        DrainIsPush(codec, q, rest);
      } else {
        PushPiles(codec, q, rest);
        assert [] + rest == rest;
      }
    }
  }

  lemma TakeLineIgnoresBuffer(codec: Codec, p: Parser, buffer: Text, line: Text)
    ensures TakeLine(codec, p.(buffer := buffer), line) == TakeLine(codec, p, line).(buffer := buffer)
  {}

  // ---- What the writer's lines do ------------------------------------------

  predicate Clean(p: Parser) {
    p.status == Reading && p.buffer == [] && p.dataLines == [] && p.dataBytes == 0
  }

  function After(p: Parser, frame: Frame): Parser {
    match frame
    case Heartbeat => p
    case Record(e) =>
      p.(events := p.events + [e], status := if e.body.ResultEvent? then Finished else Reading)
  }

  /** Longest line of a record, in bytes: what the per-event cap is measured against. */
  predicate Fits(codec: Codec, frame: Frame) {
    forall line :: line in Lines(codec, frame) ==> Bytes(line) <= MAX_SSE_EVENT_BYTES
  }

  lemma BytesOfAscii(text: Text)
    requires forall i :: 0 <= i < |text| ==> text[i] < 0x80
    ensures Bytes(text) == |text|
  {
    AsciiBytes(text);
  }

  lemma BytesConcat(a: Text, b: Text)
    ensures Bytes(a + b) == Bytes(a) + Bytes(b)
  {
    EncodeConcat(a, b);
  }

  /** A part of a line is no longer than the line. */
  lemma BytesOfPrefix(part: Text, line: Text)
    requires part <= line
    ensures Bytes(part) <= Bytes(line)
  {
    assert line == part + line[|part|..];
    BytesConcat(part, line[|part|..]);
  }

  lemma DataLine(codec: Codec, p: Parser, e: JobEvent)
    requires Faithful(codec) && Clean(p)
    ensures var json := codec.render(e);
      TakeLine(codec, p, DATA + [SPACE] + json) == p.(dataLines := [json], dataBytes := Bytes(json))
  {
    var json := codec.render(e);
    var line := DATA + [SPACE] + json;
    assert Last(line) != CR by {
      if json != [] { assert Last(line) == Last(json) && Last(json) in json; }
    }
    assert line[|DATA|..] == [SPACE] + json;
    assert DATA <= line && Content(line) == json;
    assert [] + [json] == [json];
  }

  lemma BlankLine(codec: Codec, p: Parser, e: JobEvent)
    requires Faithful(codec) && Clean(p)
    ensures TakeLine(codec, p.(dataLines := [codec.render(e)], dataBytes := Bytes(codec.render(e))), []) == After(p, Record(e))
  {}

  /** Lines the reader skips. */
  lemma SkippedLine(codec: Codec, p: Parser, line: Text)
    requires line != [] && line[0] != DATA[0] && (forall i :: 0 <= i < |line| ==> line[i] != CR)
    ensures TakeLine(codec, p, line) == p
  {}

  lemma FrameLines(codec: Codec, frame: Frame)
    requires Faithful(codec)
    ensures forall line :: line in Lines(codec, frame) ==> LF !in line
  {
    if frame.Record? {
      var digits := Decimal(frame.event.seqNo);
      assert forall i :: 0 <= i < |digits| ==> digits[i] != LF;
    }
  }

  /** State of the reader after part of a line sequence: whole lines taken, the rest
      of the text in the buffer. */
  lemma {:induction false} PartOfLines(lines: seq<Text>, text: Text) returns (k: nat, part: Text)
    requires forall line :: line in lines ==> LF !in line
    requires text <= Terminated(lines)
    ensures k <= |lines| && (k < |lines| ==> part <= lines[k]) && (k == |lines| ==> part == [])
    ensures text == Terminated(lines[..k]) + part && LF !in part
    decreases |lines|
  {
    if lines == [] {
      k, part := 0, [];
    } else if |text| <= |lines[0]| {
      assert lines[0] <= Terminated(lines);
      assert lines[0] in lines;
      assert forall c :: c in text ==> c in lines[0] by {
        assert forall i :: 0 <= i < |text| ==> text[i] == Terminated(lines)[i] == lines[0][i];
      }
      k, part := 0, text;
      assert lines[..0] == [];
      assert text <= lines[0];
    } else {
      var head := lines[0] + [LF];
      var rest := text[|head|..];
      assert text == head + rest by { assert head <= Terminated(lines); }
      assert rest <= Terminated(lines[1..]);
      k, part := PartOfLines(lines[1..], rest);
      assert lines[..k + 1] == [lines[0]] + lines[1..][..k];
      assert lines[..k + 1][1..] == lines[1..][..k];
      k := k + 1;
    }
  }

  /** Taking the first `k` lines of a frame. */
  function Taken(codec: Codec, p: Parser, frame: Frame, k: nat): Parser {
    match frame
    case Heartbeat => p
    case Record(e) =>
      if k < 2 then p
      else if k == 2 then p.(dataLines := [codec.render(e)], dataBytes := Bytes(codec.render(e)))
      else After(p, frame)
  }

  lemma TakenNext(codec: Codec, p: Parser, frame: Frame, k: nat)
    requires Faithful(codec) && Clean(p) && k < |Lines(codec, frame)|
    ensures TakeLine(codec, Taken(codec, p, frame, k), Lines(codec, frame)[k]) == Taken(codec, p, frame, k + 1)
    ensures Taken(codec, p, frame, k).buffer == [] && Taken(codec, p, frame, k).status == Reading
  {
    match frame
    case Heartbeat => if k == 0 { SkippedLine(codec, p, KEEPALIVE); }
    case Record(e) =>
      if k == 0 {
        var digits := Decimal(e.seqNo);
        assert forall i :: 0 <= i < |ID + digits| ==> (ID + digits)[i] == if i < |ID| then ID[i] else digits[i - |ID|];
        SkippedLine(codec, p, ID + digits);
      } else if k == 1 {
        DataLine(codec, p, e);
      } else {
        BlankLine(codec, p, e);
      }
  }

  lemma {:induction false} TerminatedNext(lines: seq<Text>, k: nat)
    requires k < |lines|
    ensures Terminated(lines[..k + 1]) == Terminated(lines[..k]) + (lines[k] + [LF])
  {
    if k == 0 {
      assert lines[..1][1..] == [] && lines[..0] == [];
      assert lines[0] + [LF] + [] == [] + (lines[0] + [LF]);
    } else {
      TerminatedNext(lines[1..], k - 1);
      assert lines[..k + 1][1..] == lines[1..][..k] && lines[..k][1..] == lines[1..][..k - 1];
      var rest := Terminated(lines[1..][..k - 1]);
      assert lines[0] + [LF] + (rest + (lines[k] + [LF])) == (lines[0] + [LF] + rest) + (lines[k] + [LF]);
    }
  }

  lemma {:induction false} PushLines(codec: Codec, p: Parser, frame: Frame, k: nat)
    requires Faithful(codec) && Clean(p) && k <= |Lines(codec, frame)|
    ensures Push(codec, p, Terminated(Lines(codec, frame)[..k])) == Taken(codec, p, frame, k)
    decreases k
  {
    hide Faithful, TakeLine, Lines, Decimal;
    var lines := Lines(codec, frame);
    if k == 0 {
      assert lines[..0] == [];
      TakenNone(codec, p, frame);
    } else {
      PushLines(codec, p, frame, k - 1);
      TerminatedNext(lines, k - 1);
      TakenNext(codec, p, frame, k - 1);
      FrameLines(codec, frame);
      assert lines[k - 1] in lines;
      PushConcat(codec, p, Terminated(lines[..k - 1]), lines[k - 1] + [LF]);
      PushLine(codec, Taken(codec, p, frame, k - 1), lines[k - 1]);
    }
  }

  lemma TakenNone(codec: Codec, p: Parser, frame: Frame)
    ensures Taken(codec, p, frame, 0) == p
  {}

  /** The state of the reader inside one frame. */
  lemma FramePart(codec: Codec, p: Parser, frame: Frame, text: Text)
    requires Faithful(codec) && Clean(p) && text <= Terminated(Lines(codec, frame))
    ensures var q := Push(codec, p, text);
      if text == Terminated(Lines(codec, frame)) then q == After(p, frame)
      else q.status == Reading && q.events == p.events &&
           (Fits(codec, frame) ==> q.dataBytes + Bytes(q.buffer) <= MAX_SSE_EVENT_BYTES)
  {
    var lines := Lines(codec, frame);
    FrameLines(codec, frame);
    var k, part := PartOfLines(lines, text);
    PushLines(codec, p, frame, k);
    PushConcat(codec, p, Terminated(lines[..k]), part);
    var taken := Taken(codec, p, frame, k);
    if k == |lines| {
      assert lines[..k] == lines;
      assert Terminated(lines) + [] == Terminated(lines);
      assert Push(codec, taken, []) == taken;
    } else {
      TakenNext(codec, p, frame, k);
      PushPiles(codec, taken, part);
      assert [] + part == part;
      PartIsShort(codec, p, frame, k, part);
      assert text != Terminated(lines) by {
        TerminatedNext(lines, k);
        TerminatedGrows(lines, k + 1);
      }
    }
  }

  lemma {:induction false} TerminatedGrows(lines: seq<Text>, k: nat)
    requires k <= |lines|
    ensures |Terminated(lines[..k])| <= |Terminated(lines)|
    decreases |lines| - k
  {
    if k == |lines| {
      assert lines[..k] == lines;
    } else {
      TerminatedNext(lines, k);
      TerminatedGrows(lines, k + 1);
    }
  }

  lemma PartIsShort(codec: Codec, p: Parser, frame: Frame, k: nat, part: Text)
    requires Clean(p) && k < |Lines(codec, frame)| && part <= Lines(codec, frame)[k]
    ensures Taken(codec, p, frame, k).events == p.events
    ensures Fits(codec, frame) ==> Taken(codec, p, frame, k).dataBytes + Bytes(part) <= MAX_SSE_EVENT_BYTES
  {
    var lines := Lines(codec, frame);
    assert lines[k] in lines;
    BytesOfPrefix(part, lines[k]);
    if frame.Record? && k == 2 {
      assert lines[1] in lines;
      BytesConcat(DATA + [SPACE], codec.render(frame.event));
    }
  }

  // ---- Whole streams -------------------------------------------------------

  predicate IsResult(frame: Frame) { frame.Record? && frame.event.body.ResultEvent? }

  /** The writer ends the response right after the result. */
  ghost predicate ResultOnlyLast(frames: seq<Frame>) {
    forall i :: 0 <= i < |frames| - 1 ==> !IsResult(frames[i])
  }

  ghost predicate AllFit(codec: Codec, frames: seq<Frame>) {
    forall i :: 0 <= i < |frames| ==> Fits(codec, frames[i])
  }

  lemma PrefixSplit(a: Text, b: Text, text: Text)
    requires text <= a + b
    ensures if |text| <= |a| then text <= a else text == a + text[|a|..] && text[|a|..] <= b
  {
    if |text| <= |a| {
      assert forall i :: 0 <= i < |text| ==> text[i] == (a + b)[i] == a[i];
    }
  }

  /** The state of the reader inside a stream: it has yielded an initial stretch of the
      events, all of them once the whole stream is in, and has stopped only after a
      final result. */
  ghost predicate InStream(codec: Codec, p: Parser, frames: seq<Frame>, text: Text, q: Parser) {
    q.events <= p.events + Events(frames) &&
    (text == Wire(codec, frames) ==>
      q.events == p.events + Events(frames) &&
      q.status == (if frames != [] && IsResult(Last(frames)) then Finished else Reading)) &&
    (q.status == Finished ==> text == Wire(codec, frames)) && (q.status == Reading || q.status == Finished) &&
    (q.status == Reading && AllFit(codec, frames) ==> q.dataBytes + Bytes(q.buffer) <= MAX_SSE_EVENT_BYTES)
  }

  lemma {:induction false} WirePart(codec: Codec, p: Parser, frames: seq<Frame>, text: Text)
    requires Faithful(codec) && Clean(p) && ResultOnlyLast(frames)
    requires text <= Wire(codec, frames)
    ensures InStream(codec, p, frames, text, Push(codec, p, text))
    decreases |frames|
  {
    hide Faithful, Fits, Lines, Terminated, Push, Clean, InStream, AllFit;
    if frames == [] {
      NoFrames(codec, p);
      assert text == [];
    } else {
      var head, tail := Terminated(Lines(codec, frames[0])), Wire(codec, frames[1..]);
      PrefixSplit(head, tail, text);
      if |text| <= |head| && text != head {
        FirstPart(codec, p, frames, text);
      } else {
        FramePart(codec, p, frames[0], head);
        var rest := text[|head|..];
        PushConcat(codec, p, head, rest);
        AfterFrame(p, frames[0]);
        if IsResult(frames[0]) {
          OnlyResult(codec, p, frames, text);
        } else {
          WirePart(codec, After(p, frames[0]), frames[1..], rest);
          WireRest(codec, p, frames, rest, text);
          RestInStream(codec, p, frames, rest, text, Push(codec, After(p, frames[0]), rest));
        }
      }
    }
  }

  lemma NoFrames(codec: Codec, p: Parser)
    requires Clean(p)
    ensures InStream(codec, p, [], [], Push(codec, p, []))
  {
    BytesOfAscii([]);
  }

  /** Inside the first frame. */
  lemma FirstPart(codec: Codec, p: Parser, frames: seq<Frame>, text: Text)
    requires Faithful(codec) && Clean(p) && frames != []
    requires var head := Terminated(Lines(codec, frames[0])); text <= head && text != head
    ensures InStream(codec, p, frames, text, Push(codec, p, text))
  {
    hide Faithful, Fits, Lines, Terminated, Push, Clean, Events;
    FramePart(codec, p, frames[0], text);
    var head, tail := Terminated(Lines(codec, frames[0])), Wire(codec, frames[1..]);
    assert |head + tail| >= |head| > |text|;
  }

  /** A stream that is one result. */
  lemma OnlyResult(codec: Codec, p: Parser, frames: seq<Frame>, text: Text)
    requires Clean(p) && frames != [] && IsResult(frames[0]) && ResultOnlyLast(frames)
    requires Terminated(Lines(codec, frames[0])) <= text <= Wire(codec, frames)
    requires After(p, frames[0]) == Push(codec, p, Terminated(Lines(codec, frames[0])))
    ensures InStream(codec, p, frames, text, Push(codec, p, text))
  {
    hide Fits, Lines, Terminated, Push, Clean;
    var head := Terminated(Lines(codec, frames[0]));
    assert |frames| == 1 && Wire(codec, frames[1..]) == [] && head + [] == head;
    assert text == head;
    assert Events(frames) == [frames[0].event] + Events(frames[1..]) && Events(frames[1..]) == [];
    AfterFrame(p, frames[0]);
  }

  /** Past the first frame. */
  lemma RestInStream(codec: Codec, p: Parser, frames: seq<Frame>, rest: Text, text: Text, q: Parser)
    requires frames != [] && !IsResult(frames[0]) && InStream(codec, After(p, frames[0]), frames[1..], rest, q)
    requires After(p, frames[0]).events + Events(frames[1..]) == p.events + Events(frames)
    requires rest == Wire(codec, frames[1..]) <==> text == Wire(codec, frames)
    requires |frames| > 1 ==> Last(frames[1..]) == Last(frames)
    ensures InStream(codec, p, frames, text, q)
  {
    hide Fits, Wire, Events, After, IsResult, Bytes;
    assert AllFit(codec, frames) ==> AllFit(codec, frames[1..]);
  }

  lemma AfterFrame(p: Parser, frame: Frame)
    requires Clean(p)
    ensures if IsResult(frame) then After(p, frame) == p.(events := p.events + [frame.event], status := Finished)
            else Clean(After(p, frame))
    ensures frame.Record? ==> After(p, frame).events == p.events + [frame.event]
    ensures frame.Heartbeat? ==> After(p, frame).events == p.events
  {}

  /** Bookkeeping between a stream and its tail. */
  lemma WireRest(codec: Codec, p: Parser, frames: seq<Frame>, rest: Text, text: Text)
    requires frames != [] && Clean(p) && text == Terminated(Lines(codec, frames[0])) + rest
    ensures After(p, frames[0]).events + Events(frames[1..]) == p.events + Events(frames)
    ensures rest == Wire(codec, frames[1..]) <==> text == Wire(codec, frames)
    ensures |frames| > 1 ==> Last(frames[1..]) == Last(frames)
    ensures |frames| == 1 ==> Last(frames) == frames[0]
  {
    hide Lines, Terminated;
    SameTail(Terminated(Lines(codec, frames[0])), rest, Wire(codec, frames[1..]));
    AfterFrame(p, frames[0]);
    hide After;
    if frames[0].Record? {
      assert p.events + [frames[0].event] + Events(frames[1..]) == p.events + ([frames[0].event] + Events(frames[1..]));
    } else {
      assert [] + Events(frames[1..]) == Events(frames[1..]);
    }
  }

  lemma SameTail(head: Text, a: Text, b: Text)
    ensures head + a == head + b <==> a == b
  {
    assert (head + a)[|head|..] == a && (head + b)[|head|..] == b;
  }

  // ---- From characters back to chunks of bytes -----------------------------

  lemma {:induction false} PushKeepsCounters(codec: Codec, p: Parser, text: Text, pending: Pending, total: nat)
    ensures Push(codec, p.(pending := pending, totalBytes := total), text) ==
            Push(codec, p, text).(pending := pending, totalBytes := total)
  {
    if text != [] {
      PushKeepsCounters(codec, p, Init(text), pending, total);
      TakeLineKeepsCounters(codec, Push(codec, p, Init(text)).(buffer := []), Push(codec, p, Init(text)).buffer, pending, total);
    }
  }

  lemma TakeLineKeepsCounters(codec: Codec, p: Parser, line: Text, pending: Pending, total: nat)
    ensures TakeLine(codec, p.(pending := pending, totalBytes := total), line) ==
            TakeLine(codec, p, line).(pending := pending, totalBytes := total)
  {}

  /** A reader in the middle of a line drains like one that takes characters. */
  lemma DrainBuffered(codec: Codec, p: Parser, text: Text)
    requires p.status == Reading && LF !in p.buffer
    ensures DrainLines(codec, p.(buffer := p.buffer + text)) == Push(codec, p, text)
  {
    hide Push, DrainLines, TakeLine, Encode;
    var empty := p.(buffer := []);
    DrainIsPush(codec, empty, p.buffer + text);
    PushConcat(codec, empty, p.buffer, text);
    PushPiles(codec, empty, p.buffer);
    assert [] + p.buffer == p.buffer;
    assert empty.(buffer := p.buffer) == p;
    assert empty.(buffer := p.buffer + text) == p.(buffer := p.buffer + text);
  }

  lemma {:induction false} PushLeavesNoLf(codec: Codec, p: Parser, text: Text)
    requires LF !in p.buffer && Push(codec, p, text).status == Reading
    ensures LF !in Push(codec, p, text).buffer
  {
    if text != [] {
      var before := Push(codec, p, Init(text));
      if before.status == Reading {
        PushLeavesNoLf(codec, p, Init(text));
      }
    }
  }

  /** What the reader is after some chunks, as long as nothing has been refused. */
  function Expected(codec: Codec, bytes: seq<Byte>): Parser {
    var d := Write([], bytes);
    Push(codec, FRESH, d.text).(pending := d.pending, totalBytes := |bytes|)
  }

  /** Neither cap is in the stream's way. */
  ghost predicate WithinCaps(codec: Codec, frames: seq<Frame>) {
    AllFit(codec, frames) && Bytes(Wire(codec, frames)) <= MAX_SSE_TOTAL_BYTES
  }

  /** The reader's state depends on the bytes received and not on how they were cut,
      unless a cap was hit; and then what it has yielded is still right. */
  lemma {:induction false} ChunksDoNotMatter(codec: Codec, frames: seq<Frame>, chunks: seq<seq<Byte>>)
    requires Faithful(codec) && ResultOnlyLast(frames)
    requires Flatten(chunks) <= Encode(Wire(codec, frames))
    ensures var end := TakeChunks(codec, FRESH, chunks);
      end == Expected(codec, Flatten(chunks)) ||
      (end.status == TooLarge && end.events <= Events(frames) && !WithinCaps(codec, frames))
  {
    hide Faithful, Push, DrainLines, NextByte, EncodeScalar, TakeLine, TakeChunk, Encode, Wire, Events, Partial, ResultOnlyLast;
    if chunks == [] {
      assert Write([], []) == Decoded([], []);
      FreshStart(codec);
    } else {
      var was, chunk := Flatten(Init(chunks)), Last(chunks);
      var now := Flatten(chunks);
      assert now == was + chunk;
      assert was <= Encode(Wire(codec, frames));
      ChunksDoNotMatter(codec, frames, Init(chunks));
      PrefixDecodes(Wire(codec, frames), was);
      PrefixDecodes(Wire(codec, frames), now);
      WirePart(codec, FRESH, frames, Write([], was).text);
      WirePart(codec, FRESH, frames, Write([], now).text);
      WriteConcat([], was, chunk);
      var a := Write([], was);
      var before := TakeChunks(codec, FRESH, Init(chunks));
      if before.status != Reading {
        StoppedTakesNothing(codec, before, chunk);
      }
      if Push(codec, FRESH, a.text).status == Reading {
        OneChunk(codec, was, chunk, a, Write(a.pending, chunk));
      } else {
        WholeWireIsAllBytes(Wire(codec, frames), was, chunk);
        assert was + chunk == was;
      }
    }
  }

  lemma FreshStart(codec: Codec)
    ensures Push(codec, FRESH, []) == FRESH
  {}

  lemma ChunkCases(codec: Codec, p: Parser, chunk: seq<Byte>, d: Decoded, total: nat)
    requires p.status == Reading && d == Write(p.pending, chunk) && total == p.totalBytes + |chunk|
    ensures var q := DrainLines(codec, p.(totalBytes := total, pending := d.pending, buffer := p.buffer + d.text));
      var r := TakeChunk(codec, p, chunk);
      if total > MAX_SSE_TOTAL_BYTES then r.status == TooLarge && r.events == p.events
      else if q.status == Reading && q.dataBytes + Bytes(q.buffer) > MAX_SSE_EVENT_BYTES
      then r.status == TooLarge && r.events == q.events
      else r == q
  {
    hide DrainLines, Write, Encode, Partial, Bytes;
  }

  lemma OneChunk(codec: Codec, was: seq<Byte>, chunk: seq<Byte>, a: Decoded, b: Decoded)
    requires a == Write([], was) && b == Write(a.pending, chunk)
    requires Write([], was + chunk) == Decoded(a.text + b.text, b.pending)
    requires Push(codec, FRESH, a.text).status == Reading
    ensures var p := Push(codec, FRESH, a.text);
      var q := Push(codec, FRESH, a.text + b.text);
      var r := TakeChunk(codec, Expected(codec, was), chunk);
      r == Expected(codec, was + chunk) ||
      (r.status == TooLarge && (r.events == p.events || r.events == q.events) &&
       (|was| + |chunk| > MAX_SSE_TOTAL_BYTES ||
        (q.status == Reading && q.dataBytes + Bytes(q.buffer) > MAX_SSE_EVENT_BYTES)))
  {
    hide DrainLines, Push, Write, Encode, Partial, TakeChunk, Bytes;
    var p := Push(codec, FRESH, a.text);
    var total := |was| + |chunk|;
    ChunkCases(codec, Expected(codec, was), chunk, b, total);
    PushLeavesNoLf(codec, FRESH, a.text);
    PushConcat(codec, FRESH, a.text, b.text);
    PushKeepsCounters(codec, p, b.text, b.pending, total);
    var ready := p.(pending := b.pending, totalBytes := total);
    DrainBuffered(codec, ready, b.text);
  }

  /** Once the whole text has been decoded no byte is missing. */
  lemma WholeWireIsAllBytes(text: Text, was: seq<Byte>, chunk: seq<Byte>)
    requires was + chunk <= Encode(text) && Write([], was).text == text
    ensures chunk == []
  {
    DecodedIsShorter(text, was);
    assert |was| == |Encode(text)|;
  }

  /** Decoding all of a text takes all of its bytes. */
  lemma DecodedIsShorter(text: Text, was: seq<Byte>)
    requires was <= Encode(text) && Write([], was).text == text
    ensures |was| == |Encode(text)|
  {
    hide NextByte, EncodeScalar, Partial;
    RoundTrip(text);
    var rest := Encode(text)[|was|..];
    assert was + rest == Encode(text);
    WriteConcat([], was, rest);
    var pending := Write([], was).pending;
    assert Write(pending, rest).text == [] by {
      assert |text + Write(pending, rest).text| == |text|;
    }
    if rest != [] {
      SilentWrite(pending, rest);
    }
  }

  /** Bytes that yield no character stay pending. */
  lemma {:induction false} SilentWrite(p: Pending, bytes: seq<Byte>)
    requires Write(p, bytes).text == [] && bytes != []
    ensures Write(p, bytes).pending != []
  {
    var before := Write(p, Init(bytes));
    var now := NextByte(before.pending, Last(bytes));
    assert |before.text + now.text| == 0;
    assert now.text == [];
  }

  // ---- Main results --------------------------------------------------------

  /** Parsing undoes writing: any heartbeats between the records, any cut into chunks,
      also inside a character. */
  lemma ReadingUndoesWriting(codec: Codec, frames: seq<Frame>, chunks: seq<seq<Byte>>)
    requires Faithful(codec) && ResultOnlyLast(frames) && WithinCaps(codec, frames)
    requires Flatten(chunks) == Encode(Wire(codec, frames))
    ensures var end := TakeChunks(codec, FRESH, chunks);
      end.events == Events(frames) &&
      end.status == if frames != [] && IsResult(Last(frames)) then Finished else Reading
  {
    hide Push, TakeLine, NextByte, EncodeScalar, Fits, Lines;
    ChunksDoNotMatter(codec, frames, chunks);
    RoundTrip(Wire(codec, frames));
    WirePart(codec, FRESH, frames, Wire(codec, frames));
  }

  /** A stream that breaks off anywhere, or is refused, has yielded an initial stretch
      of the events; only an oversized one is refused; one that is finished is whole. */
  lemma CutStreamYieldsPrefix(codec: Codec, frames: seq<Frame>, chunks: seq<seq<Byte>>)
    requires Faithful(codec) && ResultOnlyLast(frames)
    requires Flatten(chunks) <= Encode(Wire(codec, frames))
    ensures var end := TakeChunks(codec, FRESH, chunks);
      end.events <= Events(frames) && !end.status.Malformed? &&
      (end.status == TooLarge ==> !WithinCaps(codec, frames)) &&
      (end.status == Finished ==> end.events == Events(frames))
  {
    hide Faithful, Push, Wire, Encode, Write, Events, Fits, ResultOnlyLast, TakeChunks, Flatten;
    ChunksDoNotMatter(codec, frames, chunks);
    PrefixDecodes(Wire(codec, frames), Flatten(chunks));
    WirePart(codec, FRESH, frames, Write([], Flatten(chunks)).text);
  }

  /** Some way of cutting the stream makes the reader refuse it. */
  ghost predicate CanBeRefused(codec: Codec, frames: seq<Frame>) {
    exists chunks: seq<seq<Byte>> :: Flatten(chunks) == Encode(Wire(codec, frames)) && TakeChunks(codec, FRESH, chunks).status == TooLarge
  }

  lemma TooLongInTotal(codec: Codec, frames: seq<Frame>)
    requires Bytes(Wire(codec, frames)) > MAX_SSE_TOTAL_BYTES
    ensures CanBeRefused(codec, frames)
  {
    var all := Encode(Wire(codec, frames));
    assert Init([all]) == [];
    assert Flatten([all]) == [] + all == all;
    assert TakeChunks(codec, FRESH, []) == FRESH;
    assert TakeChunks(codec, FRESH, [all]) == TakeChunk(codec, FRESH, all);
  }

  lemma {:induction false} WireConcat(codec: Codec, a: seq<Frame>, b: seq<Frame>)
    ensures Wire(codec, a + b) == Wire(codec, a) + Wire(codec, b)
    decreases |a|
  {
    hide Terminated, Lines;
    if a == [] {
      assert a + b == b;
    } else {
      assert (a + b)[1..] == a[1..] + b;
      WireConcat(codec, a[1..], b);
      var head := Terminated(Lines(codec, a[0]));
      assert head + (Wire(codec, a[1..]) + Wire(codec, b)) == (head + Wire(codec, a[1..])) + Wire(codec, b);
    }
  }

  /** The reader is between records once the first frames are in. */
  lemma {:induction false} CleanAfter(codec: Codec, p: Parser, frames: seq<Frame>)
    requires Faithful(codec) && Clean(p)
    requires forall i :: 0 <= i < |frames| ==> !IsResult(frames[i])
    ensures Clean(Push(codec, p, Wire(codec, frames)))
    decreases |frames|
  {
    hide Faithful, Fits, Lines, Terminated, Push, Clean, IsResult;
    if frames == [] {
      PushNothing(codec, p);
    } else {
      var head := Terminated(Lines(codec, frames[0]));
      FramePart(codec, p, frames[0], head);
      AfterFrame(p, frames[0]);
      CleanAfter(codec, After(p, frames[0]), frames[1..]);
      PushConcat(codec, p, head, Wire(codec, frames[1..]));
    }
  }

  lemma PushNothing(codec: Codec, p: Parser)
    ensures Push(codec, p, []) == p
  {}

  /** The state once a line of frame `i`, all but its line end, is in the buffer. */
  lemma LineInBuffer(codec: Codec, before: seq<Frame>, frame: Frame, k: nat)
    requires Faithful(codec) && (forall i :: 0 <= i < |before| ==> !IsResult(before[i]))
    requires k < 2 && k < |Lines(codec, frame)| && Bytes(Lines(codec, frame)[k]) > MAX_SSE_EVENT_BYTES
    ensures var text := Wire(codec, before) + (Terminated(Lines(codec, frame)[..k]) + Lines(codec, frame)[k]);
      var q := Push(codec, FRESH, text);
      q.status == Reading && q.dataBytes + Bytes(q.buffer) > MAX_SSE_EVENT_BYTES
  {
    hide Faithful, Fits, Lines, Terminated, Push, TakeLine, Bytes;
    var lines := Lines(codec, frame);
    CleanAfter(codec, FRESH, before);
    var p := Push(codec, FRESH, Wire(codec, before));
    PushLines(codec, p, frame, k);
    TakenNext(codec, p, frame, k);
    FrameLines(codec, frame);
    assert lines[k] in lines;
    var taken := Taken(codec, p, frame, k);
    PushPiles(codec, taken, lines[k]);
    assert [] + lines[k] == lines[k];
    PushConcat(codec, p, Terminated(lines[..k]), lines[k]);
    PushConcat(codec, FRESH, Wire(codec, before), Terminated(lines[..k]) + lines[k]);
  }

  /** Handing over such a text as one chunk gets the stream refused. */
  lemma RefusedThere(codec: Codec, text: Text)
    requires var q := Push(codec, FRESH, text);
      q.status == Reading && q.dataBytes + Bytes(q.buffer) > MAX_SSE_EVENT_BYTES
    ensures TakeChunk(codec, FRESH, Encode(text)).status == TooLarge
  {
    hide Push, DrainLines, NextByte, EncodeScalar, Encode;
    RoundTrip(text);
    if Bytes(text) <= MAX_SSE_TOTAL_BYTES {
      PushKeepsCounters(codec, FRESH, text, [], Bytes(text));
      DrainIsPush(codec, FRESH.(pending := [], totalBytes := Bytes(text)), text);
      assert FRESH.buffer + text == text;
    }
  }

  lemma RefusedCut(codec: Codec, frames: seq<Frame>, text: Text)
    requires text <= Wire(codec, frames) && TakeChunk(codec, FRESH, Encode(text)).status == TooLarge
    ensures CanBeRefused(codec, frames)
  {
    hide TakeChunk, EncodeScalar, Wire;
    var whole := Wire(codec, frames);
    var first, second := Encode(text), Encode(whole[|text|..]);
    EncodeConcat(text, whole[|text|..]);
    assert text + whole[|text|..] == whole;
    var chunks := [first, second];
    assert Init(chunks) == [first] && Init([first]) == [];
    assert TakeChunks(codec, FRESH, []) == FRESH;
    assert TakeChunks(codec, FRESH, [first]) == TakeChunk(codec, FRESH, first);
    StoppedTakesNothing(codec, TakeChunk(codec, FRESH, first), second);
    assert TakeChunks(codec, FRESH, chunks) == TakeChunk(codec, TakeChunk(codec, FRESH, first), second);
    assert Flatten([first]) == [] + first == first;
    assert Flatten(chunks) == first + second;
  }

  lemma StoppedTakesNothing(codec: Codec, p: Parser, chunk: seq<Byte>)
    requires p.status != Reading
    ensures TakeChunk(codec, p, chunk) == p
  {}

  lemma LineInsideWire(codec: Codec, frames: seq<Frame>, i: nat, k: nat)
    requires i < |frames| && k < |Lines(codec, frames[i])|
    ensures var lines := Lines(codec, frames[i]);
      Wire(codec, frames[..i]) + (Terminated(lines[..k]) + lines[k]) <= Wire(codec, frames)
  {
    hide Lines, Terminated;
    var before, frame, after := frames[..i], frames[i], frames[i + 1..];
    var lines := Lines(codec, frame);
    assert frames == before + ([frame] + after);
    WireConcat(codec, before, [frame] + after);
    assert ([frame] + after)[1..] == after;
    TerminatedNext(lines, k);
    TerminatedPrefix(lines, k + 1);
    PrefixAfter(Terminated(lines[..k]), lines[k], lines[k] + [LF]);
    var line := Terminated(lines[..k]) + lines[k];
    PrefixInside(line, Terminated(lines[..k + 1]), Terminated(lines));
    PrefixInside(line, Terminated(lines), Terminated(lines) + Wire(codec, after));
    PrefixAfter(Wire(codec, before), line, Terminated(lines) + Wire(codec, after));
  }

  lemma TooLongLine(codec: Codec, frames: seq<Frame>)
    requires Faithful(codec) && ResultOnlyLast(frames) && !AllFit(codec, frames)
    ensures CanBeRefused(codec, frames)
  {
    hide Faithful, Push, TakeChunk, Lines, Terminated, Wire, Fits, CanBeRefused;
    var i :| 0 <= i < |frames| && !Fits(codec, frames[i]);
    var lines := Lines(codec, frames[i]);
    var k := MisfitLine(codec, frames[i]);
    LineInBuffer(codec, frames[..i], frames[i], k);
    LineInsideWire(codec, frames, i, k);
    var text := Wire(codec, frames[..i]) + (Terminated(lines[..k]) + lines[k]);
    RefusedThere(codec, text);
    RefusedCut(codec, frames, text);
  }

  lemma PrefixInside(a: Text, b: Text, c: Text)
    requires a <= b <= c
    ensures a <= c
  {}

  lemma PrefixAfter(head: Text, a: Text, b: Text)
    requires a <= b
    ensures head + a <= head + b
  {
    assert head + b == (head + a) + b[|a|..];
  }

  lemma {:induction false} TerminatedPrefix(lines: seq<Text>, k: nat)
    requires k <= |lines|
    ensures Terminated(lines[..k]) <= Terminated(lines)
    decreases |lines| - k
  {
    if k == |lines| {
      assert lines[..k] == lines;
    } else {
      TerminatedNext(lines, k);
      TerminatedPrefix(lines, k + 1);
    }
  }

  lemma HeartbeatFits(codec: Codec)
    ensures Fits(codec, Heartbeat)
  {
    BytesOfAscii(KEEPALIVE);
    BytesOfAscii([]);
  }

  lemma MisfitLine(codec: Codec, frame: Frame) returns (k: nat)
    requires !Fits(codec, frame)
    ensures k < 2 && k < |Lines(codec, frame)| && Bytes(Lines(codec, frame)[k]) > MAX_SSE_EVENT_BYTES
  {
    hide Bytes, Decimal;
    HeartbeatFits(codec);
    BytesOfAscii([]);
    var lines := Lines(codec, frame);
    assert lines == [lines[0], lines[1], []];
    k := if Bytes(lines[0]) > MAX_SSE_EVENT_BYTES then 0 else 1;
  }

  /** When the reader can refuse an honest stream: exactly when the stream exceeds the
      total cap, or some line of some record, `data: ` included, exceeds the event cap.
      A record whose JSON alone just fits is not safe. */
  lemma RefusalIsExact(codec: Codec, frames: seq<Frame>)
    requires Faithful(codec) && ResultOnlyLast(frames)
    ensures CanBeRefused(codec, frames) <==> !WithinCaps(codec, frames)
  {
    if Bytes(Wire(codec, frames)) > MAX_SSE_TOTAL_BYTES {
      TooLongInTotal(codec, frames);
    } else if !AllFit(codec, frames) {
      TooLongLine(codec, frames);
    } else {
      forall chunks: seq<seq<Byte>> | Flatten(chunks) == Encode(Wire(codec, frames))
        ensures TakeChunks(codec, FRESH, chunks).status != TooLarge
      {
        ReadingUndoesWriting(codec, frames, chunks);
      }
    }
  }

  /** The concrete failure: an event whose JSON is within the event cap can be refused. */
  lemma CapIsNotOnTheJson(codec: Codec, e: JobEvent)
    requires Faithful(codec) && MAX_SSE_EVENT_BYTES - 6 < Bytes(codec.render(e)) <= MAX_SSE_EVENT_BYTES
    ensures CanBeRefused(codec, [Record(e)])
  {
    var line := DATA + [SPACE] + codec.render(e);
    BytesOfAscii(DATA + [SPACE]);
    BytesConcat(DATA + [SPACE], codec.render(e));
    assert line in Lines(codec, Record(e));
    assert !Fits(codec, [Record(e)][0]);
    RefusalIsExact(codec, [Record(e)]);
  }
}
