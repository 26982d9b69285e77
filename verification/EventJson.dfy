/** One codec of the kind `Sse` asks for: an event as a JSON array on one line, read back
    by looking for the event it is the text of. */
module EventJsons {
  import opened Basics
  import opened Utf8
  import opened Numerals
  import opened JobRecords
  import opened Sse
  import SseTheorems

  const QUOTE: Scalar := 34
  const BACKSLASH: Scalar := 92
  const COMMA: Scalar := 44
  const OPEN: Scalar := 91
  const CLOSE: Scalar := 93

  function Hex(n: nat): Scalar
    requires n < 16
  {
    if n < 10 then 48 + n else 87 + n
  }

  /** A character inside a string literal (section 25.5.2.3 of ECMA-262, with `\u` for
      every control character). */
  function Escaped(c: char): Text {
    var code := c as int;
    if code == QUOTE || code == BACKSLASH then [BACKSLASH, code]
    else if code < 32 then [BACKSLASH, 117, 48, 48, Hex(code / 16), Hex(code % 16)]
    else [code]
  }

  /** What follows the opening quote of a literal. */
  function Literal(s: string): Text
    decreases |s|
  {
    if s == [] then [QUOTE] else Escaped(s[0]) + Literal(s[1..])
  }

  function Literals(strings: seq<string>): Text
    decreases |strings|
  {
    if strings == [] then [CLOSE] else [COMMA, QUOTE] + (Literal(strings[0]) + Literals(strings[1..]))
  }

  function StatusName(status: JobRecords.Status): string {
    match status
    case Queued => "queued" case Running => "running" case Succeeded => "succeeded" case Failed => "failed" case Canceled => "canceled"
  }

  function KindName(kind: Observation): string {
    match kind case Log => "log" case ToolCall => "tool_call" case ToolResult => "tool_result"
  }

  function Fields(body: Body): seq<string> {
    match body
    case StatusEvent(status) => ["status", StatusName(status)]
    case Observed(kind, text) => [KindName(kind), text]
    case ResultEvent(result) => ["result", result.jobId, StatusName(result.status), result.detail]
  }

  function Render(e: JobEvent): Text {
    [OPEN] + (Decimal(e.seqNo) + Literals([e.jobId] + Fields(e.body)))
  }

  ghost function Parse(text: Text): Option<JobEvent> {
    if exists e :: Render(e) == text then var e :| Render(e) == text; Some(e) else None
  }

  ghost function EventCodec(): Codec { Codec(Render, (text: Text) => Parse(text)) }

  // ---- Reading is unambiguous ----------------------------------------------

  lemma EscapedApart(c: char, s: Text, d: char, t: Text)
    requires Escaped(c) + s == Escaped(d) + t
    ensures c == d && s == t
  {
    var a, b := Escaped(c) + s, Escaped(d) + t;
    assert a[0] == b[0];
    if a[0] == BACKSLASH {
      assert a[1] == b[1];
      if a[1] == 117 {
        assert a[4] == b[4] && a[5] == b[5];
      }
    }
    assert c == d;
    assert s == a[|Escaped(c)|..] && t == b[|Escaped(c)|..];
  }

  lemma LiteralHead(s: string, rest: Text)
    ensures (Literal(s) + rest)[0] == QUOTE <==> s == []
    ensures s == [] ==> (Literal(s) + rest)[1..] == rest
    ensures s != [] ==> Literal(s) + rest == Escaped(s[0]) + (Literal(s[1..]) + rest)
  {}

  lemma {:induction false} LiteralApart(a: string, s: Text, b: string, t: Text)
    requires Literal(a) + s == Literal(b) + t
    ensures a == b && s == t
    decreases |a|
  {
    LiteralHead(a, s);
    LiteralHead(b, t);
    hide Escaped, Literal;
    if a != [] && b != [] {
      EscapedApart(a[0], Literal(a[1..]) + s, b[0], Literal(b[1..]) + t);
      LiteralApart(a[1..], s, b[1..], t);
      assert a == [a[0]] + a[1..] && b == [b[0]] + b[1..];
    }
  }

  lemma LiteralsHead(strings: seq<string>)
    ensures Literals(strings)[0] == CLOSE <==> strings == []
    ensures strings != [] ==> |Literals(strings)| >= 2 && Literals(strings)[2..] == Literal(strings[0]) + Literals(strings[1..])
  {
    hide Literal;
    if strings != [] {
      var rest := Literal(strings[0]) + Literals(strings[1..]);
      assert ([COMMA, QUOTE] + rest)[2..] == rest;
    }
  }

  lemma {:induction false} LiteralsApart(a: seq<string>, b: seq<string>)
    requires Literals(a) == Literals(b)
    ensures a == b
    decreases |a|
  {
    LiteralsHead(a);
    LiteralsHead(b);
    hide Literals, Literal;
    if a != [] {
      LiteralApart(a[0], Literals(a[1..]), b[0], Literals(b[1..]));
      LiteralsApart(a[1..], b[1..]);
      assert a == [a[0]] + a[1..] && b == [b[0]] + b[1..];
    }
  }

  lemma {:induction false} ReadDigitsStops(digits: Text, rest: Text, value: nat)
    requires (forall i :: 0 <= i < |digits| ==> Digit(digits[i])) && rest != [] && !Digit(rest[0])
    ensures ReadDigits(digits + rest, value) == ReadDigits(digits, value)
    decreases |digits|
  {
    if digits == [] {
      assert [] + rest == rest;
    } else {
      assert (digits + rest)[1..] == digits[1..] + rest;
      ReadDigitsStops(digits[1..], rest, 10 * value + digits[0] - 48);
    }
  }

  lemma FieldsApart(a: Body, b: Body)
    requires Fields(a) == Fields(b)
    ensures a == b
  {
    NamesApart();
    assert |Fields(a)| == |Fields(b)|;
    assert Fields(a)[0] == Fields(b)[0] && Fields(a)[1] == Fields(b)[1];
    if a.ResultEvent? && b.ResultEvent? {
      assert Fields(a)[2] == Fields(b)[2] && Fields(a)[3] == Fields(b)[3];
    }
  }

  lemma NamesApart()
    ensures forall a, b :: StatusName(a) == StatusName(b) ==> a == b
    ensures forall a, b :: KindName(a) == KindName(b) ==> a == b
    ensures forall k :: KindName(k) != "status" && KindName(k) != "result"
  {
    assert forall a :: StatusName(a)[0] == if a.Queued? then 'q' else if a.Running? then 'r' else if a.Succeeded? then 's' else if a.Failed? then 'f' else 'c';
    assert forall k :: |KindName(k)| == if k.Log? then 3 else if k.ToolCall? then 9 else 11;
  }

  lemma DecimalApart(a: nat, s: Text, b: nat, t: Text)
    requires s != [] && !Digit(s[0]) && t != [] && !Digit(t[0]) && Decimal(a) + s == Decimal(b) + t
    ensures a == b && s == t
  {
    ReadDigitsStops(Decimal(a), s, 0);
    ReadDigitsStops(Decimal(b), t, 0);
    DecimalReadsBack(a);
    DecimalReadsBack(b);
    assert s == (Decimal(a) + s)[|Decimal(a)|..] && t == (Decimal(a) + t)[|Decimal(a)|..];
  }

  lemma RenderHead(e: JobEvent)
    ensures var fields := [e.jobId] + Fields(e.body);
      Render(e)[1..] == Decimal(e.seqNo) + Literals(fields) && Literals(fields) != [] && !Digit(Literals(fields)[0])
  {
    var fields := [e.jobId] + Fields(e.body);
    assert Render(e)[1..] == Decimal(e.seqNo) + Literals(fields);
    hide Fields, Decimal, Render;
    LiteralsHead(fields);
    assert Literals(fields)[0] == CLOSE || Literals(fields)[0] == COMMA;
  }

  lemma RenderApart(a: JobEvent, b: JobEvent)
    requires Render(a) == Render(b)
    ensures a == b
  {
    hide Literals, Fields, Decimal, Render;
    RenderHead(a);
    RenderHead(b);
    var s, t := [a.jobId] + Fields(a.body), [b.jobId] + Fields(b.body);
    DecimalApart(a.seqNo, Literals(s), b.seqNo, Literals(t));
    LiteralsApart(s, t);
    assert a.jobId == s[0] == t[0] == b.jobId && Fields(a.body) == s[1..] && Fields(b.body) == t[1..];
    FieldsApart(a.body, b.body);
  }

  // ---- And stays on one line -----------------------------------------------

  predicate Printable(text: Text) { forall i :: 0 <= i < |text| ==> text[i] >= 32 }

  lemma {:induction false} LiteralPrintable(s: string)
    ensures Printable(Literal(s))
    decreases |s|
  {
    if s != [] { LiteralPrintable(s[1..]); }
  }

  lemma {:induction false} LiteralsPrintable(strings: seq<string>)
    ensures Printable(Literals(strings))
    decreases |strings|
  {
    if strings != [] {
      LiteralPrintable(strings[0]);
      LiteralsPrintable(strings[1..]);
    }
  }

  /** What the streams are proved for exists. */
  lemma EventCodecIsFaithful()
    ensures Faithful(EventCodec())
  {
    forall e
      ensures Parse(Render(e)) == Some(e) && LF !in Render(e) && CR !in Render(e)
    {
      LiteralsPrintable([e.jobId] + Fields(e.body));
      assert Printable(Render(e));
      var read := Parse(Render(e)).value;
      RenderApart(read, e);
    }
  }

  // ---- An event that fits and is refused -----------------------------------

  function Letters(n: nat): string { seq(n, _ => 'a') }

  function Line(n: nat): JobEvent { JobEvent("", 0, Observed(Log, Letters(n))) }

  predicate Ascii(text: Text) { forall i :: 0 <= i < |text| ==> text[i] < 0x80 }

  predicate Plain(s: string) { forall i :: 0 <= i < |s| ==> ' ' <= s[i] <= '~' && s[i] != '"' && s[i] != '\\' }

  lemma {:induction false} PlainLiteral(s: string)
    requires Plain(s)
    ensures |Literal(s)| == |s| + 1 && Ascii(Literal(s))
    decreases |s|
  {
    if s != [] { PlainLiteral(s[1..]); }
  }

  lemma PlainLiterals(s: string, rest: seq<string>)
    requires Plain(s) && Ascii(Literals(rest))
    ensures |Literals([s] + rest)| == |s| + 3 + |Literals(rest)| && Ascii(Literals([s] + rest))
  {
    PlainLiteral(s);
    assert ([s] + rest)[1..] == rest;
  }

  lemma LineBytes(n: nat)
    ensures Bytes(Render(Line(n))) == n + 15
  {
    var letters := Letters(n);
    PlainLiterals(letters, []);
    PlainLiterals("log", [letters]);
    PlainLiterals("", ["log", letters]);
    assert [letters] + [] == [letters] && ["log"] + [letters] == ["log", letters];
    hide Literals;
    SseTheorems.BytesOfAscii(Render(Line(n)));
  }

  /** An event whose JSON is exactly as long as the cap allows can be refused. */
  lemma FittingEventIsRefused()
    ensures exists e ::
      Bytes(EventCodec().render(e)) == MAX_SSE_EVENT_BYTES && SseTheorems.CanBeRefused(EventCodec(), [Record(e)])
  {
    var e := Line(MAX_SSE_EVENT_BYTES - 15);
    EventCodecIsFaithful();
    LineBytes(MAX_SSE_EVENT_BYTES - 15);
    SseTheorems.CapIsNotOnTheJson(EventCodec(), e);
  }
}
