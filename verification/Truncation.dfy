/** Cutting text at a budget without cutting a character: bytes for captured output,
    UTF-16 code units for event summaries. */
module Truncation {
  import opened Basics
  import opened Utf8

  datatype CappedText = CappedText(text: Text, truncated: bool)

  /** Where the back-off from `n` stops. */
  function CutPoint(buffer: seq<Byte>, n: nat): (cut: nat)
    ensures cut <= n
    ensures cut == 0 || cut >= |buffer| || !Continuation(buffer[cut])
    ensures forall i :: cut < i <= n && i < |buffer| ==> Continuation(buffer[i])
  {
    if n > 0 && n < |buffer| && Continuation(buffer[n]) then CutPoint(buffer, n - 1) else n
  }

  function DecodeCapped(buffer: seq<Byte>, maxBytes: nat): CappedText {
    if |buffer| <= maxBytes then CappedText(ToText(buffer), false)
    else CappedText(ToText(buffer[..CutPoint(buffer, maxBytes)]), true)
  }

  method DecodeUtf8Capped(buffer: seq<Byte>, maxBytes: nat) returns (r: CappedText)
    ensures r == DecodeCapped(buffer, maxBytes)
  {
    hide ToText, Encode;
    if |buffer| <= maxBytes {
      return CappedText(ToText(buffer), false);
    }
    var cut := maxBytes;
    while cut > 0 && Continuation(buffer[cut])
      invariant 0 <= cut <= maxBytes && CutPoint(buffer, cut) == CutPoint(buffer, maxBytes)
    {
      cut := cut - 1;
    }
    return CappedText(ToText(buffer[..cut]), true);
  }

  // ---- What a byte cut does to the text ------------------------------------

  function Gap(p: Pending): Text { if p == [] then [] else [REPLACEMENT] }

  /** A byte that continues no character ends whatever was pending. */
  lemma StartsAfresh(p: Pending, b: Byte)
    requires !Continuation(b)
    ensures NextByte(p, b) == Decoded(Gap(p) + NextByte([], b).text, NextByte([], b).pending)
  {}

  lemma WriteHead(p: Pending, bytes: seq<Byte>)
    requires bytes != []
    ensures var first := NextByte(p, bytes[0]);
      var rest := Write(first.pending, bytes[1..]);
      Write(p, bytes) == Decoded(first.text + rest.text, rest.pending)
  {
    hide NextByte, Partial;
    assert bytes == [bytes[0]] + bytes[1..];
    WriteConcat(p, [bytes[0]], bytes[1..]);
    WriteOneMore(p, [], bytes[0]);
    assert [] + [bytes[0]] == [bytes[0]];
  }

  lemma PendingEnds(p: Pending, bytes: seq<Byte>)
    requires bytes != [] && !Continuation(bytes[0])
    ensures Write(p, bytes) == Decoded(Gap(p) + Write([], bytes).text, Write([], bytes).pending)
  {
    hide NextByte, Partial, Write;
    StartsAfresh(p, bytes[0]);
    WriteHead(p, bytes);
    WriteHead([], bytes);
    var first := NextByte([], bytes[0]);
    var rest := Write(first.pending, bytes[1..]);
    assert (Gap(p) + first.text) + rest.text == Gap(p) + (first.text + rest.text);
  }

  lemma Regroup(a: Text, b: Text, c: Text, d: Text)
    ensures (a + (b + c)) + d == (a + b) + (c + d)
  {}

  /** So decoding splits cleanly in front of it, on any bytes at all. */
  lemma SplitsThere(a: seq<Byte>, b: seq<Byte>)
    requires b == [] || !Continuation(b[0])
    ensures ToText(a + b) == ToText(a) + ToText(b)
  {
    hide NextByte, Partial, Write;
    if b == [] {
      assert a + b == a;
      EmptyText();
    } else {
      var p, whole := Write([], a).pending, Write([], b);
      PendingEnds(p, b);
      WriteConcat([], a, b);
      Regroup(Write([], a).text, Gap(p), whole.text, Gap(whole.pending));
    }
  }

  /** The capped text is always an initial stretch of the whole text: no cut makes a
      replacement character that the whole text does not have there. */
  lemma CappedIsPrefix(buffer: seq<Byte>, maxBytes: nat)
    ensures var r := DecodeCapped(buffer, maxBytes);
      r.text <= ToText(buffer) && (r.truncated <==> |buffer| > maxBytes) && (!r.truncated ==> r.text == ToText(buffer))
  {
    hide ToText;
    if |buffer| > maxBytes {
      var cut := CutPoint(buffer, maxBytes);
      if cut == 0 {
        assert buffer[..0] == [];
        EmptyText();
      } else {
        SplitsThere(buffer[..cut], buffer[cut..]);
        assert buffer == buffer[..cut] + buffer[cut..];
      }
    }
  }

  lemma EmptyText()
    ensures ToText([]) == []
  {}

  // ---- On well-formed input ------------------------------------------------

  /** How many characters fit. */
  function Fitting(text: Text, maxBytes: nat): (k: nat)
    ensures k <= |text|
  {
    if text == [] || |Encode(text)| <= maxBytes then |text| else Fitting(Init(text), maxBytes)
  }

  lemma {:induction false} FittingIsGreatest(text: Text, maxBytes: nat)
    ensures var k := Fitting(text, maxBytes);
      |Encode(text[..k])| <= maxBytes && (k < |text| ==> |Encode(text[..k + 1])| > maxBytes)
  {
    hide EncodeScalar;
    if |Encode(text)| <= maxBytes {
      assert text[..|text|] == text;
    } else {
      var k := Fitting(Init(text), maxBytes);
      FittingIsGreatest(Init(text), maxBytes);
      assert Init(text)[..k] == text[..k];
      if k < |Init(text)| {
        assert Init(text)[..k + 1] == text[..k + 1];
      } else {
        assert text[..k + 1] == text;
      }
    }
  }

  lemma FittingAll(text: Text, maxBytes: nat)
    ensures |Encode(text)| <= maxBytes <==> Fitting(text, maxBytes) == |text|
  {
    hide Encode;
    FittingIsGreatest(text, maxBytes);
    assert text[..|text|] == text;
  }

  /** The first byte of a character continues nothing; all its other bytes do. */
  lemma CharacterShape(c: Scalar)
    ensures EncodeScalar(c) != [] && !Continuation(EncodeScalar(c)[0])
    ensures forall i :: 0 < i < |EncodeScalar(c)| ==> Continuation(EncodeScalar(c)[i])
  {}

  /** Backing off inside a character stops at its first byte. */
  lemma {:induction false} BackOff(before: seq<Byte>, c: Scalar, after: seq<Byte>, n: nat)
    requires |before| <= n < |before| + |EncodeScalar(c)|
    ensures CutPoint(before + EncodeScalar(c) + after, n) == |before|
    decreases n
  {
    hide EncodeScalar;
    CharacterShape(c);
    var all := before + EncodeScalar(c) + after;
    assert all[n] == EncodeScalar(c)[n - |before|];
    if n > |before| {
      BackOff(before, c, after, n - 1);
    }
  }

  /** On well-formed input the capped text is the longest initial stretch of characters
      whose encoding fits, so at most three bytes of the budget go unused. */
  lemma CapOfWellFormed(text: Text, maxBytes: nat)
    ensures var k := Fitting(text, maxBytes);
      DecodeCapped(Encode(text), maxBytes) == CappedText(text[..k], k < |text|) &&
      (k < |text| ==> |Encode(text[..k])| + 3 >= maxBytes)
  {
    hide EncodeScalar, Fitting, ToText, Encode, CutPoint, Write;
    var k := Fitting(text, maxBytes);
    FittingIsGreatest(text, maxBytes);
    FittingAll(text, maxBytes);
    RoundTrip(text);
    if |Encode(text)| > maxBytes {
      assert text[..|text|] == text;
      var c := text[k];
      SplitAt(text, k);
      BackOff(Encode(text[..k]), c, Encode(text[k + 1..]), maxBytes);
      RoundTrip(text[..k]);
      assert Encode(text)[..|Encode(text[..k])|] == Encode(text[..k]);
      CharacterSize(c);
    } else {
      assert text[..|text|] == text;
    }
  }

  lemma SplitAt(text: Text, k: nat)
    requires k < |text|
    ensures Encode(text[..k + 1]) == Encode(text[..k]) + EncodeScalar(text[k])
    ensures Encode(text) == Encode(text[..k]) + EncodeScalar(text[k]) + Encode(text[k + 1..])
  {
    hide EncodeScalar, Encode;
    TakeOneMore(text, k);
    EncodeOneMore(text[..k], text[k]);
    EncodeConcat(text[..k + 1], text[k + 1..]);
  }

  lemma CharacterSize(c: Scalar)
    ensures 1 <= |EncodeScalar(c)| <= 4
  {}

  lemma EncodeOneMore(text: Text, c: Scalar)
    ensures Encode(text + [c]) == Encode(text) + EncodeScalar(c)
  {
    assert Init(text + [c]) == text;
  }

  // ---- Code units ----------------------------------------------------------

  const ELLIPSIS: Unit := 0x2026

  predicate High(c: Unit) { 0xD800 <= c <= 0xDBFF }

  predicate Low(c: Unit) { 0xDC00 <= c <= 0xDFFF }

  /** Surrogates only in pairs. */
  predicate WellFormed(text: seq<Unit>)
    decreases |text|
  {
    if text == [] then true
    else if High(text[0]) then |text| > 1 && Low(text[1]) && WellFormed(text[2..])
    else !Low(text[0]) && WellFormed(text[1..])
  }

  method TruncateChars(text: seq<Unit>, maxChars: nat) returns (r: seq<Unit>)
    ensures |text| <= maxChars ==> r == text
    ensures |text| > maxChars ==> r == text[..UnitCut(text, maxChars)] + [ELLIPSIS]
  {
    if |text| <= maxChars {
      return text;
    }
    var cut := text[..maxChars];
    if cut != [] && High(Last(cut)) {
      cut := Init(cut);
    }
    return cut + [ELLIPSIS];
  }

  /** How many code units survive a cut at `maxChars`. */
  function UnitCut(text: seq<Unit>, maxChars: nat): (k: nat)
    requires maxChars < |text|
    ensures k <= maxChars
  {
    if maxChars > 0 && High(text[maxChars - 1]) then maxChars - 1 else maxChars
  }

  lemma {:induction false} PrefixWellFormed(text: seq<Unit>, n: nat)
    requires WellFormed(text) && n <= |text|
    ensures WellFormed(text[..n]) <==> n == 0 || !High(text[n - 1])
    decreases n
  {
    if n > 0 {
      var size := if High(text[0]) then 2 else 1;
      if n >= size {
        PrefixWellFormed(text[size..], n - size);
        assert text[..n][size..] == text[size..][..n - size];
      }
    }
  }

  lemma {:induction false} WellFormedConcat(a: seq<Unit>, b: seq<Unit>)
    requires WellFormed(a) && WellFormed(b)
    ensures WellFormed(a + b)
    decreases |a|
  {
    if a == [] {
      assert a + b == b;
    } else {
      var size := if High(a[0]) then 2 else 1;
      WellFormedConcat(a[size..], b);
      assert (a + b)[size..] == a[size..] + b;
    }
  }

  /** Summaries stay well formed, and no longer well-formed one would have fitted. */
  lemma TruncatedIsWellFormed(text: seq<Unit>, maxChars: nat)
    requires WellFormed(text) && maxChars < |text|
    ensures var k := UnitCut(text, maxChars);
      WellFormed(text[..k] + [ELLIPSIS]) &&
      forall n :: k < n <= maxChars ==> !WellFormed(text[..n])
  {
    var k := UnitCut(text, maxChars);
    PrefixWellFormed(text, maxChars);
    PrefixWellFormed(text, k);
    if k < maxChars {
      HighIsNotSecond(text, maxChars - 1);
    }
    assert [ELLIPSIS][1..] == [];
    WellFormedConcat(text[..k], [ELLIPSIS]);
  }

  /** In front of a pair there is no half of another. */
  lemma {:induction false} HighIsNotSecond(text: seq<Unit>, n: nat)
    requires WellFormed(text) && n < |text| && High(text[n])
    ensures n == 0 || !High(text[n - 1])
    decreases n
  {
    if n > 0 {
      var size := if High(text[0]) then 2 else 1;
      if n >= size {
        HighIsNotSecond(text[size..], n - size);
      }
    }
  }
}

/** A child process's output stream, captured up to a cap. */
module Capture {
  import opened Basics
  import opened Utf8
  import opened Truncation

  const MAX_CAPTURED_STREAM_BYTES: nat := 262144
  const MARGIN: nat := 4

  /** The stretch of a stream that is worth keeping. */
  function Kept(stream: seq<Byte>): seq<Byte> {
    stream[..Min(|stream|, MAX_CAPTURED_STREAM_BYTES + MARGIN)]
  }

  /** What is reported for a whole stream, given the text of the overflow marker. */
  function Report(stream: seq<Byte>, marker: Text): Text {
    var capped := DecodeCapped(stream, MAX_CAPTURED_STREAM_BYTES);
    if capped.truncated then capped.text + marker else capped.text
  }

  /** Back-off looks at nothing past the cap. */
  lemma {:induction false} CutPointIsLocal(a: seq<Byte>, b: seq<Byte>, n: nat)
    requires n < |a| && n < |b| && a[..n + 1] == b[..n + 1]
    ensures CutPoint(a, n) == CutPoint(b, n)
    decreases n
  {
    assert a[n] == a[..n + 1][n] && b[n] == b[..n + 1][n];
    if n > 0 {
      assert a[..n] == a[..n + 1][..n] && b[..n] == b[..n + 1][..n];
      CutPointIsLocal(a, b, n - 1);
    }
  }

  /** Dropping what lies past the margin loses nothing. */
  lemma KeptIsEnough(stream: seq<Byte>, marker: Text)
    ensures Report(Kept(stream), marker) == Report(stream, marker)
  {
    hide ToText, CutPoint;
    var kept := Kept(stream);
    if |stream| <= MAX_CAPTURED_STREAM_BYTES {
      assert kept == stream;
    } else {
      var n := MAX_CAPTURED_STREAM_BYTES;
      assert kept[..n + 1] == stream[..n + 1];
      CutPointIsLocal(kept, stream, n);
      var cut := CutPoint(stream, n);
      assert kept[..cut] == stream[..cut];
    }
  }

  class CappedStreamCollector {
    var chunks: seq<seq<Byte>>
    var bytes: nat
    ghost var stream: seq<Byte>

    ghost predicate Valid()
      reads this
    {
      Flatten(chunks) == Kept(stream) && bytes == |Kept(stream)|
    }

    constructor ()
      ensures Valid() && stream == []
    {
      chunks, bytes, stream := [], 0, [];
    }

    method Push(chunk: seq<Byte>)
      requires Valid()
      modifies this
      ensures Valid() && stream == old(stream) + chunk
      ensures bytes <= MAX_CAPTURED_STREAM_BYTES + MARGIN
    {
      stream := stream + chunk;
      var budget := MAX_CAPTURED_STREAM_BYTES + MARGIN - bytes;
      if budget <= 0 {
        assert Kept(stream) == old(Kept(stream));
        return;
      }
      var kept := if |chunk| <= budget then chunk else chunk[..budget];
      chunks := chunks + [kept];
      bytes := bytes + |kept|;
      assert Init(chunks) == old(chunks);
      assert Kept(stream) == old(Kept(stream)) + kept;
    }

    /** However the stream was cut into chunks, and however much of it was dropped. */
    method Text(marker: Text) returns (text: Utf8.Text)
      requires Valid()
      ensures text == Report(stream, marker)
    {
      var capped := DecodeUtf8Capped(Flatten(chunks), MAX_CAPTURED_STREAM_BYTES);
      KeptIsEnough(stream, marker);
      text := if capped.truncated then capped.text + marker else capped.text;
    }
  }
}
