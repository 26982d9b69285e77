/** UTF-8 as RFC 3629 defines it: encoding, and a decoder that takes one byte at a
    time, replaces each maximal ill-formed stretch by U+FFFD, and keeps an incomplete
    trailing character back. */
module Utf8 {
  import opened Basics

  type Byte = x: nat | x < 256
  type Scalar = x: nat | x < 0xD800 || 0xE000 <= x < 0x110000
  type Text = seq<Scalar>

  const REPLACEMENT: Scalar := 0xFFFD

  function EncodeScalar(c: Scalar): seq<Byte> {
    if c < 0x80 then [c]
    else if c < 0x800 then [0xC0 + c / 64, 0x80 + c % 64]
    else if c < 0x10000 then [0xE0 + c / 4096, 0x80 + c / 64 % 64, 0x80 + c % 64]
    else [0xF0 + c / 262144, 0x80 + c / 4096 % 64, 0x80 + c / 64 % 64, 0x80 + c % 64]
  }

  function Encode(text: Text): seq<Byte> {
    if text == [] then [] else Encode(Init(text)) + EncodeScalar(Last(text))
  }

  predicate Continuation(b: Byte) { 0x80 <= b < 0xC0 }

  /** Length of the character a lead byte announces. */
  function Announced(lead: Byte): nat {
    if lead < 0x80 then 1 else if lead < 0xE0 then 2 else if lead < 0xF0 then 3 else 4
  }

  /** The bytes allowed right after `lead`: no overlong form, surrogate or value past
      U+10FFFF can start. */
  predicate SecondOk(lead: Byte, b: Byte) {
    (if lead == 0xE0 then 0xA0 else if lead == 0xF0 then 0x90 else 0x80) <= b <=
    (if lead == 0xED then 0x9F else if lead == 0xF4 then 0x8F else 0xBF)
  }

  /** A proper prefix of a well-formed multi-byte character. */
  predicate Partial(p: seq<Byte>) {
    p != [] && 0xC2 <= p[0] <= 0xF4 && |p| < Announced(p[0]) &&
    (|p| >= 2 ==> SecondOk(p[0], p[1])) && (|p| == 3 ==> Continuation(p[2]))
  }

  type Pending = p: seq<Byte> | p == [] || Partial(p)

  datatype Decoded = Decoded(text: Text, pending: Pending)

  function Assemble(p: seq<Byte>, b: Byte): Scalar
    requires Partial(p) && |p| + 1 == Announced(p[0])
    requires if |p| == 1 then SecondOk(p[0], b) else Continuation(b)
  {
    if |p| == 1 then (p[0] - 0xC0) * 64 + (b - 0x80)
    else if |p| == 2 then (p[0] - 0xE0) * 4096 + (p[1] - 0x80) * 64 + (b - 0x80)
    else (p[0] - 0xF0) * 262144 + (p[1] - 0x80) * 4096 + (p[2] - 0x80) * 64 + (b - 0x80)
  }

  function StartByte(b: Byte): Decoded {
    if b < 0x80 then Decoded([b], [])
    else if 0xC2 <= b <= 0xF4 then Decoded([], [b])
    else Decoded([REPLACEMENT], [])
  }

  function NextByte(p: Pending, b: Byte): Decoded {
    if p == [] then StartByte(b)
    else if !(if |p| == 1 then SecondOk(p[0], b) else Continuation(b)) then
      var again := StartByte(b);
      Decoded([REPLACEMENT] + again.text, again.pending)
    else if |p| + 1 == Announced(p[0]) then Decoded([Assemble(p, b)], [])
    else Decoded([], p + [b])
  }

  /** `StringDecoder.write`, from the pending bytes `p`. */
  function Write(p: Pending, bytes: seq<Byte>): Decoded {
    if bytes == [] then Decoded([], p)
    else
      var before := Write(p, Init(bytes));
      var now := NextByte(before.pending, Last(bytes));
      Decoded(before.text + now.text, now.pending)
  }

  /** `Buffer.toString("utf8")`: a character cut off by the end is replaced too. */
  function ToText(bytes: seq<Byte>): Text {
    var d := Write([], bytes);
    d.text + if d.pending == [] then [] else [REPLACEMENT]
  }

  // ---- Laws ----------------------------------------------------------------

  /** Decoding does not depend on how the bytes are cut into chunks. */
  lemma {:induction false} WriteConcat(p: Pending, a: seq<Byte>, b: seq<Byte>)
    ensures var first := Write(p, a);
      var second := Write(first.pending, b);
      Write(p, a + b) == Decoded(first.text + second.text, second.pending)
  {
    hide NextByte;
    if b == [] {
      assert a + b == a;
    } else {
      WriteConcat(p, a, Init(b));
      assert Init(a + b) == a + Init(b) && Last(a + b) == Last(b);
      var first := Write(p, a);
      var middle := Write(first.pending, Init(b));
      var now := NextByte(middle.pending, Last(b));
      assert (first.text + middle.text) + now.text == first.text + (middle.text + now.text);
    }
  }

  lemma WriteTwo(p: Pending, b0: Byte, b1: Byte)
    ensures var first := NextByte(p, b0);
      var second := NextByte(first.pending, b1);
      Write(p, [b0, b1]) == Decoded(first.text + second.text, second.pending)
  {
    assert Init([b0, b1]) == [b0] && Init([b0]) == [];
    assert Write(p, []) == Decoded([], p);
    assert Write(p, [b0]) == NextByte(p, b0);
  }

  lemma WriteOneMore(p: Pending, bytes: seq<Byte>, b: Byte)
    ensures var before := Write(p, bytes);
      var now := NextByte(before.pending, b);
      Write(p, bytes + [b]) == Decoded(before.text + now.text, now.pending)
  {
    assert Init(bytes + [b]) == bytes;
  }

  lemma TwoByteScalar(c: Scalar)
    requires 0x80 <= c < 0x800
    ensures Write([], EncodeScalar(c)) == Decoded([c], [])
  {
    var b := EncodeScalar(c);
    assert c == c / 64 * 64 + c % 64;
    WriteTwo([], b[0], b[1]);
    assert b == [b[0], b[1]];
  }

  lemma Sextets(c: nat)
    ensures c == c / 4096 * 4096 + c / 64 % 64 * 64 + c % 64
    ensures c == c / 262144 * 262144 + c / 4096 % 64 * 4096 + c / 64 % 64 * 64 + c % 64
  {
    hide EncodeScalar, Encode, Write, NextByte, Partial;
    assert c == c / 64 * 64 + c % 64;
    assert c / 64 == c / 4096 * 64 + c / 64 % 64;
    assert c / 4096 == c / 262144 * 64 + c / 4096 % 64;
  }

  /** Three well-formed bytes, one at a time. */
  lemma WriteThree(b0: Byte, b1: Byte, b2: Byte)
    requires 0xE0 <= b0 < 0xF0 && SecondOk(b0, b1) && Continuation(b2)
    ensures Write([], [b0, b1, b2]) == Decoded([Assemble([b0, b1], b2)], [])
  {
    hide Write, EncodeScalar, Encode, Assemble;
    WriteTwo([], b0, b1);
    assert [b0] + [b1] == [b0, b1] && Partial([b0]) && Partial([b0, b1]);
    WriteOneMore([], [b0, b1], b2);
    assert [b0, b1] + [b2] == [b0, b1, b2];
  }

  lemma ThreeByteScalar(c: Scalar)
    requires 0x800 <= c < 0x10000
    ensures Write([], EncodeScalar(c)) == Decoded([c], [])
  {
    hide Write, Encode, NextByte;
    var b := EncodeScalar(c);
    Sextets(c);
    WriteThree(b[0], b[1], b[2]);
    assert b == [b[0], b[1], b[2]];
  }

  /** Four well-formed bytes, one at a time. */
  lemma WriteFour(b0: Byte, b1: Byte, b2: Byte, b3: Byte)
    requires 0xF0 <= b0 <= 0xF4 && SecondOk(b0, b1) && Continuation(b2) && Continuation(b3)
    ensures Write([], [b0, b1, b2, b3]) == Decoded([Assemble([b0, b1, b2], b3)], [])
  {
    hide Write, EncodeScalar, Encode, Assemble;
    WriteTwo([], b0, b1);
    assert [b0] + [b1] == [b0, b1] && Partial([b0]) && Partial([b0, b1]);
    WriteOneMore([], [b0, b1], b2);
    assert [b0, b1] + [b2] == [b0, b1, b2] && Partial([b0, b1, b2]);
    WriteOneMore([], [b0, b1, b2], b3);
    assert [b0, b1, b2] + [b3] == [b0, b1, b2, b3];
  }

  lemma FourByteScalar(c: Scalar)
    requires 0x10000 <= c
    ensures Write([], EncodeScalar(c)) == Decoded([c], [])
  {
    hide Write, Encode, NextByte;
    var b := EncodeScalar(c);
    Sextets(c);
    WriteFour(b[0], b[1], b[2], b[3]);
    assert b == [b[0], b[1], b[2], b[3]];
  }

  lemma OneScalar(c: Scalar)
    ensures Write([], EncodeScalar(c)) == Decoded([c], [])
  {
    if c < 0x80 {
      assert Write([], []) == Decoded([], []);
      WriteOneMore([], [], c);
      assert [] + [c] == EncodeScalar(c);
    } else if c < 0x800 {
      TwoByteScalar(c);
    } else if c < 0x10000 {
      ThreeByteScalar(c);
    } else {
      FourByteScalar(c);
    }
  }

  /** Decoding undoes encoding. */
  lemma {:induction false} RoundTrip(text: Text)
    ensures Write([], Encode(text)) == Decoded(text, []) && ToText(Encode(text)) == text
  {
    hide EncodeScalar, NextByte, Partial;
    if text == [] {
      assert Write([], []) == Decoded([], []);
    } else {
      RoundTrip(Init(text));
      OneScalar(Last(text));
      WriteConcat([], Encode(Init(text)), EncodeScalar(Last(text)));
      assert Init(text) + [Last(text)] == text;
    }
  }

  lemma {:induction false} EncodeConcat(a: Text, b: Text)
    ensures Encode(a + b) == Encode(a) + Encode(b)
  {
    hide EncodeScalar;
    if b == [] {
      assert a + b == a;
    } else {
      EncodeConcat(a, Init(b));
      assert Init(a + b) == a + Init(b) && Last(a + b) == Last(b);
      var c := EncodeScalar(Last(b));
      assert (Encode(a) + Encode(Init(b))) + c == Encode(a) + (Encode(Init(b)) + c);
    }
  }

  lemma {:induction false} AsciiBytes(text: Text)
    requires forall i :: 0 <= i < |text| ==> text[i] < 0x80
    ensures |Encode(text)| == |text|
  {
    if text != [] { AsciiBytes(Init(text)); }
  }

  /** Any initial stretch of an encoded text decodes to an initial stretch of it. */
  lemma PrefixDecodes(text: Text, bytes: seq<Byte>)
    requires bytes <= Encode(text)
    ensures Write([], bytes).text <= text
  {
    RoundTrip(text);
    WriteConcat([], bytes, Encode(text)[|bytes|..]);
    assert bytes + Encode(text)[|bytes|..] == Encode(text);
  }

  // ---- And the other way round ---------------------------------------------

  lemma AssembleTwo(p: seq<Byte>, b: Byte)
    requires Partial(p) && |p| == 1 && Announced(p[0]) == 2 && SecondOk(p[0], b)
    ensures EncodeScalar(Assemble(p, b)) == p + [b]
  {
    var x, y := p[0] - 0xC0, b - 0x80;
    assert (x * 64 + y) / 64 == x && (x * 64 + y) % 64 == y;
    assert p == [p[0]];
  }

  lemma AssembleThree(p: seq<Byte>, b: Byte)
    requires Partial(p) && |p| == 2 && Announced(p[0]) == 3 && Continuation(b)
    ensures EncodeScalar(Assemble(p, b)) == p + [b]
  {
    var x, y, z := p[0] - 0xE0, p[1] - 0x80, b - 0x80;
    var c := Assemble(p, b);
    assert c == x * 4096 + y * 64 + z && 0x800 <= c < 0x10000;
    SplitThree(x, y, z);
    assert p == [p[0], p[1]];
  }

  lemma SplitThree(x: nat, y: nat, z: nat)
    requires y < 64 && z < 64
    ensures var c := x * 4096 + y * 64 + z;
      c / 4096 == x && c / 64 % 64 == y && c % 64 == z
  {
    var c := x * 4096 + y * 64 + z;
    assert c / 64 == x * 64 + y;
  }

  lemma SplitFour(w: nat, x: nat, y: nat, z: nat)
    requires x < 64 && y < 64 && z < 64
    ensures var c := w * 262144 + x * 4096 + y * 64 + z;
      c / 262144 == w && c / 4096 % 64 == x && c / 64 % 64 == y && c % 64 == z
  {
    var c := w * 262144 + x * 4096 + y * 64 + z;
    assert c / 64 == (w * 64 + x) * 64 + y;
    assert c / 4096 == w * 64 + x;
  }

  lemma AssembleFour(p: seq<Byte>, b: Byte)
    requires Partial(p) && |p| == 3 && Continuation(b)
    ensures EncodeScalar(Assemble(p, b)) == p + [b]
  {
    var w, x, y, z := p[0] - 0xF0, p[1] - 0x80, p[2] - 0x80, b - 0x80;
    var c := Assemble(p, b);
    assert c == w * 262144 + x * 4096 + y * 64 + z && c >= 0x10000;
    SplitFour(w, x, y, z);
    assert p == [p[0], p[1], p[2]];
  }

  lemma NextIsExact(p: Pending, b: Byte)
    requires REPLACEMENT !in NextByte(p, b).text
    ensures Encode(NextByte(p, b).text) + NextByte(p, b).pending == p + [b]
  {
    var n := NextByte(p, b);
    if p != [] && n.text != [] {
      hide EncodeScalar, Assemble;
      assert n == Decoded([Assemble(p, b)], []);
      if |p| == 1 { AssembleTwo(p, b); } else if |p| == 2 { AssembleThree(p, b); } else { AssembleFour(p, b); }
      assert Init(n.text) == [];
    } else if n.text != [] {
      assert Init([b]) == [];
    }
  }

  lemma JoinExact(a: Text, c: Text, before: seq<Byte>, pending: seq<Byte>, now: seq<Byte>, b: Byte)
    requires Encode(a) + pending == before && Encode(c) + now == pending + [b]
    ensures Encode(a + c) + now == before + [b]
  {
    hide Encode;
    EncodeConcat(a, c);
    assert (Encode(a) + Encode(c)) + now == Encode(a) + (Encode(c) + now);
    assert Encode(a) + (pending + [b]) == (Encode(a) + pending) + [b];
  }

  lemma NoneInParts(a: Text, b: Text, c: Scalar)
    requires c !in a + b
    ensures c !in a && c !in b
  {
    assert forall x :: x in a || x in b ==> x in a + b;
  }

  lemma {:induction false} WriteIsExact(bytes: seq<Byte>)
    requires REPLACEMENT !in Write([], bytes).text
    ensures Encode(Write([], bytes).text) + Write([], bytes).pending == bytes
  {
    hide NextByte, Partial, EncodeScalar;
    if bytes != [] {
      var before := Write([], Init(bytes));
      var now := NextByte(before.pending, Last(bytes));
      NoneInParts(before.text, now.text, REPLACEMENT);
      WriteIsExact(Init(bytes));
      NextIsExact(before.pending, Last(bytes));
      JoinExact(before.text, now.text, Init(bytes), before.pending, now.pending, Last(bytes));
      assert bytes == Init(bytes) + [Last(bytes)];
    }
  }

  lemma PendingShows(bytes: seq<Byte>)
    requires Write([], bytes).pending != []
    ensures REPLACEMENT in ToText(bytes)
  {
    assert Last(ToText(bytes)) == REPLACEMENT;
  }

  /** Nothing ill-formed passes unnoticed: bytes that decode without a replacement
      character are exactly the encoding of what they decode to. */
  lemma NoReplacementIsExact(bytes: seq<Byte>)
    requires REPLACEMENT !in ToText(bytes)
    ensures Encode(ToText(bytes)) == bytes
  {
    hide Write, Encode;
    if Write([], bytes).pending != [] {
      PendingShows(bytes);
    } else {
      assert ToText(bytes) == Write([], bytes).text;
      WriteIsExact(bytes);
    }
  }
}
