/** The glob compiler of the worker's file tools, down to the text of the regular
    expression it emits and what that text means (ECMA-262 sections 22.2.1 and 22.2.2).
    Text is UTF-16 code units, as the expression has no `u` flag. */
module Globs {
  import opened Basics

  type Text = seq<Unit>

  const DOLLAR: Unit := 36
  const OPEN: Unit := 40
  const CLOSE: Unit := 41
  const ASTERISK: Unit := 42
  const PLUS: Unit := 43
  const DOT: Unit := 46
  const SLASH: Unit := 47
  const COLON: Unit := 58
  const QUESTION: Unit := 63
  const OPEN_CLASS: Unit := 91
  const BACKSLASH: Unit := 92
  const CLOSE_CLASS: Unit := 93
  const CARET: Unit := 94
  const OPEN_BRACE: Unit := 123
  const BAR: Unit := 124
  const CLOSE_BRACE: Unit := 125

  /** SyntaxCharacter of section 22.2.1, which is also the set the compiler escapes. */
  predicate Syntax(c: Unit) {
    c == CARET || c == DOLLAR || c == BACKSLASH || c == DOT || c == ASTERISK || c == PLUS || c == QUESTION ||
    c == OPEN || c == CLOSE || c == OPEN_CLASS || c == CLOSE_CLASS || c == OPEN_BRACE || c == CLOSE_BRACE || c == BAR
  }

  predicate LineTerminator(c: Unit) { c == 10 || c == 13 || c == 0x2028 || c == 0x2029 }

  // ---- The dialect ---------------------------------------------------------

  datatype Token =
    | Literal(c: Unit)
    | One        // ?
    | Star       // *
    | Deep       // **
    | Segments   // **/

  /** The token a pattern starts with: runs of asterisks are read longest first. */
  function FirstToken(pattern: Text): (token: Token)
    requires pattern != []
    ensures Width(token) <= |pattern|
  {
    if pattern[0] == ASTERISK then
      if |pattern| > 1 && pattern[1] == ASTERISK then
        if |pattern| > 2 && pattern[2] == SLASH then Segments else Deep
      else Star
    else if pattern[0] == QUESTION then One
    else Literal(pattern[0])
  }

  /** How many units a token takes up in the pattern. */
  function Width(token: Token): nat {
    match token case Segments => 3 case Deep => 2 case _ => 1
  }

  function Tokens(pattern: Text): seq<Token>
    decreases |pattern|
  {
    if pattern == [] then []
    else [FirstToken(pattern)] + Tokens(pattern[Width(FirstToken(pattern))..])
  }

  predicate SlashFree(text: Text) { SLASH !in text }

  /** Segments, each followed by its slash. */
  function Joined(segments: seq<Text>): Text {
    if segments == [] then [] else Joined(Init(segments)) + Last(segments) + [SLASH]
  }

  ghost predicate WholeSegments(text: Text) {
    exists segments :: Joined(segments) == text && forall i :: 0 <= i < |segments| ==> SlashFree(segments[i])
  }

  predicate OneLine(text: Text) { forall i :: 0 <= i < |text| ==> !LineTerminator(text[i]) }

  /** What one token may stand for. `oneLine` keeps `**` from crossing a line end. */
  ghost predicate Covers(token: Token, part: Text, oneLine: bool) {
    match token
    case Literal(c) => part == [c]
    case One => |part| == 1 && part[0] != SLASH
    case Star => SlashFree(part)
    case Deep => oneLine ==> OneLine(part)
    case Segments => WholeSegments(part)
  }

  ghost predicate GlobMatches(tokens: seq<Token>, path: Text, oneLine: bool) {
    if tokens == [] then path == []
    else exists n :: 0 <= n <= |path| && Covers(tokens[0], path[..n], oneLine) && GlobMatches(tokens[1..], path[n..], oneLine)
  }

  // ---- The compiler --------------------------------------------------------

  const EMIT_SEGMENTS: Text :=
    [OPEN, QUESTION, COLON, OPEN_CLASS, CARET, SLASH, CLOSE_CLASS, ASTERISK, SLASH, CLOSE, ASTERISK]
  const EMIT_DEEP: Text := [DOT, ASTERISK]
  const EMIT_STAR: Text := [OPEN_CLASS, CARET, SLASH, CLOSE_CLASS, ASTERISK]
  const EMIT_ONE: Text := [OPEN_CLASS, CARET, SLASH, CLOSE_CLASS]

  function Escape(c: Unit): Text {
    if Syntax(c) then [BACKSLASH, c] else [c]
  }

  function Emit(token: Token): Text {
    match token
    case Literal(c) => Escape(c)
    case One => EMIT_ONE
    case Star => EMIT_STAR
    case Deep => EMIT_DEEP
    case Segments => EMIT_SEGMENTS
  }

  function EmitAll(tokens: seq<Token>): Text {
    if tokens == [] then [] else Emit(tokens[0]) + EmitAll(tokens[1..])
  }

  function Compiled(pattern: Text): Text { [CARET] + EmitAll(Tokens(pattern)) + [DOLLAR] }

  /** `globToRegExp`, up to the constructor call. */
  method GlobToRegExp(pattern: Text) returns (source: Text)
    ensures source == Compiled(pattern)
  {
    hide EmitAll, Tokens, Escape;
    source := [CARET];
    var i := 0;
    assert pattern[0..] == pattern;
    while i < |pattern|
      invariant 0 <= i <= |pattern|
      invariant source + EmitAll(Tokens(pattern[i..])) == [CARET] + EmitAll(Tokens(pattern))
    {
      ghost var rest, was, start := pattern[i..], source, i;
      var ch := pattern[i];
      if ch == ASTERISK {
        if i + 1 < |pattern| && pattern[i + 1] == ASTERISK {
          if i + 2 < |pattern| && pattern[i + 2] == SLASH {
            source := source + EMIT_SEGMENTS;
            i := i + 3;
          } else {
            source := source + EMIT_DEEP;
            i := i + 2;
          }
        } else {
          source := source + EMIT_STAR;
          i := i + 1;
        }
      } else if ch == QUESTION {
        source := source + EMIT_ONE;
        i := i + 1;
      } else {
        source := source + Escape(ch);
        i := i + 1;
      }
      EmitStep(rest, was);
      assert source == was + Emit(FirstToken(rest)) && i == start + Width(FirstToken(rest));
      assert rest[Width(FirstToken(rest))..] == pattern[i..];
    }
    assert pattern[i..] == [];
    assert source + EmitAll(Tokens([])) == source by { EmitNone(source); }
    source := source + [DOLLAR];
  }

  lemma EmitStep(rest: Text, before: Text)
    requires rest != []
    ensures before + EmitAll(Tokens(rest)) ==
            before + Emit(FirstToken(rest)) + EmitAll(Tokens(rest[Width(FirstToken(rest))..]))
  {
    hide Emit, FirstToken, Width;
    var tail := Tokens(rest[Width(FirstToken(rest))..]);
    assert Tokens(rest) == [FirstToken(rest)] + tail && Tokens(rest)[1..] == tail;
  }

  lemma EmitNone(before: Text)
    ensures before + EmitAll(Tokens([])) == before
  {}

  // ---- The dialect is read without ambiguity -------------------------------

  function Spell(token: Token): Text {
    match token
    case Literal(c) => [c]
    case One => [QUESTION]
    case Star => [ASTERISK]
    case Deep => [ASTERISK, ASTERISK]
    case Segments => [ASTERISK, ASTERISK, SLASH]
  }

  function Spelled(tokens: seq<Token>): Text {
    if tokens == [] then [] else Spell(tokens[0]) + Spelled(tokens[1..])
  }

  predicate MayFollow(token: Token, next: Token) {
    !(token.Star? && (next.Star? || next.Deep? || next.Segments?)) &&
    !(token.Deep? && next == Literal(SLASH))
  }

  /** Wildcards are never literal, and no two neighbours could be read as a longer one. */
  predicate Greedy(tokens: seq<Token>) {
    forall i :: 0 <= i < |tokens| ==>
      tokens[i] != Literal(ASTERISK) && tokens[i] != Literal(QUESTION) &&
      (i + 1 < |tokens| ==> MayFollow(tokens[i], tokens[i + 1]))
  }

  lemma FirstSpelled(pattern: Text)
    requires pattern != []
    ensures var token := FirstToken(pattern);
      var rest := pattern[Width(token)..];
      pattern == Spell(token) + rest && token != Literal(ASTERISK) && token != Literal(QUESTION) &&
      (rest != [] ==> MayFollow(token, FirstToken(rest)))
  {}

  lemma {:induction false} SpelledTokens(pattern: Text)
    ensures Spelled(Tokens(pattern)) == pattern && Greedy(Tokens(pattern))
    decreases |pattern|
  {
    if pattern != [] {
      FirstSpelled(pattern);
      hide FirstToken, Spell, Width, MayFollow;
      var token := FirstToken(pattern);
      var rest := pattern[Width(token)..];
      SpelledTokens(rest);
      assert Tokens(pattern) == [token] + Tokens(rest);
      assert Tokens(pattern)[1..] == Tokens(rest);
      assert rest != [] ==> Tokens(rest)[0] == FirstToken(rest);
      assert Tokens([]) == [];
      GreedyCons(token, Tokens(rest));
    }
  }

  lemma GreedyCons(token: Token, tokens: seq<Token>)
    requires Greedy(tokens) && token != Literal(ASTERISK) && token != Literal(QUESTION)
    requires tokens != [] ==> MayFollow(token, tokens[0])
    ensures Greedy([token] + tokens)
  {
    hide MayFollow;
    var all := [token] + tokens;
    forall i | 0 <= i < |all|
      ensures all[i] != Literal(ASTERISK) && all[i] != Literal(QUESTION) &&
              (i + 1 < |all| ==> MayFollow(all[i], all[i + 1]))
    {
      if i > 0 { assert all[i] == tokens[i - 1]; }
    }
  }

  /** A token is recognised by its spelling when what follows may follow it. */
  lemma FirstOfSpelled(token: Token, rest: Text)
    requires token != Literal(ASTERISK) && token != Literal(QUESTION)
    requires rest != [] ==> MayFollow(token, FirstToken(rest))
    ensures FirstToken(Spell(token) + rest) == token
    ensures |Spell(token)| == Width(token) && (Spell(token) + rest)[Width(token)..] == rest
  {}

  lemma GreedyTail(tokens: seq<Token>)
    requires Greedy(tokens) && tokens != []
    ensures Greedy(tokens[1..])
    ensures |tokens| > 1 ==> MayFollow(tokens[0], tokens[1])
    ensures tokens[0] != Literal(ASTERISK) && tokens[0] != Literal(QUESTION)
  {
    hide MayFollow;
    assert forall i :: 0 <= i < |tokens[1..]| ==> tokens[1..][i] == tokens[i + 1];
  }

  lemma TokensOf(pattern: Text, token: Token, rest: Text)
    requires pattern != [] && FirstToken(pattern) == token && pattern[Width(token)..] == rest
    ensures Tokens(pattern) == [token] + Tokens(rest)
  {}

  lemma {:induction false} GreedyIsTokens(tokens: seq<Token>)
    requires Greedy(tokens)
    ensures Tokens(Spelled(tokens)) == tokens
    decreases |tokens|
  {
    if tokens != [] {
      GreedyTail(tokens);
      hide FirstToken, Spell, Width, MayFollow, Greedy, Tokens;
      GreedyIsTokens(tokens[1..]);
      var rest := Spelled(tokens[1..]);
      if rest != [] {
        TokensOf(rest, FirstToken(rest), rest[Width(FirstToken(rest))..]);
        assert Tokens(rest)[0] == FirstToken(rest);
      }
      FirstOfSpelled(tokens[0], rest);
      TokensOf(Spelled(tokens), tokens[0], rest);
    }
  }

  /** The tokens of a pattern are its one greedy reading. */
  lemma {:induction false} OneReading(pattern: Text, tokens: seq<Token>)
    ensures tokens == Tokens(pattern) <==> Greedy(tokens) && Spelled(tokens) == pattern
  {
    SpelledTokens(pattern);
    if Greedy(tokens) { GreedyIsTokens(tokens); }
  }

  // ---- Regular expressions -------------------------------------------------

  datatype Regex =
    | Nothing
    | Begin
    | End
    | Char(c: Unit)
    | AnyChar
    | Except(c: Unit)
    | Many(body: Regex)
    | Then(first: Regex, rest: Regex)

  datatype Read = Read(regex: Regex, rest: Text)

  predicate Quantifier(c: Unit) { c == ASTERISK || c == PLUS || c == QUESTION || c == OPEN_BRACE }

  /** Reads terms up to a closing parenthesis or the end. Syntax errors, and forms the
      compiler has no use for, read as None. */
  function ReadTerms(text: Text): (r: Option<Read>)
    ensures r.Some? ==> |r.value.rest| <= |text|
    decreases |text|, 2
  {
    if text == [] || text[0] == CLOSE then Some(Read(Nothing, text))
    else match ReadTerm(text)
      case None => None
      case Some(term) => match ReadTerms(term.rest)
        case None => None
        case Some(tail) => Some(Read(Then(term.regex, tail.regex), tail.rest))
  }

  function ReadTerm(text: Text): (r: Option<Read>)
    requires text != []
    ensures r.Some? ==> |r.value.rest| < |text|
    decreases |text|, 1
  {
    match ReadAtom(text)
    case None => None
    case Some(atom) =>
      if atom.rest == [] || !Quantifier(atom.rest[0]) then Some(atom)
      else if atom.rest[0] != ASTERISK || atom.regex.Begin? || atom.regex.End? then None
      else if |atom.rest| > 1 && atom.rest[1] == QUESTION then None
      else Some(Read(Many(atom.regex), atom.rest[1..]))
  }

  function ReadAtom(text: Text): (r: Option<Read>)
    requires text != []
    ensures r.Some? ==> |r.value.rest| < |text|
    decreases |text|, 0
  {
    if !Syntax(text[0]) then Some(Read(Char(text[0]), text[1..]))
    else if text[0] == CARET then Some(Read(Begin, text[1..]))
    else if text[0] == DOLLAR then Some(Read(End, text[1..]))
    else if text[0] == DOT then Some(Read(AnyChar, text[1..]))
    else if text[0] == BACKSLASH then
      if |text| > 1 && Syntax(text[1]) then Some(Read(Char(text[1]), text[2..])) else None
    else if text[0] == OPEN_CLASS then
      // [^c]
      if |text| > 3 && text[1] == CARET && text[3] == CLOSE_CLASS && text[2] != CLOSE_CLASS && text[2] != BACKSLASH
      then Some(Read(Except(text[2]), text[4..])) else None
    else if text[0] == OPEN then
      // (?:...)
      if !([OPEN, QUESTION, COLON] <= text) then None
      else match ReadTerms(text[3..])
        case None => None
        case Some(body) =>
          if body.rest != [] && body.rest[0] == CLOSE then Some(Read(body.regex, body.rest[1..])) else None
    else None
  }

  function ReadRegex(text: Text): Option<Regex> {
    match ReadTerms(text)
    case Some(read) => if read.rest == [] then Some(read.regex) else None
    case None => None
  }

  predicate Between(i: nat, m: nat, j: nat) { i <= m <= j }

  predicate Further(i: nat, m: nat, j: nat) { i < m <= j }

  /** `r` matches `text[i..j]`, as the matchers of section 22.2.2 do: an iteration of a
      repetition is never empty. */
  ghost predicate MatchesAt(r: Regex, text: Text, i: nat, j: nat)
    requires i <= j <= |text|
    decreases r, j - i
  {
    match r
    case Nothing => i == j
    case Begin => i == j == 0
    case End => i == j == |text|
    case Char(c) => j == i + 1 && text[i] == c
    case AnyChar => j == i + 1 && !LineTerminator(text[i])
    case Except(c) => j == i + 1 && text[i] != c
    case Many(body) => i == j || exists m :: Further(i, m, j) && MatchesAt(body, text, i, m) && MatchesAt(r, text, m, j)
    case Then(first, rest) => exists m :: Between(i, m, j) && MatchesAt(first, text, i, m) && MatchesAt(rest, text, m, j)
  }

  /** `RegExp.prototype.test` without flags: a match anywhere. */
  ghost predicate Test(r: Regex, text: Text) {
    exists i, j :: 0 <= i <= j <= |text| && MatchesAt(r, text, i, j)
  }

  // ---- The emitted text reads back -----------------------------------------

  const SEGMENT := Then(Many(Except(SLASH)), Then(Char(SLASH), Nothing))

  function Meaning(token: Token): Regex {
    match token
    case Literal(c) => Char(c)
    case One => Except(SLASH)
    case Star => Many(Except(SLASH))
    case Deep => Many(AnyChar)
    case Segments => Many(SEGMENT)
  }

  function Intended(tokens: seq<Token>): Regex {
    if tokens == [] then Then(End, Nothing) else Then(Meaning(tokens[0]), Intended(tokens[1..]))
  }

  /** What follows a token starts no quantifier. */
  predicate NoQuantifier(text: Text) { text == [] || !Quantifier(text[0]) }

  lemma ReadClassAtom(text: Text)
    requires EMIT_ONE <= text
    ensures ReadAtom(text) == Some(Read(Except(SLASH), text[4..]))
  {
    assert text[0] == OPEN_CLASS && text[1] == CARET && text[2] == SLASH && text[3] == CLOSE_CLASS;
  }

  lemma ReadStar(text: Text)
    requires EMIT_STAR <= text && (|text| > 5 ==> text[5] != QUESTION)
    ensures ReadTerm(text) == Some(Read(Many(Except(SLASH)), text[5..]))
  {
    hide Syntax, ReadAtom;
    assert EMIT_ONE <= text;
    ReadClassAtom(text);
    assert text[4] == ASTERISK;
    assert text[4..][1..] == text[5..];
  }

  lemma ReadSegmentBody(text: Text)
    requires [OPEN_CLASS, CARET, SLASH, CLOSE_CLASS, ASTERISK, SLASH, CLOSE] <= text
    ensures ReadTerms(text) == Some(Read(SEGMENT, text[6..]))
  {
    assert text[5] == SLASH && text[6] == CLOSE && text[0] == OPEN_CLASS;
    ReadStar(text);
    var tail := text[5..];
    assert ReadAtom(tail) == Some(Read(Char(SLASH), tail[1..]));
    assert tail[1..] == text[6..];
    assert ReadTerm(tail) == Some(Read(Char(SLASH), text[6..]));
    assert ReadTerms(text[6..]) == Some(Read(Nothing, text[6..]));
    assert ReadTerms(tail) == Some(Read(Then(Char(SLASH), Nothing), text[6..]));
  }

  lemma ReadSegments(rest: Text)
    requires NoQuantifier(rest)
    ensures ReadTerm(EMIT_SEGMENTS + rest) == Some(Read(Many(SEGMENT), rest))
  {
    hide ReadTerms;
    var text := EMIT_SEGMENTS + rest;
    ReadSegmentBody(text[3..]);
    assert text[3..][6..] == [CLOSE, ASTERISK] + rest;
    assert [OPEN, QUESTION, COLON] <= text;
    assert ([CLOSE, ASTERISK] + rest)[1..] == [ASTERISK] + rest;
    assert ([ASTERISK] + rest)[1..] == rest;
  }

  lemma ReadEmitted(token: Token, rest: Text)
    requires NoQuantifier(rest)
    ensures ReadTerm(Emit(token) + rest) == Some(Read(Meaning(token), rest))
  {
    var text := Emit(token) + rest;
    match token
    case Literal(c) =>
      assert text[|Escape(c)|..] == rest;
    case One =>
      ReadClassAtom(text);
      assert text[4..] == rest;
    case Star =>
      ReadStar(text);
      assert text[5..] == rest;
    case Deep =>
      assert text[1..] == [ASTERISK] + rest && text[1..][1..] == rest;
    case Segments =>
      ReadSegments(rest);
  }

  lemma EmitsNoQuantifier(tokens: seq<Token>)
    ensures NoQuantifier(EmitAll(tokens) + [DOLLAR])
  {}

  lemma {:induction false} ReadAll(tokens: seq<Token>)
    ensures ReadTerms(EmitAll(tokens) + [DOLLAR]) == Some(Read(Intended(tokens), []))
  {
    if tokens == [] {
      assert [] + [DOLLAR] == [DOLLAR] && [DOLLAR][1..] == [];
      assert ReadAtom([DOLLAR]) == Some(Read(End, []));
      assert ReadTerms([]) == Some(Read(Nothing, []));
    } else {
      ReadAll(tokens[1..]);
      var rest := EmitAll(tokens[1..]) + [DOLLAR];
      assert EmitAll(tokens) + [DOLLAR] == Emit(tokens[0]) + rest;
      EmitsNoQuantifier(tokens[1..]);
      ReadEmitted(tokens[0], rest);
      FirstIsNoClose(tokens[0], rest);
    }
  }

  lemma FirstIsNoClose(token: Token, rest: Text)
    ensures Emit(token) + rest != [] && (Emit(token) + rest)[0] != CLOSE
  {}

  /** Nothing in the emitted text is read as anything but what was meant by it. */
  lemma ReadsAsIntended(pattern: Text)
    ensures ReadRegex(Compiled(pattern)) == Some(Then(Begin, Intended(Tokens(pattern))))
  {
    hide EmitAll, Intended, Tokens;
    var tail := EmitAll(Tokens(pattern)) + [DOLLAR];
    ReadAll(Tokens(pattern));
    EmitsNoQuantifier(Tokens(pattern));
    assert Compiled(pattern) == [CARET] + tail;
    assert ([CARET] + tail)[1..] == tail;
    assert ReadAtom([CARET] + tail) == Some(Read(Begin, tail));
    assert ReadTerm([CARET] + tail) == Some(Read(Begin, tail));
  }

  // ---- The expression means what the glob means ----------------------------

  lemma {:induction false} ManyExcept(text: Text, i: nat, j: nat)
    requires i <= j <= |text|
    ensures MatchesAt(Many(Except(SLASH)), text, i, j) <==> SlashFree(text[i..j])
    decreases j - i
  {
    if i < j {
      ManyExcept(text, i + 1, j);
      assert text[i..j] == [text[i]] + text[i + 1..j];
      if text[i] != SLASH {
        assert MatchesAt(Except(SLASH), text, i, i + 1);
      }
    }
  }

  lemma OneLineCons(c: Unit, text: Text)
    ensures OneLine([c] + text) <==> !LineTerminator(c) && OneLine(text)
  {
    var all := [c] + text;
    assert all[0] == c && all[1..] == text;
    if OneLine(all) {
      assert forall k :: 0 <= k < |text| ==> text[k] == all[1..][k];
      forall k | 0 <= k < |text| ensures !LineTerminator(text[k]) { assert text[k] == all[k + 1]; }
    }
  }

  lemma {:induction false} ManyAnyChar(text: Text, i: nat, j: nat)
    requires i <= j <= |text|
    ensures MatchesAt(Many(AnyChar), text, i, j) <==> OneLine(text[i..j])
    decreases j - i
  {
    if i < j {
      ManyAnyChar(text, i + 1, j);
      assert text[i..j] == [text[i]] + text[i + 1..j];
      if OneLine(text[i..j]) {
        assert !LineTerminator(text[i..j][0]);
        OneLineCons(text[i], text[i + 1..j]);
        assert MatchesAt(AnyChar, text, i, i + 1);
      }
      if MatchesAt(Many(AnyChar), text, i, j) {
        OneLineCons(text[i], text[i + 1..j]);
      }
    }
  }

  lemma ManyUnfolds(body: Regex, text: Text, i: nat, j: nat)
    requires i <= j <= |text|
    ensures MatchesAt(Many(body), text, i, j) <==>
            i == j || exists m :: Further(i, m, j) && MatchesAt(body, text, i, m) && MatchesAt(Many(body), text, m, j)
  {}

  lemma ThenUnfolds(first: Regex, rest: Regex, text: Text, i: nat, j: nat)
    requires i <= j <= |text|
    ensures MatchesAt(Then(first, rest), text, i, j) <==>
            exists m :: Between(i, m, j) && MatchesAt(first, text, i, m) && MatchesAt(rest, text, m, j)
  {}

  /** One segment with its slash. */
  lemma OneSegment(text: Text, i: nat, j: nat)
    requires i <= j <= |text|
    ensures MatchesAt(SEGMENT, text, i, j) <==> i < j && text[j - 1] == SLASH && SlashFree(text[i..j - 1])
  {
    var slash := Then(Char(SLASH), Nothing);
    forall m | i <= m <= j
      ensures MatchesAt(slash, text, m, j) <==> m == j - 1 && text[m] == SLASH
    {
      if m == j - 1 && text[m] == SLASH {
        assert MatchesAt(Char(SLASH), text, m, j) && MatchesAt(Nothing, text, j, j);
      }
    }
    if i < j {
      ManyExcept(text, i, j - 1);
    }
    if i < j && text[j - 1] == SLASH && SlashFree(text[i..j - 1]) {
      assert MatchesAt(slash, text, j - 1, j);
    }
  }

  /** Repeating it gives exactly the stretches that are empty or end in a slash. */
  lemma {:induction false} ManySegments(text: Text, i: nat, j: nat)
    requires i <= j <= |text|
    ensures MatchesAt(Many(SEGMENT), text, i, j) <==> i == j || text[j - 1] == SLASH
    decreases j - i
  {
    hide WholeSegments;
    if MatchesAt(Many(SEGMENT), text, i, j) && i < j {
      ManyUnfolds(SEGMENT, text, i, j);
      var m :| Further(i, m, j) && MatchesAt(SEGMENT, text, i, m) && MatchesAt(Many(SEGMENT), text, m, j);
      OneSegment(text, i, m);
      ManySegments(text, m, j);
    }
    if i < j && text[j - 1] == SLASH {
      var m := FirstSlash(text, i, j);
      OneSegment(text, i, m + 1);
      ManySegments(text, m + 1, j);
      ManyUnfolds(SEGMENT, text, i, j);
    }
  }

  lemma {:induction false} FirstSlash(text: Text, i: nat, j: nat) returns (m: nat)
    requires i < j <= |text| && text[j - 1] == SLASH
    ensures i <= m < j && text[m] == SLASH && SlashFree(text[i..m])
    decreases j - i
  {
    if text[i] == SLASH {
      m := i;
    } else {
      m := FirstSlash(text, i + 1, j);
      assert text[i..m] == [text[i]] + text[i + 1..m];
    }
  }

  lemma JoinedAppend(segments: seq<Text>, segment: Text)
    ensures Joined(segments + [segment]) == Joined(segments) + segment + [SLASH]
  {
    assert Init(segments + [segment]) == segments && Last(segments + [segment]) == segment;
  }

  lemma JoinedEnds(segments: seq<Text>)
    ensures Joined(segments) == [] || Last(Joined(segments)) == SLASH
  {}

  lemma AnotherSegment(text: Text, segment: Text)
    requires WholeSegments(text) && SlashFree(segment)
    ensures WholeSegments(text + segment + [SLASH])
  {
    hide Joined;
    var segments :| Joined(segments) == text && forall i :: 0 <= i < |segments| ==> SlashFree(segments[i]);
    var more := segments + [segment];
    JoinedAppend(segments, segment);
    assert forall i :: 0 <= i < |more| ==> SlashFree(more[i]);
  }

  lemma NoSegments()
    ensures WholeSegments([])
  {
    assert Joined([]) == [];
  }

  lemma {:induction false} EndsInSlash(text: Text)
    requires text == [] || Last(text) == SLASH
    ensures WholeSegments(text)
    decreases |text|
  {
    hide WholeSegments, Joined, SlashFree;
    if text == [] {
      NoSegments();
    } else {
      var body := Init(text);
      var k := SegmentStart(body);
      var before, segment := body[..k], body[k..];
      EndsInSlash(before);
      AnotherSegment(before, segment);
      assert before + segment == body && text == body + [SLASH];
    }
  }

  /** The same stretches are the concatenations of whole segments. */
  lemma WholeSegmentsIff(text: Text)
    ensures WholeSegments(text) <==> text == [] || Last(text) == SLASH
  {
    hide Joined, SlashFree;
    if text == [] || Last(text) == SLASH {
      EndsInSlash(text);
    }
    if WholeSegments(text) {
      var segments :| Joined(segments) == text && forall i :: 0 <= i < |segments| ==> SlashFree(segments[i]);
      JoinedEnds(segments);
    }
  }

  /** Where the last segment of a text starts. */
  lemma {:induction false} SegmentStart(text: Text) returns (k: nat)
    ensures k <= |text| && SlashFree(text[k..]) && (k == 0 || text[k - 1] == SLASH)
  {
    if text == [] {
      k := 0;
    } else if Last(text) == SLASH {
      k := |text|;
    } else {
      k := SegmentStart(Init(text));
      assert text[k..] == Init(text)[k..] + [Last(text)];
    }
  }

  lemma MeaningIsCover(token: Token, text: Text, i: nat, j: nat)
    requires i <= j <= |text|
    ensures MatchesAt(Meaning(token), text, i, j) <==> Covers(token, text[i..j], true)
  {
    hide WholeSegments, OneLine, SlashFree;
    if j == i + 1 { assert text[i..j] == [text[i]]; }
    match token
    case Literal(c) =>
    case One =>
    case Star => ManyExcept(text, i, j);
    case Deep => ManyAnyChar(text, i, j);
    case Segments =>
      ManySegments(text, i, j);
      WholeSegmentsIff(text[i..j]);
  }

  /** Some stretch starting at `i` matches. */
  ghost predicate MatchesFrom(r: Regex, text: Text, i: nat)
    requires i <= |text|
  {
    exists j :: i <= j <= |text| && MatchesAt(r, text, i, j)
  }

  lemma ThenFrom(first: Regex, rest: Regex, text: Text, i: nat)
    requires i <= |text|
    ensures MatchesFrom(Then(first, rest), text, i) <==>
            exists m :: i <= m <= |text| && MatchesAt(first, text, i, m) && MatchesFrom(rest, text, m)
  {
    if MatchesFrom(Then(first, rest), text, i) {
      var j :| i <= j <= |text| && MatchesAt(Then(first, rest), text, i, j);
      ThenUnfolds(first, rest, text, i, j);
      var m :| Between(i, m, j) && MatchesAt(first, text, i, m) && MatchesAt(rest, text, m, j);
      assert MatchesFrom(rest, text, m);
    }
    if m :| i <= m <= |text| && MatchesAt(first, text, i, m) && MatchesFrom(rest, text, m) {
      var j :| m <= j <= |text| && MatchesAt(rest, text, m, j);
      assert MatchesAt(Then(first, rest), text, i, j);
    }
  }

  lemma EndOnly(text: Text, i: nat)
    requires i <= |text|
    ensures MatchesFrom(Then(End, Nothing), text, i) <==> i == |text|
  {
    ThenFrom(End, Nothing, text, i);
    assert MatchesAt(Nothing, text, |text|, |text|);
    assert MatchesFrom(Nothing, text, |text|);
    if i == |text| {
      assert MatchesAt(End, text, i, i);
    }
  }

  lemma {:induction false} IntendedIsGlob(tokens: seq<Token>, text: Text, i: nat)
    requires i <= |text|
    ensures MatchesFrom(Intended(tokens), text, i) <==> GlobMatches(tokens, text[i..], true)
    decreases |tokens|
  {
    hide Meaning, Covers, MatchesFrom, MatchesAt;
    if tokens == [] {
      EndOnly(text, i);
    } else {
      var first, rest := Meaning(tokens[0]), Intended(tokens[1..]);
      ThenFrom(first, rest, text, i);
      forall m | i <= m <= |text|
        ensures MatchesAt(first, text, i, m) <==> Covers(tokens[0], text[i..][..m - i], true)
        ensures MatchesFrom(rest, text, m) <==> GlobMatches(tokens[1..], text[i..][m - i..], true)
      {
        MeaningIsCover(tokens[0], text, i, m);
        IntendedIsGlob(tokens[1..], text, m);
        assert text[i..][..m - i] == text[i..m] && text[i..][m - i..] == text[m..];
      }
      if GlobMatches(tokens, text[i..], true) {
        var n :| 0 <= n <= |text[i..]| && Covers(tokens[0], text[i..][..n], true) && GlobMatches(tokens[1..], text[i..][n..], true);
        assert MatchesAt(first, text, i, i + n) && MatchesFrom(rest, text, i + n);
      }
    }
  }

  /** The compiled expression, read back from its text, accepts the path. */
  ghost predicate Accepts(pattern: Text, path: Text) {
    match ReadRegex(Compiled(pattern))
    case Some(regex) => Test(regex, path)
    case None => false
  }

  /** The compiler is right about every pattern and path, where a bare `**` stands for
      any stretch within one line. */
  lemma CompiledMeaning(pattern: Text, path: Text)
    ensures Accepts(pattern, path) <==> GlobMatches(Tokens(pattern), path, true)
  {
    hide Compiled, Tokens, ReadRegex, GlobMatches, Intended, Test, MatchesFrom;
    ReadsAsIntended(pattern);
    var tail := Intended(Tokens(pattern));
    IntendedIsGlob(Tokens(pattern), path, 0);
    assert path[0..] == path;
    BeginAnchors(tail, path);
  }

  lemma BeginAnchors(r: Regex, text: Text)
    ensures Test(Then(Begin, r), text) <==> MatchesFrom(r, text, 0)
  {
    if Test(Then(Begin, r), text) {
      var i, j :| 0 <= i <= j <= |text| && MatchesAt(Then(Begin, r), text, i, j);
      ThenUnfolds(Begin, r, text, i, j);
    }
    if MatchesFrom(r, text, 0) {
      var j :| 0 <= j <= |text| && MatchesAt(r, text, 0, j);
      assert MatchesAt(Begin, text, 0, 0);
      ThenUnfolds(Begin, r, text, 0, j);
    }
  }

  /** On a path without line ends the two readings of `**` agree. */
  lemma {:induction false} OneLineAgrees(tokens: seq<Token>, path: Text)
    requires OneLine(path)
    ensures GlobMatches(tokens, path, true) <==> GlobMatches(tokens, path, false)
    decreases |tokens|
  {
    if tokens != [] {
      forall n | 0 <= n <= |path|
        ensures GlobMatches(tokens[1..], path[n..], true) <==> GlobMatches(tokens[1..], path[n..], false)
        ensures Covers(tokens[0], path[..n], true) <==> Covers(tokens[0], path[..n], false)
      {
        OneLineAgrees(tokens[1..], path[n..]);
      }
    }
  }

  lemma DeepMatchesAll(path: Text)
    ensures GlobMatches([Deep], path, false)
    ensures GlobMatches([Deep], path, true) ==> OneLine(path)
  {
    assert [Deep][1..] == [] && path[..|path|] == path;
    assert GlobMatches([], path[|path|..], false);
    if GlobMatches([Deep], path, true) {
      var n :| 0 <= n <= |path| && Covers([Deep][0], path[..n], true) && GlobMatches([Deep][1..], path[n..], true);
      assert n == |path|;
    }
  }

  /** The paths on which the compiler keeps the dialect's promise for every pattern are
      exactly those without a line terminator; `**` misses each of the others. */
  lemma PromiseKeptIff(path: Text)
    ensures (forall pattern :: Accepts(pattern, path) <==> GlobMatches(Tokens(pattern), path, false)) <==> OneLine(path)
  {
    hide Accepts, GlobMatches, Tokens;
    if OneLine(path) {
      forall pattern
        ensures Accepts(pattern, path) <==> GlobMatches(Tokens(pattern), path, false)
      {
        CompiledMeaning(pattern, path);
        OneLineAgrees(Tokens(pattern), path);
      }
    } else {
      var pattern := [ASTERISK, ASTERISK];
      DeepPattern();
      CompiledMeaning(pattern, path);
      DeepMatchesAll(path);
    }
  }

  lemma DeepPattern()
    ensures Tokens([ASTERISK, ASTERISK]) == [Deep]
  {
    assert [ASTERISK, ASTERISK][2..] == [];
  }
}
