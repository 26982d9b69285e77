/** How the spawn core hands arguments to a Windows batch file: one command line for
    cmd.exe, quoted so that it reads back as the list it was built from. */
module CmdQuotes {
  import opened Basics

  type Text = seq<Unit>

  const SPACE: Unit := 32
  const QUOTE: Unit := 34

  /** Interpreted by cmd.exe even inside quotes: LF, CR, ! and %. */
  predicate Unescapable(c: Unit) { c == 37 || c == 13 || c == 10 || c == 33 }

  /** Command separators and redirections: & | < > ( ) ^ */
  predicate Meta(c: Unit) { c == 38 || c == 124 || c == 60 || c == 62 || c == 40 || c == 41 || c == 94 }

  predicate NeedsQuoting(token: Text) {
    exists i :: 0 <= i < |token| && (WhiteSpace(token[i]) || Meta(token[i]) || token[i] == QUOTE)
  }

  predicate HasUnescapable(text: Text) { exists i :: 0 <= i < |text| && Unescapable(text[i]) }

  /** Every quote doubled. */
  function Doubled(token: Text): Text {
    if token == [] then []
    else Doubled(Init(token)) + if Last(token) == QUOTE then [QUOTE, QUOTE] else [Last(token)]
  }

  function QuoteToken(token: Text): Text {
    if token != [] && !NeedsQuoting(token) then token else [QUOTE] + Doubled(token) + [QUOTE]
  }

  /** The tokens, quoted and separated by one space each. */
  function Command(tokens: seq<Text>): Text {
    if tokens == [] then []
    else if |tokens| == 1 then QuoteToken(tokens[0])
    else Command(Init(tokens)) + [SPACE] + QuoteToken(Last(tokens))
  }

  predicate Same(c: Unit, lower: Unit)
    requires 97 <= lower <= 122
  {
    c == lower || c == lower - 32
  }

  /** `/\.(cmd|bat)$/i` */
  predicate IsBatch(executable: Text) {
    var n := |executable|;
    n >= 4 && executable[n - 4] == 46 &&
    ((Same(executable[n - 3], 99) && Same(executable[n - 2], 109) && Same(executable[n - 1], 100)) ||
     (Same(executable[n - 3], 98) && Same(executable[n - 2], 97) && Same(executable[n - 1], 116)))
  }

  /** `Wrapped` is `cmd.exe /d /s /c line` with arguments passed verbatim; `/s` strips
      the outer quotes of the line. */
  datatype Invocation =
    | Direct(executable: Text, args: seq<Text>)
    | Wrapped(line: Text)
    | Refused(arg: Text)

  // ---- The reader ----------------------------------------------------------

  datatype Mode = Gap | Bare(token: Text) | Quoted(token: Text)

  /** Splits on white space outside quotes; inside quotes a doubled quote is one. */
  function ReadFrom(text: Text, mode: Mode): seq<Text>
    decreases |text|
  {
    if text == [] then if mode.Gap? then [] else [mode.token]
    else
      var c, rest := text[0], text[1..];
      match mode
      case Gap =>
        if WhiteSpace(c) then ReadFrom(rest, Gap)
        else if c == QUOTE then ReadFrom(rest, Quoted([]))
        else ReadFrom(rest, Bare([c]))
      case Bare(token) =>
        if WhiteSpace(c) then [token] + ReadFrom(rest, Gap)
        else if c == QUOTE then ReadFrom(rest, Quoted(token))
        else ReadFrom(rest, Bare(token + [c]))
      case Quoted(token) =>
        if c != QUOTE then ReadFrom(rest, Quoted(token + [c]))
        else if rest != [] && rest[0] == QUOTE then ReadFrom(rest[1..], Quoted(token + [QUOTE]))
        else ReadFrom(rest, Bare(token))
  }

  function ReadCommand(text: Text): seq<Text> { ReadFrom(text, Gap) }

  /** A token ends here. */
  predicate Ends(rest: Text) { rest == [] || WhiteSpace(rest[0]) }

  lemma DoubledHead(token: Text)
    requires token != []
    ensures Doubled(token) == (if token[0] == QUOTE then [QUOTE, QUOTE] else [token[0]]) + Doubled(token[1..])
  {
    if |token| == 1 {
      assert Init(token) == [] && token[1..] == [];
    } else {
      DoubledHead(Init(token));
      assert Init(token)[1..] == Init(token[1..]) && Last(token) == Last(token[1..]);
    }
  }

  lemma {:induction false} ReadQuoted(token: Text, before: Text, rest: Text)
    requires Ends(rest)
    ensures ReadFrom(Doubled(token) + [QUOTE] + rest, Quoted(before)) == ReadFrom(rest, Bare(before + token))
    decreases |token|
  {
    var text := Doubled(token) + [QUOTE] + rest;
    if token == [] {
      assert text[1..] == rest && before + [] == before;
    } else {
      DoubledHead(token);
      var tail := Doubled(token[1..]) + [QUOTE] + rest;
      ReadQuoted(token[1..], before + [token[0]], rest);
      assert before + [token[0]] + token[1..] == before + token;
      if token[0] == QUOTE {
        assert text == [QUOTE, QUOTE] + tail;
        assert text[1..] == [QUOTE] + tail && text[1..][1..] == tail;
      } else {
        assert text == [token[0]] + tail && text[1..] == tail;
      }
    }
  }

  lemma {:induction false} ReadBare(token: Text, before: Text, rest: Text)
    requires !NeedsQuoting(token) && Ends(rest)
    ensures ReadFrom(token + rest, Bare(before)) == ReadFrom(rest, Bare(before + token))
    decreases |token|
  {
    if token == [] {
      assert token + rest == rest && before + [] == before;
    } else {
      assert forall i :: 0 <= i < |token[1..]| ==> token[1..][i] == token[i + 1];
      assert !WhiteSpace(token[0]) && token[0] != QUOTE;
      ReadBare(token[1..], before + [token[0]], rest);
      assert (token + rest)[1..] == token[1..] + rest;
      assert before + [token[0]] + token[1..] == before + token;
    }
  }

  lemma BareTail(token: Text)
    requires !NeedsQuoting(token) && token != []
    ensures !NeedsQuoting(token[1..]) && !WhiteSpace(token[0]) && token[0] != QUOTE
  {
    assert forall i :: 0 <= i < |token[1..]| ==> token[1..][i] == token[i + 1];
  }

  /** One quoted token is read back whole. */
  lemma ReadToken(token: Text, rest: Text)
    requires Ends(rest)
    ensures ReadFrom(QuoteToken(token) + rest, Gap) == ReadFrom(rest, Bare(token))
  {
    hide Doubled, NeedsQuoting, WhiteSpace, Ends;
    var text := QuoteToken(token) + rest;
    if token != [] && !NeedsQuoting(token) {
      BareTail(token);
      ReadBare(token[1..], [token[0]], rest);
      assert text[1..] == token[1..] + rest;
      assert [token[0]] + token[1..] == token;
    } else {
      ReadQuoted(token, [], rest);
      QuoteIsNoSpace();
      assert text[0] == QUOTE && text[1..] == Doubled(token) + [QUOTE] + rest;
      assert [] + token == token;
    }
  }

  lemma QuoteIsNoSpace()
    ensures !WhiteSpace(QUOTE) && WhiteSpace(SPACE)
  {}

  lemma ReadSeparator(token: Text, rest: Text)
    ensures ReadFrom([SPACE] + rest, Bare(token)) == [token] + ReadFrom(rest, Gap)
  {
    assert ([SPACE] + rest)[1..] == rest;
  }

  /** The tokens of a command followed by more. */
  lemma {:induction false} ReadTokens(tokens: seq<Text>, rest: Text)
    requires tokens != [] && Ends(rest)
    ensures ReadFrom(Command(tokens) + rest, Gap) == Init(tokens) + ReadFrom(rest, Bare(Last(tokens)))
    decreases |tokens|
  {
    hide QuoteToken, WhiteSpace, ReadFrom;
    if |tokens| == 1 {
      ReadToken(tokens[0], rest);
    } else {
      QuoteIsNoSpace();
      var last := QuoteToken(Last(tokens)) + rest;
      ReadTokens(Init(tokens), [SPACE] + last);
      ReadSeparator(Last(Init(tokens)), last);
      ReadToken(Last(tokens), rest);
      assert Command(tokens) + rest == Command(Init(tokens)) + ([SPACE] + last);
      assert Init(tokens) == Init(Init(tokens)) + [Last(Init(tokens))];
    }
  }

  /** Reading undoes quoting, for any tokens at all. */
  lemma ReadUndoesQuote(tokens: seq<Text>)
    ensures ReadCommand(Command(tokens)) == tokens
  {
    if tokens != [] {
      ReadTokens(tokens, []);
      assert Command(tokens) + [] == Command(tokens);
      assert tokens == Init(tokens) + [Last(tokens)];
    }
  }

  // ---- Metacharacters stay inside quotes -----------------------------------

  function Quotes(text: Text): nat {
    if text == [] then 0 else Quotes(Init(text)) + if Last(text) == QUOTE then 1 else 0
  }

  /** After `before` quotes, every metacharacter of the text is inside a quotation. */
  ghost predicate Guarded(text: Text, before: nat) {
    forall i :: 0 <= i < |text| && Meta(text[i]) ==> (before + Quotes(text[..i])) % 2 == 1
  }

  lemma {:induction false} QuotesConcat(a: Text, b: Text)
    ensures Quotes(a + b) == Quotes(a) + Quotes(b)
  {
    if b == [] {
      assert a + b == a;
    } else {
      QuotesConcat(a, Init(b));
      assert Init(a + b) == a + Init(b);
    }
  }

  lemma QuotesOfPrefix(a: Text, b: Text, i: nat)
    requires i <= |a + b|
    ensures Quotes((a + b)[..i]) == if i < |a| then Quotes(a[..i]) else Quotes(a) + Quotes(b[..i - |a|])
  {
    hide Quotes;
    if i < |a| {
      assert (a + b)[..i] == a[..i];
    } else {
      assert (a + b)[..i] == a + b[..i - |a|];
      QuotesConcat(a, b[..i - |a|]);
    }
  }

  lemma GuardedConcat(a: Text, b: Text, before: nat)
    requires Guarded(a, before) && Guarded(b, before + Quotes(a))
    ensures Guarded(a + b, before) && Quotes(a + b) == Quotes(a) + Quotes(b)
  {
    hide Meta, Quotes;
    QuotesConcat(a, b);
    forall i | 0 <= i < |a + b| && Meta((a + b)[i])
      ensures (before + Quotes((a + b)[..i])) % 2 == 1
    {
      QuotesOfPrefix(a, b, i);
    }
  }

  lemma GuardedOne(c: Unit, before: nat)
    requires !Meta(c) || before % 2 == 1
    ensures Guarded([c], before) && Quotes([c]) == if c == QUOTE then 1 else 0
  {
    assert Init([c]) == [] && [c][..0] == [];
  }

  lemma GuardedAppend(a: Text, c: Unit, before: nat)
    requires Guarded(a, before) && (!Meta(c) || (before + Quotes(a)) % 2 == 1)
    ensures Guarded(a + [c], before) && Quotes(a + [c]) == Quotes(a) + if c == QUOTE then 1 else 0
  {
    hide Guarded, Meta, Quotes;
    GuardedOne(c, before + Quotes(a));
    GuardedConcat(a, [c], before);
  }

  lemma QuoteIsPlain()
    ensures !Meta(QUOTE) && !Meta(SPACE)
  {}

  lemma {:induction false} DoubledIsEven(token: Text, before: nat)
    requires before % 2 == 1
    ensures Quotes(Doubled(token)) % 2 == 0 && Guarded(Doubled(token), before)
  {
    hide Quotes, Guarded, Meta;
    if token != [] {
      var body, c := Doubled(Init(token)), Last(token);
      DoubledIsEven(Init(token), before);
      GuardedAppend(body, c, before);
      if c == QUOTE {
        QuoteIsPlain();
        GuardedAppend(body + [c], c, before);
        assert body + [c] + [c] == body + [QUOTE, QUOTE];
      }
    } else {
      GuardedNone(before);
    }
  }

  lemma GuardedNone(before: nat)
    ensures Guarded([], before) && Quotes([]) == 0
  {}

  lemma {:induction false} BareIsPlain(token: Text)
    requires !NeedsQuoting(token)
    ensures Quotes(token) == 0
  {
    if token != [] {
      assert forall i :: 0 <= i < |Init(token)| ==> Init(token)[i] == token[i];
      BareIsPlain(Init(token));
    }
  }

  lemma PlainIsGuarded(token: Text, before: nat)
    requires !NeedsQuoting(token)
    ensures Guarded(token, before)
  {}

  lemma TokenIsGuarded(token: Text, before: nat)
    requires before % 2 == 0
    ensures Guarded(QuoteToken(token), before) && Quotes(QuoteToken(token)) % 2 == 0
  {
    hide Quotes, Guarded, Doubled, NeedsQuoting, Meta;
    if token != [] && !NeedsQuoting(token) {
      BareIsPlain(token);
      PlainIsGuarded(token, before);
    } else {
      QuoteIsPlain();
      GuardedOne(QUOTE, before);
      DoubledIsEven(token, before + 1);
      GuardedConcat([QUOTE], Doubled(token), before);
      GuardedAppend([QUOTE] + Doubled(token), QUOTE, before);
    }
  }

  /** Before every separator or redirection of the command an odd number of quotes has
      gone by, and quotes balance. */
  lemma {:induction false} CommandIsGuarded(tokens: seq<Text>)
    ensures Guarded(Command(tokens), 0) && Quotes(Command(tokens)) % 2 == 0
    decreases |tokens|
  {
    hide Quotes, Guarded, QuoteToken, Meta;
    if tokens == [] {
      GuardedNone(0);
    } else if |tokens| == 1 {
      TokenIsGuarded(tokens[0], 0);
    } else {
      var head := Command(Init(tokens));
      CommandIsGuarded(Init(tokens));
      QuoteIsPlain();
      GuardedAppend(head, SPACE, 0);
      TokenIsGuarded(Last(tokens), Quotes(head + [SPACE]));
      GuardedConcat(head + [SPACE], QuoteToken(Last(tokens)), 0);
    }
  }

  // ---- What quotes cannot contain ------------------------------------------

  lemma {:induction false} DoubledKeepsBad(token: Text)
    ensures HasUnescapable(Doubled(token)) <==> HasUnescapable(token)
  {
    if token != [] {
      DoubledKeepsBad(Init(token));
      hide HasUnescapable, Doubled, Unescapable;
      var more := if Last(token) == QUOTE then [QUOTE, QUOTE] else [Last(token)];
      BadConcat(Doubled(Init(token)), more);
      BadConcat(Init(token), [Last(token)]);
      assert token == Init(token) + [Last(token)];
      assert Doubled(token) == Doubled(Init(token)) + more by { DoubledStep(token); }
      BadSingle(Last(token));
    }
  }

  lemma DoubledStep(token: Text)
    requires token != []
    ensures Doubled(token) == Doubled(Init(token)) + if Last(token) == QUOTE then [QUOTE, QUOTE] else [Last(token)]
  {}

  lemma BadSingle(c: Unit)
    ensures HasUnescapable(if c == QUOTE then [QUOTE, QUOTE] else [c]) <==> HasUnescapable([c])
    ensures !HasUnescapable([QUOTE]) && !HasUnescapable([SPACE])
  {
    assert [c][0] == c;
  }

  lemma BadConcat(a: Text, b: Text)
    ensures HasUnescapable(a + b) <==> HasUnescapable(a) || HasUnescapable(b)
  {
    hide Unescapable;
    if i :| 0 <= i < |a| && Unescapable(a[i]) { assert (a + b)[i] == a[i]; }
    if i :| 0 <= i < |b| && Unescapable(b[i]) { assert (a + b)[|a| + i] == b[i]; }
  }

  lemma QuoteKeepsBad(token: Text)
    ensures HasUnescapable(QuoteToken(token)) <==> HasUnescapable(token)
  {
    hide HasUnescapable, Doubled, NeedsQuoting;
    DoubledKeepsBad(token);
    BadConcat([QUOTE], Doubled(token));
    BadConcat([QUOTE] + Doubled(token), [QUOTE]);
    BadSingle(QUOTE);
  }

  lemma {:induction false} CommandBad(tokens: seq<Text>)
    ensures HasUnescapable(Command(tokens)) <==> exists i :: 0 <= i < |tokens| && HasUnescapable(tokens[i])
    decreases |tokens|
  {
    hide HasUnescapable, QuoteToken;
    if |tokens| == 1 {
      QuoteKeepsBad(tokens[0]);
    } else if tokens != [] {
      CommandBad(Init(tokens));
      QuoteKeepsBad(Last(tokens));
      BadConcat(Command(Init(tokens)), [SPACE]);
      BadConcat(Command(Init(tokens)) + [SPACE], QuoteToken(Last(tokens)));
      BadSingle(SPACE);
      if i :| 0 <= i < |tokens| && HasUnescapable(tokens[i]) {
        assert i < |Init(tokens)| ==> Init(tokens)[i] == tokens[i];
      }
      if i :| 0 <= i < |Init(tokens)| && HasUnescapable(Init(tokens)[i]) {
        assert tokens[i] == Init(tokens)[i];
      }
    } else {
      NothingBad();
    }
  }

  lemma NothingBad()
    ensures !HasUnescapable([])
  {}

  // ---- The decision --------------------------------------------------------

  /** The first argument that has such a character. */
  predicate FirstBad(args: seq<Text>, arg: Text) {
    exists i :: 0 <= i < |args| && arg == args[i] && HasUnescapable(args[i]) &&
                forall j :: 0 <= j < i ==> !HasUnescapable(args[j])
  }

  /** Outside Windows batch files nothing is touched. A batch call is refused exactly
      when some argument has a character quotes cannot hold, naming the first such
      argument; otherwise the line, outer quotes stripped, reads back as the executable
      and the arguments, with every metacharacter inside quotes. */
  method ResolveSpawnInvocation(executable: Text, args: seq<Text>, win32: bool) returns (r: Invocation)
    ensures !(win32 && IsBatch(executable)) ==> r == Direct(executable, args)
    ensures win32 && IsBatch(executable) ==>
      !r.Direct? && (r.Refused? <==> exists i :: 0 <= i < |args| && HasUnescapable(args[i]))
    ensures r.Refused? ==> FirstBad(args, r.arg)
    ensures r.Wrapped? ==> (
      var command := Command([executable] + args);
      r.line == [QUOTE] + command + [QUOTE] && ReadCommand(command) == [executable] + args && Guarded(command, 0))
  {
    hide HasUnescapable, Command, Guarded, ReadCommand;
    if win32 && IsBatch(executable) {
      var i := 0;
      while i < |args|
        invariant 0 <= i <= |args|
        invariant forall j :: 0 <= j < i ==> !HasUnescapable(args[j])
      {
        if HasUnescapable(args[i]) {
          return Refused(args[i]);
        }
        i := i + 1;
      }
      var tokens := [executable] + args;
      ReadUndoesQuote(tokens);
      CommandIsGuarded(tokens);
      return Wrapped([QUOTE] + Command(tokens) + [QUOTE]);
    }
    return Direct(executable, args);
  }

  /** The executable itself is not looked at: a line that was built has a character
      quotes cannot hold exactly when the executable's name has one. */
  lemma BuiltLineIsBadIff(executable: Text, args: seq<Text>)
    requires forall i :: 0 <= i < |args| ==> !HasUnescapable(args[i])
    ensures HasUnescapable(Command([executable] + args)) <==> HasUnescapable(executable)
  {
    hide HasUnescapable, Command;
    CommandBad([executable] + args);
    assert ([executable] + args)[0] == executable;
    assert forall i :: 0 <= i < |args| ==> ([executable] + args)[i + 1] == args[i];
  }

  /** `%.cmd` is such a name: no argument is refused, and its line has a `%` in it. */
  lemma BatchNameSlipsThrough(args: seq<Text>)
    requires forall i :: 0 <= i < |args| ==> !HasUnescapable(args[i])
    ensures IsBatch([37, 46, 99, 109, 100]) && HasUnescapable(Command([[37, 46, 99, 109, 100]] + args))
  {
    hide IsBatch, HasUnescapable, Command;
    PercentIsBatch();
    BuiltLineIsBadIff([37, 46, 99, 109, 100], args);
  }

  lemma PercentIsBatch()
    ensures var name: Text := [37, 46, 99, 109, 100]; IsBatch(name) && HasUnescapable(name)
  {
    var name: Text := [37, 46, 99, 109, 100];
    assert Unescapable(name[0]);
  }

  // ---- The three classes of text, spelled out ------------------------------

  function Lower(c: Unit): Unit { if 65 <= c <= 90 then c + 32 else c }

  function Lowered(text: Text): Text { seq(|text|, i requires 0 <= i < |text| => Lower(text[i])) }

  /** Batch files are those whose name ends in `.cmd` or `.bat`, in any case. */
  lemma BatchIff(executable: Text)
    ensures IsBatch(executable) <==>
      |executable| >= 4 && Lowered(executable[|executable| - 4..]) in {[46, 99, 109, 100], [46, 98, 97, 116]}
  {
    if |executable| >= 4 {
      var e := executable[|executable| - 4..];
      assert Lowered(e) == [Lower(e[0]), Lower(e[1]), Lower(e[2]), Lower(e[3])];
    }
  }

  /** A token is left bare exactly if it is not empty and has no white space, quote, or
      separator or redirection of cmd.exe: `" & ( ) < > ^ |`. */
  lemma BareIff(token: Text)
    ensures QuoteToken(token) == token <==>
      token != [] && forall i :: 0 <= i < |token| ==> !WhiteSpace(token[i]) && token[i] !in [34, 38, 40, 41, 60, 62, 94, 124]
  {
    DoubledGrows(token);
  }

  lemma {:induction false} DoubledGrows(token: Text)
    ensures |Doubled(token)| >= |token|
  {
    if token != [] { DoubledGrows(Init(token)); }
  }

  /** Nothing can be passed that has a `%`, a `!` or the end of a line in it. */
  lemma UnescapableIff(text: Text)
    ensures HasUnescapable(text) <==> 37 in text || 33 in text || 13 in text || 10 in text
  {
    if 37 in text || 33 in text || 13 in text || 10 in text {
      var i :| 0 <= i < |text| && text[i] in [37, 33, 13, 10];
      assert Unescapable(text[i]);
    }
  }
}
