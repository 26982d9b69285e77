/** The budgeted conversation with a model: it asks for tools, they are run and answered,
    until it says something, hands in a result, or a budget runs out. */
module ToolLoops {
  import opened Basics

  datatype Call = Call(id: string, name: string, arguments: string)

  /** How a call was answered. Only `Returned` is the tool's own doing. */
  datatype Answer = UnknownTool | BadArguments | Returned(content: string, isError: bool)

  datatype Message =
    | System(content: string)
    | User(content: string)
    | Assistant(text: Option<string>, calls: seq<Call>)
    | Tool(callId: string, answer: Answer)

  datatype Reply = Reply(text: Option<string>, calls: seq<Call>, usage: Option<nat>)

  datatype Event = ToolCalled(name: string) | ToolReturned(name: string, answer: Answer)

  datatype Outcome =
    | Content(text: string)
    | TerminalCall(name: string, arguments: string)
    | WallExhausted
    | CallsExhausted
    | EndpointFailure
    | Aborted

  /** `parses` is whether `JSON.parse` accepts a text. */
  datatype Options = Options(
    system: string,
    user: string,
    tools: set<string>,
    terminal: set<string>,
    maxToolCalls: int,
    maxWallMs: int,
    parses: string -> bool)

  /** One assistant turn and the answers given to its calls so far. */
  datatype Turn = Turn(text: Option<string>, calls: seq<Call>, answers: seq<Answer>)

  /** What a run has done: the conversations sent to the model, its turns, the events. */
  datatype Trace = Trace(
    requests: seq<seq<Message>>,
    replies: seq<Reply>,
    turns: seq<Turn>,
    events: seq<Event>,
    used: nat,
    promptTokens: Option<nat>)

  /** Readings of the clock, in milliseconds since the start: before each model call, and
      the last one that decided anything. It may be set back and forth. */
  datatype Wall = Wall(askedAt: seq<int>, last: int)

  /** What the world will say: the signal and the clock each time they are read, the model
      at each call (None for a call that fails), and the tool at each counted call. */
  datatype World = World(signal: nat -> bool, clock: nat -> int, model: nat -> Option<Reply>, tool: nat -> (string, bool))

  // ---- Reference -----------------------------------------------------------

  function Answers(turn: Turn, n: nat): seq<Message>
    requires n <= |turn.answers| <= |turn.calls|
  {
    if n == 0 then [] else Answers(turn, n - 1) + [Tool(turn.calls[n - 1].id, turn.answers[n - 1])]
  }

  function Emitted(turn: Turn, n: nat): seq<Event>
    requires n <= |turn.answers| <= |turn.calls|
  {
    if n == 0 then []
    else Emitted(turn, n - 1) + [ToolCalled(turn.calls[n - 1].name), ToolReturned(turn.calls[n - 1].name, turn.answers[n - 1])]
  }

  predicate Sized(turns: seq<Turn>) {
    forall i :: 0 <= i < |turns| ==> |turns[i].answers| <= |turns[i].calls|
  }

  /** The messages after some turns. */
  function Conversation(o: Options, turns: seq<Turn>): seq<Message>
    requires Sized(turns)
  {
    if turns == [] then [System(o.system), User(o.user)]
    else Conversation(o, Init(turns)) + [Assistant(Last(turns).text, Last(turns).calls)] + Answers(Last(turns), |Last(turns).answers|)
  }

  function AllEmitted(turns: seq<Turn>): seq<Event>
    requires Sized(turns)
  {
    if turns == [] then [] else AllEmitted(Init(turns)) + Emitted(Last(turns), |Last(turns).answers|)
  }

  function TotalAnswers(turns: seq<Turn>): nat {
    if turns == [] then 0 else TotalAnswers(Init(turns)) + |Last(turns).answers|
  }

  /** Usage is summed over the replies that report one. */
  function TotalUsage(replies: seq<Reply>): Option<nat> {
    if replies == [] then None
    else
      var before := TotalUsage(Init(replies));
      if Last(replies).usage.None? then before
      else Some((if before.Some? then before.value else 0) + Last(replies).usage.value)
  }

  /** Every assistant turn is followed at once by one answer to each of its calls, in
      their order, and no answer stands anywhere else. */
  ghost predicate WellAnswered(messages: seq<Message>) {
    (forall i :: 0 <= i < |messages| && messages[i].Assistant? ==> AnsweredAt(messages, i)) &&
    (forall p :: 0 <= p < |messages| && messages[p].Tool? ==> exists i :: 0 <= i < p && BelongsTo(messages, i, p))
  }

  predicate Answering(message: Message, call: Call) { message.Tool? && message.callId == call.id }

  predicate AnsweredAt(messages: seq<Message>, i: nat)
    requires i < |messages| && messages[i].Assistant?
  {
    var calls, after := messages[i].calls, messages[i + 1..];
    |calls| <= |after| && forall j :: 0 <= j < |calls| ==> Answering(after[j], calls[j])
  }

  predicate BelongsTo(messages: seq<Message>, i: nat, p: nat) {
    i < p < |messages| && messages[i].Assistant? && p <= i + |messages[i].calls|
  }

  predicate Complete(turn: Turn) { turn.calls != [] && |turn.answers| == |turn.calls| }

  lemma {:induction false} AnswersAt(turn: Turn, n: nat)
    requires n <= |turn.answers| <= |turn.calls|
    ensures |Answers(turn, n)| == n
    ensures forall j :: 0 <= j < n ==> Answers(turn, n)[j] == Tool(turn.calls[j].id, turn.answers[j])
  {
    if n > 0 { AnswersAt(turn, n - 1); }
  }

  /** Complete turns make a conversation in which every call is answered in order. */
  lemma {:induction false} CompleteIsWellAnswered(o: Options, turns: seq<Turn>)
    requires Sized(turns) && forall i :: 0 <= i < |turns| ==> Complete(turns[i])
    ensures WellAnswered(Conversation(o, turns))
  {
    if turns != [] {
      CompleteIsWellAnswered(o, Init(turns));
      AnswersAt(Last(turns), |Last(turns).answers|);
      hide Conversation;
      var turn := Last(turns);
      TurnKeeps(Conversation(o, Init(turns)), turn, Answers(turn, |turn.answers|));
      assert Conversation(o, turns) == Conversation(o, Init(turns)) + [Assistant(turn.text, turn.calls)] + Answers(turn, |turn.answers|) by {
        ConversationStep(o, turns);
      }
    }
  }

  lemma ConversationStep(o: Options, turns: seq<Turn>)
    requires Sized(turns) && turns != []
    ensures var turn := Last(turns);
      Conversation(o, turns) == Conversation(o, Init(turns)) + [Assistant(turn.text, turn.calls)] + Answers(turn, |turn.answers|)
  {}

  lemma StaysAnswered(before: seq<Message>, more: seq<Message>, i: nat)
    requires i < |before| && before[i].Assistant? && AnsweredAt(before, i)
    ensures (before + more)[i] == before[i] && AnsweredAt(before + more, i)
  {
    hide Answering;
    assert (before + more)[i + 1..] == before[i + 1..] + more;
  }

  lemma TurnKeeps(before: seq<Message>, turn: Turn, answers: seq<Message>)
    requires WellAnswered(before) && |answers| == |turn.calls|
    requires forall j :: 0 <= j < |answers| ==> answers[j].Tool? && answers[j].callId == turn.calls[j].id
    ensures WellAnswered(before + [Assistant(turn.text, turn.calls)] + answers)
  {
    var all := before + [Assistant(turn.text, turn.calls)] + answers;
    var n := |before|;
    forall i | 0 <= i < |all| && all[i].Assistant?
      ensures AnsweredAt(all, i)
    {
      if i < n {
        StaysAnswered(before, [Assistant(turn.text, turn.calls)] + answers, i);
        assert all == before + ([Assistant(turn.text, turn.calls)] + answers);
      } else {
        assert all[n + 1..] == answers;
      }
    }
    forall p | 0 <= p < |all| && all[p].Tool?
      ensures exists i :: 0 <= i < p && BelongsTo(all, i, p)
    {
      if p < n {
        var i :| 0 <= i < p && BelongsTo(before, i, p);
        assert BelongsTo(all, i, p);
      } else {
        assert BelongsTo(all, n, p);
      }
    }
  }

  // ---- The loop ------------------------------------------------------------

  /** `invokeTool`: the tool runs only if it is known and its arguments parse. */
  method InvokeTool(o: Options, call: Call, says: (string, bool)) returns (answer: Answer)
    ensures AnswerFits(o, call, answer)
    ensures answer.Returned? ==> answer == Returned(says.0, says.1)
  {
    if call.name !in o.tools {
      return UnknownTool;
    }
    if !o.parses(call.arguments) {
      return BadArguments;
    }
    return Returned(says.0, says.1);
  }

  predicate AnswerFits(o: Options, call: Call, answer: Answer) {
    (answer.UnknownTool? <==> call.name !in o.tools) &&
    (answer.Returned? <==> call.name in o.tools && o.parses(call.arguments))
  }

  /** A terminal call: the tool ends the loop and its arguments parse. */
  predicate Terminal(o: Options, call: Call) { call.name in o.terminal && o.parses(call.arguments) }

  /** No answered call was a terminal one, and each was answered for what it was. */
  predicate TurnFits(o: Options, turn: Turn) {
    |turn.answers| <= |turn.calls| &&
    forall j :: 0 <= j < |turn.answers| ==> AnswerFits(o, turn.calls[j], turn.answers[j]) && !Terminal(o, turn.calls[j])
  }

  /** Each turn is what the model replied. */
  predicate Echoes(t: Trace) {
    |t.turns| <= |t.replies| <= |t.requests| &&
    forall i :: 0 <= i < |t.turns| ==> t.turns[i].text == t.replies[i].text && t.turns[i].calls == t.replies[i].calls
  }

  /** What holds of every trace: each request is the conversation of the turns before it,
      all complete; events and count follow the answers; the budget is kept. */
  ghost predicate Legal(o: Options, t: Trace) {
    (forall i :: 0 <= i < |t.turns| ==> TurnFits(o, t.turns[i])) &&
    (forall i :: 0 <= i < |t.turns| - 1 ==> Complete(t.turns[i])) &&
    |t.turns| <= |t.requests| <= |t.turns| + 1 && (|t.requests| > |t.turns| && t.turns != [] ==> Complete(Last(t.turns))) &&
    (forall k :: 0 <= k < |t.requests| ==> t.requests[k] == Conversation(o, t.turns[..k])) &&
    t.events == AllEmitted(t.turns) && t.used == TotalAnswers(t.turns) && t.used <= Max(0, o.maxToolCalls) &&
    t.promptTokens == TotalUsage(t.replies) && Echoes(t)
  }

  /** The messages so far, while the loop is at its head. */
  ghost predicate AtHead(o: Options, t: Trace, messages: seq<Message>) {
    Legal(o, t) && |t.requests| == |t.turns| == |t.replies| && (forall i :: 0 <= i < |t.turns| ==> Complete(t.turns[i])) &&
    messages == Conversation(o, t.turns)
  }

  /** Inside a turn, with `n` of its calls answered. */
  ghost predicate InTurn(o: Options, t: Trace, messages: seq<Message>, reply: Reply, n: nat) {
    Legal(o, t) && |t.requests| == |t.turns| == |t.replies| && t.turns != [] && messages == Conversation(o, t.turns) &&
    (forall i :: 0 <= i < |t.turns| - 1 ==> Complete(t.turns[i])) && reply.calls != [] &&
    Last(t.turns).calls == reply.calls && n == |Last(t.turns).answers| <= |reply.calls|
  }

  function Asked(t: Trace, messages: seq<Message>): Trace { t.(requests := t.requests + [messages]) }

  function Heard(t: Trace, reply: Reply): Trace {
    t.(replies := t.replies + [reply],
       promptTokens := if reply.usage.None? then t.promptTokens
                       else Some((if t.promptTokens.Some? then t.promptTokens.value else 0) + reply.usage.value))
  }

  function Echoed(t: Trace, reply: Reply): Trace { t.(turns := t.turns + [Turn(reply.text, reply.calls, [])]) }

  function Replied(t: Trace, call: Call, answer: Answer): Trace
    requires t.turns != []
  {
    var turn := Last(t.turns);
    t.(turns := Init(t.turns) + [turn.(answers := turn.answers + [answer])], used := t.used + 1,
       events := t.events + [ToolCalled(call.name), ToolReturned(call.name, answer)])
  }

  lemma AskedLegal(o: Options, t: Trace, messages: seq<Message>)
    requires AtHead(o, t, messages)
    ensures Legal(o, Asked(t, messages))
  {
    assert t.turns[..|t.turns|] == t.turns;
  }

  lemma HeardLegal(o: Options, t: Trace, reply: Reply)
    requires Legal(o, t) && |t.replies| < |t.requests|
    ensures Legal(o, Heard(t, reply))
  {
    hide AllEmitted, TotalAnswers, Conversation;
    assert Init(t.replies + [reply]) == t.replies;
  }

  /** Changing or adding the last turn leaves the conversations before it alone. */
  lemma SameRequests(o: Options, t: Trace, turns: seq<Turn>)
    requires Legal(o, t) && |t.requests| <= |turns| && |t.requests| <= |t.turns| + 1
    requires forall i :: 0 <= i < |t.requests| - 1 ==> turns[i] == t.turns[i]
    requires Sized(turns)
    ensures forall k :: 0 <= k < |t.requests| ==> t.requests[k] == Conversation(o, turns[..k])
  {
    hide Conversation, AllEmitted, TotalAnswers, TotalUsage, TurnFits, Complete, Echoes;
    forall k | 0 <= k < |t.requests|
      ensures t.requests[k] == Conversation(o, turns[..k])
    {
      assert forall i :: 0 <= i < k ==> t.turns[i] == turns[i];
      assert t.turns[..k] == turns[..k];
    }
  }

  lemma FitsAreSized(o: Options, turns: seq<Turn>)
    requires forall i :: 0 <= i < |turns| ==> TurnFits(o, turns[i])
    ensures Sized(turns)
  {}

  lemma EchoedConversation(o: Options, turns: seq<Turn>, turn: Turn)
    requires Sized(turns) && turn.answers == []
    ensures Sized(turns + [turn]) && Conversation(o, turns + [turn]) == Conversation(o, turns) + [Assistant(turn.text, turn.calls)]
    ensures AllEmitted(turns + [turn]) == AllEmitted(turns) && TotalAnswers(turns + [turn]) == TotalAnswers(turns)
  {
    assert Init(turns + [turn]) == turns;
    var messages := Conversation(o, turns) + [Assistant(turn.text, turn.calls)];
    assert messages + [] == messages && AllEmitted(turns) + [] == AllEmitted(turns);
  }

  lemma EchoedInTurn(o: Options, t: Trace, messages: seq<Message>, reply: Reply)
    requires Legal(o, t) && |t.requests| == |t.replies| == |t.turns| + 1 && Last(t.replies) == reply && messages == Conversation(o, t.turns)
    requires (forall i :: 0 <= i < |t.turns| ==> Complete(t.turns[i])) && reply.calls != []
    ensures InTurn(o, Echoed(t, reply), messages + [Assistant(reply.text, reply.calls)], reply, 0)
  {
    hide TotalUsage, Complete, AnswerFits, Terminal, Conversation, AllEmitted, TotalAnswers, Sized;
    var turn := Turn(reply.text, reply.calls, []);
    var turns := t.turns + [turn];
    FitsAreSized(o, t.turns);
    EchoedConversation(o, t.turns, turn);
    SameRequests(o, t, turns);
  }

  lemma {:induction false} MoreAnswers(turn: Turn, answer: Answer, n: nat)
    requires n <= |turn.answers| < |turn.calls|
    ensures var more := turn.(answers := turn.answers + [answer]);
      Answers(more, n) == Answers(turn, n) && Emitted(more, n) == Emitted(turn, n)
  {
    if n > 0 { MoreAnswers(turn, answer, n - 1); }
  }

  lemma MoreFits(o: Options, turn: Turn, answer: Answer)
    requires TurnFits(o, turn) && |turn.answers| < |turn.calls|
    requires var call := turn.calls[|turn.answers|]; AnswerFits(o, call, answer) && !Terminal(o, call)
    ensures TurnFits(o, turn.(answers := turn.answers + [answer]))
  {
    hide AnswerFits, Terminal;
  }

  lemma AnswersNext(turn: Turn, answer: Answer)
    requires |turn.answers| < |turn.calls|
    ensures var n, more := |turn.answers|, turn.(answers := turn.answers + [answer]);
      Answers(more, n + 1) == Answers(turn, n) + [Tool(turn.calls[n].id, answer)] && Emitted(more, n) == Emitted(turn, n)
  {
    MoreAnswers(turn, answer, |turn.answers|);
  }

  lemma RepliedInTurn(o: Options, t: Trace, messages: seq<Message>, reply: Reply, n: nat, answer: Answer)
    requires InTurn(o, t, messages, reply, n) && n < |reply.calls| && t.used < o.maxToolCalls
    requires AnswerFits(o, reply.calls[n], answer) && !Terminal(o, reply.calls[n])
    ensures InTurn(o, Replied(t, reply.calls[n], answer), messages + [Tool(reply.calls[n].id, answer)], reply, n + 1)
  {
    hide AnswerFits, Terminal, TotalUsage, Conversation, AllEmitted, TotalAnswers, Answers, Emitted, Sized;
    FitsAreSized(o, t.turns);
    var turn := Last(t.turns);
    var more := turn.(answers := turn.answers + [answer]);
    var turns := Init(t.turns) + [more];
    assert Init(turns) == Init(t.turns) && Last(turns) == more;
    MoreFits(o, turn, answer);
    assert forall i :: 0 <= i < |turns| ==> TurnFits(o, turns[i]);
    FitsAreSized(o, turns);
    AnswersNext(turn, answer);
    SameRequests(o, t, turns);
    RepliedConversation(o, t.turns, turns, messages, Tool(reply.calls[n].id, answer));
    RepliedEvents(t.turns, turns, n);
  }

  lemma RepliedConversation(o: Options, was: seq<Turn>, now: seq<Turn>, messages: seq<Message>, message: Message)
    requires Sized(was) && Sized(now) && was != [] && now != [] && Init(was) == Init(now) && messages == Conversation(o, was)
    requires var a, b := Last(was), Last(now);
      a.text == b.text && a.calls == b.calls && Answers(b, |b.answers|) == Answers(a, |a.answers|) + [message]
    ensures Conversation(o, now) == messages + [message]
  {}

  lemma RepliedEvents(was: seq<Turn>, now: seq<Turn>, n: nat)
    requires Sized(was) && Sized(now) && was != [] && now != [] && Init(was) == Init(now)
    requires var a, b := Last(was), Last(now);
      a.calls == b.calls && |a.answers| == n < |b.answers| == n + 1 && Emitted(b, n) == Emitted(a, n)
    ensures var b := Last(now);
      AllEmitted(now) == AllEmitted(was) + [ToolCalled(b.calls[n].name), ToolReturned(b.calls[n].name, b.answers[n])]
    ensures TotalAnswers(now) == TotalAnswers(was) + 1
  {
    var a, b := Last(was), Last(now);
    var two := [ToolCalled(b.calls[n].name), ToolReturned(b.calls[n].name, b.answers[n])];
    assert Emitted(b, n + 1) == Emitted(a, n) + two;
    hide Emitted;
    assert AllEmitted(Init(was)) + (Emitted(a, n) + two) == (AllEmitted(Init(was)) + Emitted(a, n)) + two;
  }

  /** The measure of the loop: every complete turn has used up some of the budget. */
  lemma {:induction false} TurnsAreUsed(turns: seq<Turn>)
    requires forall i :: 0 <= i < |turns| ==> Complete(turns[i])
    ensures TotalAnswers(turns) >= |turns|
  {
    if turns != [] { TurnsAreUsed(Init(turns)); }
  }

  lemma {:induction false} MostTurnsAreUsed(turns: seq<Turn>)
    requires turns != [] && forall i :: 0 <= i < |turns| - 1 ==> Complete(turns[i])
    ensures TotalAnswers(turns) >= |turns| - 1
  {
    TurnsAreUsed(Init(turns));
  }

  /** The trace, the readings of the clock and those of the signal are of this world. */
  ghost predicate OfWorld(w: World, t: Trace, wall: Wall, heard: seq<bool>) {
    |wall.askedAt| == |t.requests| && |t.replies| <= |t.requests| && |t.events| == 2 * t.used &&
    (forall k :: 0 <= k < |wall.askedAt| ==> wall.askedAt[k] == w.clock(k)) &&
    (forall k :: 0 <= k < |heard| ==> heard[k] == w.signal(k)) &&
    (forall k :: 0 <= k < |t.replies| ==> w.model(k) == Some(t.replies[k])) &&
    (forall j :: 0 <= j < t.used && Ran(t.events, j) ==> t.events[2 * j + 1].answer == Returned(w.tool(j).0, w.tool(j).1))
  }

  predicate Ran(events: seq<Event>, j: nat) {
    2 * j + 1 < |events| && events[2 * j + 1].ToolReturned? && events[2 * j + 1].answer.Returned?
  }

  /** What a run that was not aborted comes to: a call that failed is blamed on the wall
      once that is reached; a turn that was answered in full can only be followed by the
      wall; otherwise the last reply decides, and the budget. */
  function Verdict(o: Options, t: Trace, wall: Wall): Outcome {
    if |t.replies| < |t.requests| then (if wall.last >= o.maxWallMs then WallExhausted else EndpointFailure)
    else if t.replies == [] then WallExhausted
    else
      var said := Last(t.replies);
      if said.calls == [] then (if said.text.None? then EndpointFailure else Content(said.text.value))
      else if t.turns == [] || |Last(t.turns).answers| >= |said.calls| then WallExhausted
      else
        var call := said.calls[|Last(t.turns).answers|];
        if call.name in o.terminal && o.parses(call.arguments) then TerminalCall(call.name, call.arguments) else CallsExhausted
  }

  /** The signal is read before each model call, after a failed one, and after each answer. */
  function SignalReads(t: Trace, outcome: Outcome): nat {
    |t.requests| + t.used + if outcome.WallExhausted? || |t.replies| < |t.requests| then 1 else 0
  }

  /** The signal has been read in time, and has not called the loop off. */
  ghost predicate Going(o: Options, w: World, t: Trace, wall: Wall, heard: seq<bool>) {
    Legal(o, t) && OfWorld(w, t, wall, heard) && |t.requests| == |t.replies| == |t.turns| &&
    (forall k :: 0 <= k < |wall.askedAt| ==> wall.askedAt[k] < o.maxWallMs) &&
    |heard| == |t.requests| + t.used && forall k :: 0 <= k < |heard| ==> !heard[k]
  }

  /** How a run has ended. It is aborted exactly if the signal says so the last time it is
      read, and it is read in time; otherwise the outcome is what the trace comes to, and
      the two budgets are blamed only when they are spent. */
  ghost predicate Ends(o: Options, w: World, outcome: Outcome, t: Trace, wall: Wall, heard: seq<bool>) {
    Legal(o, t) && OfWorld(w, t, wall, heard) && (forall k :: 0 <= k < |wall.askedAt| ==> wall.askedAt[k] < o.maxWallMs) &&
    heard != [] && (outcome.Aborted? <==> Last(heard)) && (forall k :: 0 <= k < |heard| - 1 ==> !heard[k]) &&
    |heard| >= |t.requests| + t.used && (!outcome.Aborted? ==> |heard| == SignalReads(t, outcome) && outcome == Verdict(o, t, wall)) &&
    (outcome.WallExhausted? ==> wall.last == w.clock(|t.requests|) >= o.maxWallMs) &&
    (|t.replies| < |t.requests| ==> w.model(|t.replies|).None? && |t.requests| == |t.replies| + 1) &&
    (|t.replies| < |t.requests| && !outcome.Aborted? ==> wall.last == w.clock(|t.requests|)) &&
    (outcome.TerminalCall? ==> t.replies != [] && EndsTerminal(o, t, Last(t.replies), outcome)) &&
    (outcome.CallsExhausted? ==> t.used == Max(0, o.maxToolCalls))
  }

  method RunToolLoop(o: Options, w: World) returns (outcome: Outcome, t: Trace, wall: Wall, heard: seq<bool>)
    ensures Ends(o, w, outcome, t, wall, heard)
  {
    hide Legal, AtHead, InTurn, Conversation, Replied, Echoed, Asked, Heard, Going, Ends, OfWorld;
    t, wall, heard := Trace([], [], [], [], 0, None), Wall([], 0), [];
    var messages := [System(o.system), User(o.user)];
    StartLegal(o);
    StartGoing(o, w);
    while true
      invariant AtHead(o, t, messages) && Going(o, w, t, wall, heard)
      decreases o.maxToolCalls - t.used
    {
      var aborted := w.signal(|heard|);
      if aborted {
        AbortedEnds(o, w, t, wall, heard);
        return Aborted, t, wall, heard + [aborted];
      }
      var elapsed := w.clock(|t.requests|);
      var remainingMs := o.maxWallMs - elapsed;
      if remainingMs <= 0 {
        WallEnds(o, w, t, messages, wall, heard, elapsed);
        return WallExhausted, t, wall.(last := elapsed), heard + [aborted];
      }
      var answered := w.model(|t.requests|);
      var asked := Wall(wall.askedAt + [elapsed], elapsed);
      heard := heard + [aborted];
      if answered.None? {
        aborted := w.signal(|heard|);
        elapsed := w.clock(|t.requests| + 1);
        FailedEnds(o, w, t, messages, wall, Init(heard));
        if aborted {
          return Aborted, Asked(t, messages), asked, heard + [aborted];
        }
        return (if elapsed >= o.maxWallMs then WallExhausted else EndpointFailure), Asked(t, messages), asked.(last := elapsed), heard + [aborted];
      }
      var said := answered.value;
      AnsweredTurn(o, w, t, messages, wall, Init(heard), said);
      ghost var before := t.used;
      t, wall := Heard(Asked(t, messages), said), asked;
      if said.calls == [] {
        return (if said.text.None? then EndpointFailure else Content(said.text.value)), t, wall, heard;
      }
      t := Echoed(t, said);
      messages := messages + [Assistant(said.text, said.calls)];
      var n := 0;
      while n < |said.calls|
        invariant 0 <= n <= |said.calls| && InTurn(o, t, messages, said, n) && Going(o, w, t, wall, heard)
        invariant t.replies != [] && Last(t.replies) == said && t.used == before + n && (n > 0 ==> t.used <= o.maxToolCalls)
      {
        var call := said.calls[n];
        StandsAt(o, w, t, messages, wall, heard, said, n);
        if Terminal(o, call) {
          return TerminalCall(call.name, call.arguments), t, wall, heard;
        }
        if t.used >= o.maxToolCalls {
          return CallsExhausted, t, wall, heard;
        }
        var answer := InvokeTool(o, call, w.tool(t.used));
        RepliedInTurn(o, t, messages, said, n, answer);
        aborted := w.signal(|heard|);
        AnsweredCall(o, w, t, messages, wall, heard, said, n, answer);
        t := Replied(t, call, answer);
        messages := messages + [Tool(call.id, answer)];
        heard := heard + [aborted];
        n := n + 1;
        if aborted {
          return Aborted, t, wall, heard;
        }
      }
      TurnEnds(o, t, messages, said);
    }
  }

  lemma StartGoing(o: Options, w: World)
    ensures Going(o, w, Trace([], [], [], [], 0, None), Wall([], 0), [])
  {
    StartLegal(o);
  }

  lemma AbortedEnds(o: Options, w: World, t: Trace, wall: Wall, heard: seq<bool>)
    requires Going(o, w, t, wall, heard) && w.signal(|heard|)
    ensures Ends(o, w, Aborted, t, wall, heard + [true])
  {
    hide Legal, EndsTerminal, Ran;
  }

  /** At the head every turn has been answered in full. */
  lemma HeadIsFull(o: Options, t: Trace, messages: seq<Message>)
    requires AtHead(o, t, messages)
    ensures |t.turns| == |t.replies| && (t.turns != [] ==> |Last(t.turns).answers| == |Last(t.replies).calls| > 0)
  {}

  lemma WallEnds(o: Options, w: World, t: Trace, messages: seq<Message>, wall: Wall, heard: seq<bool>, elapsed: int)
    requires AtHead(o, t, messages) && Going(o, w, t, wall, heard) && !w.signal(|heard|)
    requires elapsed == w.clock(|t.requests|) >= o.maxWallMs
    ensures Ends(o, w, WallExhausted, t, wall.(last := elapsed), heard + [false])
  {
    HeadIsFull(o, t, messages);
    hide Legal, AtHead, EndsTerminal, Ran;
  }

  lemma FailedEnds(o: Options, w: World, t: Trace, messages: seq<Message>, wall: Wall, heard: seq<bool>)
    requires AtHead(o, t, messages) && Going(o, w, t, wall, heard) && !w.signal(|heard|)
    requires w.clock(|t.requests|) < o.maxWallMs && w.model(|t.requests|).None?
    ensures var n, elapsed := Asked(t, messages), w.clock(|t.requests| + 1);
      var asked := Wall(wall.askedAt + [w.clock(|t.requests|)], w.clock(|t.requests|));
      var read := w.signal(|heard| + 1);
      (read ==> Ends(o, w, Aborted, n, asked, heard + [false] + [true])) &&
      (!read ==>
        Ends(o, w, if elapsed >= o.maxWallMs then WallExhausted else EndpointFailure, n, asked.(last := elapsed), heard + [false] + [false]))
  {
    hide Legal, AtHead, Asked, EndsTerminal, OfWorld, Complete, Conversation;
    AskedLegal(o, t, messages);
    AskedShape(o, t, messages);
    AskedOfWorld(o, w, t, messages, wall, heard);
  }

  lemma AskedOfWorld(o: Options, w: World, t: Trace, messages: seq<Message>, wall: Wall, heard: seq<bool>)
    requires AtHead(o, t, messages) && Going(o, w, t, wall, heard)
    ensures var n, elapsed := Asked(t, messages), w.clock(|t.requests| + 1);
      var asked := Wall(wall.askedAt + [w.clock(|t.requests|)], w.clock(|t.requests|));
      var two := heard + [w.signal(|heard|)] + [w.signal(|heard| + 1)];
      OfWorld(w, n, asked, two) && OfWorld(w, n, asked.(last := elapsed), two)
  {
    hide Legal, AtHead, Asked, Ran, Complete, Conversation;
    AskedShape(o, t, messages);
  }

  lemma HeardOfWorld(o: Options, w: World, t: Trace, messages: seq<Message>, wall: Wall, heard: seq<bool>, said: Reply)
    requires AtHead(o, t, messages) && Going(o, w, t, wall, heard) && w.model(|t.requests|) == Some(said)
    ensures var n := Heard(Asked(t, messages), said);
      var asked := Wall(wall.askedAt + [w.clock(|t.requests|)], w.clock(|t.requests|));
      Legal(o, n) && OfWorld(w, n, asked, heard + [w.signal(|heard|)]) && n.turns == t.turns && n.used == t.used &&
      |n.requests| == |n.replies| == |n.turns| + 1 && Last(n.replies) == said && messages == Conversation(o, t.turns) &&
      forall i :: 0 <= i < |t.turns| ==> Complete(t.turns[i])
  {
    hide Legal, AtHead, Asked, Heard, Ran, Complete, Conversation;
    AskedLegal(o, t, messages);
    AskedShape(o, t, messages);
    HeardLegal(o, Asked(t, messages), said);
    HeardShape(Asked(t, messages), said);
  }

  /** A reply has come: with no calls it ends the run, otherwise a turn begins. */
  lemma AnsweredTurn(o: Options, w: World, t: Trace, messages: seq<Message>, wall: Wall, heard: seq<bool>, said: Reply)
    requires AtHead(o, t, messages) && Going(o, w, t, wall, heard) && !w.signal(|heard|)
    requires w.clock(|t.requests|) < o.maxWallMs && w.model(|t.requests|) == Some(said)
    ensures var n := Heard(Asked(t, messages), said);
      var asked := Wall(wall.askedAt + [w.clock(|t.requests|)], w.clock(|t.requests|));
      if said.calls == [] then
        Ends(o, w, if said.text.None? then EndpointFailure else Content(said.text.value), n, asked, heard + [false])
      else
        var m := Echoed(n, said);
        InTurn(o, m, messages + [Assistant(said.text, said.calls)], said, 0) && Going(o, w, m, asked, heard + [false]) &&
        m.replies != [] && Last(m.replies) == said && m.used == t.used
  {
    hide Legal, AtHead, Asked, Heard, Echoed, EndsTerminal, OfWorld, InTurn, Conversation, Complete;
    HeardOfWorld(o, w, t, messages, wall, heard, said);
    AskedShape(o, t, messages);
    HeardShape(Asked(t, messages), said);
    var n := Heard(Asked(t, messages), said);
    if said.calls != [] {
      EchoedInTurn(o, n, messages, said);
      EchoedShape(n, said);
      TurnIsLegal(o, Echoed(n, said), messages + [Assistant(said.text, said.calls)], said, 0);
      EchoedOfWorld(w, n, Wall(wall.askedAt + [w.clock(|t.requests|)], w.clock(|t.requests|)), heard + [false], said);
    }
  }

  lemma EchoedOfWorld(w: World, t: Trace, wall: Wall, heard: seq<bool>, reply: Reply)
    requires OfWorld(w, t, wall, heard)
    ensures OfWorld(w, Echoed(t, reply), wall, heard)
  {}

  /** In a turn, with a call still to answer. */
  lemma StandsAt(o: Options, w: World, t: Trace, messages: seq<Message>, wall: Wall, heard: seq<bool>, said: Reply, n: nat)
    requires InTurn(o, t, messages, said, n) && Going(o, w, t, wall, heard) && n < |said.calls|
    requires t.replies != [] && Last(t.replies) == said
    ensures t.turns != []
    ensures Terminal(o, said.calls[n]) ==>
      Ends(o, w, TerminalCall(said.calls[n].name, said.calls[n].arguments), t, wall, heard)
    ensures !Terminal(o, said.calls[n]) && t.used >= o.maxToolCalls ==> Ends(o, w, CallsExhausted, t, wall, heard)
  {
    TurnIsLegal(o, t, messages, said, n);
    hide Legal, InTurn, Ran;
  }

  lemma AnsweredCall(o: Options, w: World, t: Trace, messages: seq<Message>, wall: Wall, heard: seq<bool>, said: Reply, n: nat, answer: Answer)
    requires InTurn(o, t, messages, said, n) && Going(o, w, t, wall, heard) && n < |said.calls|
    requires t.used < o.maxToolCalls && t.replies != [] && Last(t.replies) == said
    requires InTurn(o, Replied(t, said.calls[n], answer), messages + [Tool(said.calls[n].id, answer)], said, n + 1)
    requires answer.Returned? ==> answer == Returned(w.tool(t.used).0, w.tool(t.used).1)
    ensures var m := Replied(t, said.calls[n], answer);
      m.used == t.used + 1 && m.replies == t.replies &&
      if w.signal(|heard|) then Ends(o, w, Aborted, m, wall, heard + [true]) else Going(o, w, m, wall, heard + [false])
  {
    TurnIsLegal(o, t, messages, said, n);
    RepliedShape(t, said.calls[n], answer);
    RepliedOfWorld(w, t, wall, heard, said.calls[n], answer);
    TurnIsLegal(o, Replied(t, said.calls[n], answer), messages + [Tool(said.calls[n].id, answer)], said, n + 1);
    hide Legal, InTurn, Replied, Ran, EndsTerminal;
  }

  /** Left alone, with time and a model that answers, the run is decided by the last reply
      and the budget of calls. */
  lemma UndisturbedIsDecided(o: Options, w: World, outcome: Outcome, t: Trace, wall: Wall, heard: seq<bool>)
    requires Ends(o, w, outcome, t, wall, heard)
    requires forall k :: !w.signal(k) && w.clock(k) < o.maxWallMs && w.model(k).Some?
    ensures t.replies != [] && Some(Last(t.replies)) == w.model(|t.replies| - 1)
    ensures var said := Last(t.replies);
      if said.calls == [] then outcome == if said.text.Some? then Content(said.text.value) else EndpointFailure
      else EndsTerminal(o, t, said, outcome) || (outcome.CallsExhausted? && t.used == Max(0, o.maxToolCalls))
  {
    hide Legal, EndsTerminal, Ran;
    assert !w.signal(|heard| - 1);
    assert w.clock(|t.requests|) < o.maxWallMs;
    assert w.model(|t.replies|).Some?;
  }

  lemma RepliedOfWorld(w: World, t: Trace, wall: Wall, heard: seq<bool>, call: Call, answer: Answer)
    requires OfWorld(w, t, wall, heard) && t.turns != []
    requires answer.Returned? ==> answer == Returned(w.tool(t.used).0, w.tool(t.used).1)
    ensures OfWorld(w, Replied(t, call, answer), wall, heard)
  {
    var n := Replied(t, call, answer);
    assert n.events[2 * t.used + 1] == ToolReturned(call.name, answer);
    assert forall i :: 0 <= i < |t.events| ==> n.events[i] == t.events[i];
    assert forall j :: 0 <= j < t.used && Ran(n.events, j) ==> Ran(t.events, j);
  }

  /** The last turn stands at the first terminal call of the last reply, which is what
      the outcome hands in. */
  predicate EndsTerminal(o: Options, t: Trace, reply: Reply, outcome: Outcome) {
    t.turns != [] && Last(t.turns).calls == reply.calls &&
    var k := |Last(t.turns).answers|;
    k < |reply.calls| && Terminal(o, reply.calls[k]) && outcome == TerminalCall(reply.calls[k].name, reply.calls[k].arguments)
  }

  lemma StartLegal(o: Options)
    ensures AtHead(o, Trace([], [], [], [], 0, None), [System(o.system), User(o.user)])
  {}

  lemma HeadIsLegal(o: Options, t: Trace, messages: seq<Message>)
    requires AtHead(o, t, messages)
    ensures Legal(o, t)
  {}

  lemma AskedShape(o: Options, t: Trace, messages: seq<Message>)
    requires AtHead(o, t, messages)
    ensures var n := Asked(t, messages);
      n.turns == t.turns && |n.requests| == |t.requests| + 1 == |t.turns| + 1 == |n.replies| + 1 && n.used == t.used &&
      n.replies == t.replies && n.events == t.events && messages == Conversation(o, t.turns) &&
      forall i :: 0 <= i < |t.turns| ==> Complete(t.turns[i])
  {}

  lemma HeardShape(t: Trace, reply: Reply)
    ensures var n := Heard(t, reply);
      n.turns == t.turns && n.requests == t.requests && n.used == t.used && n.events == t.events && n.replies == t.replies + [reply]
  {}

  lemma EchoedShape(t: Trace, reply: Reply)
    ensures var n := Echoed(t, reply);
      n.used == t.used && n.requests == t.requests && n.replies == t.replies && n.events == t.events && |n.turns| == |t.turns| + 1
  {}

  lemma RepliedShape(t: Trace, call: Call, answer: Answer)
    requires t.turns != []
    ensures var n := Replied(t, call, answer);
      n.used == t.used + 1 && n.requests == t.requests && n.replies == t.replies && |n.turns| == |t.turns|
  {}

  lemma TurnIsLegal(o: Options, t: Trace, messages: seq<Message>, reply: Reply, n: nat)
    requires InTurn(o, t, messages, reply, n)
    ensures Legal(o, t) && t.turns != [] && Last(t.turns).calls == reply.calls && |Last(t.turns).answers| == n
    ensures t.used <= Max(0, o.maxToolCalls)
  {}

  lemma TurnEnds(o: Options, t: Trace, messages: seq<Message>, reply: Reply)
    requires InTurn(o, t, messages, reply, |reply.calls|)
    ensures AtHead(o, t, messages)
  {}

  // ---- What a legal trace means --------------------------------------------

  /** The model is called at most once more than tools may be. */
  lemma ModelCallsAreBounded(o: Options, t: Trace)
    requires Legal(o, t)
    ensures |t.requests| <= Max(0, o.maxToolCalls) + 1
  {
    hide AllEmitted, Conversation, TotalUsage, TurnFits;
    if t.turns != [] {
      MostTurnsAreUsed(t.turns);
      if |t.requests| > |t.turns| {
        TurnsAreUsed(t.turns);
      }
    }
  }

  /** At every model call each earlier turn has been answered one for one, in order. */
  lemma EveryRequestIsAnswered(o: Options, t: Trace, k: nat)
    requires Legal(o, t) && k < |t.requests|
    ensures WellAnswered(t.requests[k])
  {
    var turns := t.turns[..k];
    forall i | 0 <= i < |turns|
      ensures Complete(turns[i]) && turns[i] == t.turns[i] && TurnFits(o, turns[i])
    {}
    CompleteIsWellAnswered(o, turns);
  }

  /** A terminal tool never runs: neither with arguments that parse nor with others. */
  lemma TerminalNeverRuns(o: Options, t: Trace, i: nat, j: nat)
    requires Legal(o, t) && i < |t.turns| && j < |t.turns[i].answers| && j < |t.turns[i].calls|
    ensures t.turns[i].answers[j].Returned? ==> t.turns[i].calls[j].name !in o.terminal && t.turns[i].calls[j].name in o.tools
  {
    hide AllEmitted, Conversation, TotalUsage, TotalAnswers;
    assert TurnFits(o, t.turns[i]);
  }

  lemma {:induction false} EmittedSize(turn: Turn, n: nat)
    requires n <= |turn.answers| <= |turn.calls|
    ensures |Emitted(turn, n)| == 2 * n
    ensures forall j :: 0 <= j < n ==> Paired(Emitted(turn, n), 2 * j)
  {
    if n > 0 {
      EmittedSize(turn, n - 1);
      var last := [ToolCalled(turn.calls[n - 1].name), ToolReturned(turn.calls[n - 1].name, turn.answers[n - 1])];
      assert Paired(last, 0);
      PairedConcat(Emitted(turn, n - 1), last, n - 1, 1);
    }
  }

  /** A tool_call at `k` and its tool_result right after. */
  predicate Paired(events: seq<Event>, k: int) {
    0 <= k < |events| - 1 && events[k].ToolCalled? && events[k + 1].ToolReturned? && events[k].name == events[k + 1].name
  }

  lemma PairedConcat(a: seq<Event>, b: seq<Event>, n: nat, m: nat)
    requires |a| == 2 * n && |b| == 2 * m
    requires forall j :: 0 <= j < n ==> Paired(a, 2 * j)
    requires forall j :: 0 <= j < m ==> Paired(b, 2 * j)
    ensures forall j :: 0 <= j < n + m ==> Paired(a + b, 2 * j)
  {
    forall j | 0 <= j < n + m
      ensures Paired(a + b, 2 * j)
    {
      if j < n { assert Paired(a, 2 * j); } else { assert Paired(b, 2 * (j - n)); }
    }
  }

  lemma {:induction false} AllEmittedPaired(turns: seq<Turn>)
    requires Sized(turns)
    ensures |AllEmitted(turns)| == 2 * TotalAnswers(turns)
    ensures forall j :: 0 <= j < TotalAnswers(turns) ==> Paired(AllEmitted(turns), 2 * j)
  {
    if turns != [] {
      AllEmittedPaired(Init(turns));
      var turn := Last(turns);
      EmittedSize(turn, |turn.answers|);
      PairedConcat(AllEmitted(Init(turns)), Emitted(turn, |turn.answers|), TotalAnswers(Init(turns)), |turn.answers|);
    }
  }

  /** Events come in pairs, as many as tool calls were counted, never over the budget. */
  lemma EventsMatchTheBudget(o: Options, t: Trace)
    requires Legal(o, t)
    ensures |t.events| == 2 * t.used && t.used <= Max(0, o.maxToolCalls)
    ensures forall j :: 0 <= j < t.used ==> Paired(t.events, 2 * j)
  {
    hide Conversation, TotalUsage;
    assert forall i :: 0 <= i < |t.turns| ==> TurnFits(o, t.turns[i]);
    AllEmittedPaired(t.turns);
  }
}
