/** What a persisted store owes its callers, whatever its writing policy. Memory goes
    through numbered versions; the file holds one of them; a call is answered with
    success only when the file holds that call's version or a later one. */
module DurableStore {
  import opened Basics

  type Caller = nat

  /** `history[v]` is the content at version `v`, `commits` the versions written to the
      file in order (the first is what was loaded), `failures` the newest version each
      failed write stood for. */
  datatype Trail<E> = Trail(
    history: seq<E>,
    commits: seq<nat>,
    failures: seq<nat>,
    calls: map<Caller, nat>,
    answers: map<Caller, bool>)
  {
    predicate Sound() {
      history != [] && commits != [] && Last(commits) < |history|
    }

    function File(): E
      requires Sound()
    {
      history[Last(commits)]
    }
  }

  datatype Move<E> =
    | Mutate(caller: Caller, content: E)
    | Commit(version: nat)
    | Fail(version: nat)
    | Succeed(caller: Caller)
    | Reject(caller: Caller)

  /** When the contract lets a move happen. */
  ghost predicate Allowed<E(!new)>(t: Trail<E>, move: Move<E>) {
    t.Sound() &&
    match move
    case Mutate(c, _) => c !in t.calls
    case Commit(v) => Last(t.commits) <= v < |t.history|
    case Fail(v) => v < |t.history|
    case Succeed(c) => c in t.calls && c !in t.answers && t.calls[c] <= Last(t.commits)
    case Reject(c) => c in t.calls && c !in t.answers && t.failures != [] && t.calls[c] <= Last(t.failures)
  }

  function Moved<E>(t: Trail<E>, move: Move<E>): Trail<E> {
    match move
    case Mutate(c, content) => t.(history := t.history + [content], calls := t.calls[c := |t.history|])
    case Commit(v) => t.(commits := t.commits + [v])
    case Fail(v) => t.(failures := t.failures + [v])
    case Succeed(c) => t.(answers := t.answers[c := true])
    case Reject(c) => t.(answers := t.answers[c := false])
  }

  function Moves<E>(t: Trail<E>, moves: seq<Move<E>>): Trail<E>
    decreases |moves|
  {
    if moves == [] then t else Moves(Moved(t, moves[0]), moves[1..])
  }

  ghost predicate AllAllowed<E(!new)>(t: Trail<E>, moves: seq<Move<E>>)
    decreases |moves|
  {
    moves == [] || (Allowed(t, moves[0]) && AllAllowed(Moved(t, moves[0]), moves[1..]))
  }

  /** The trail before anything was called. */
  function Loaded<E>(content: E): Trail<E> {
    Trail([content], [0], [], map[], map[])
  }

  /** Every successful answer is covered by the file, and stays covered. */
  ghost predicate Covered<E(!new)>(t: Trail<E>) {
    t.Sound() && (forall c :: c in t.answers ==> c in t.calls) &&
    forall c :: c in t.answers && t.answers[c] ==> t.calls[c] <= Last(t.commits)
  }

  /** The contract is enough: along any allowed moves, a caller told "done" finds its
      version or a later one in the file, then and for good. */
  lemma {:induction false} AllowedKeepsCovered<E(!new)>(t: Trail<E>, moves: seq<Move<E>>)
    requires Covered(t) && AllAllowed(t, moves)
    ensures Covered(Moves(t, moves)) && Last(t.commits) <= Last(Moves(t, moves).commits)
    decreases |moves|
  {
    if moves != [] {
      AllowedKeepsCovered(Moved(t, moves[0]), moves[1..]);
    }
  }

  function Answers<E>(callers: seq<Caller>, ok: bool): seq<Move<E>> {
    seq(|callers|, i requires 0 <= i < |callers| => if ok then Succeed(callers[i]) else Reject(callers[i]))
  }

  function Answered(answers: map<Caller, bool>, callers: seq<Caller>, ok: bool): map<Caller, bool>
    decreases |callers|
  {
    if callers == [] then answers else Answered(answers[callers[0] := ok], callers[1..], ok)
  }

  lemma {:induction false} AnsweredKeys(answers: map<Caller, bool>, callers: seq<Caller>, ok: bool)
    ensures Answered(answers, callers, ok).Keys == answers.Keys + Elements(callers)
    ensures forall c :: c in answers && c !in callers ==> Answered(answers, callers, ok)[c] == answers[c]
    ensures forall c :: c in callers ==> c in Answered(answers, callers, ok) && Answered(answers, callers, ok)[c] == ok
    decreases |callers|
  {
    if callers != [] {
      AnsweredKeys(answers[callers[0] := ok], callers[1..], ok);
      assert callers == [callers[0]] + callers[1..];
    }
  }

  /** Answering a batch of distinct waiting callers is a list of allowed moves. */
  lemma {:induction false} AnswersAllowed<E(!new)>(t: Trail<E>, callers: seq<Caller>, ok: bool)
    requires t.Sound() && Distinct(callers)
    requires forall c :: c in callers ==> c in t.calls && c !in t.answers
    requires ok ==> forall c :: c in callers ==> t.calls[c] <= Last(t.commits)
    requires !ok ==> t.failures != [] && forall c :: c in callers ==> t.calls[c] <= Last(t.failures)
    ensures AllAllowed(t, Answers(callers, ok))
    ensures Moves(t, Answers(callers, ok)) == t.(answers := Answered(t.answers, callers, ok))
    decreases |callers|
  {
    if callers != [] {
      var moves: seq<Move<E>> := Answers(callers, ok);
      var next := Moved(t, moves[0]);
      assert moves[1..] == Answers(callers[1..], ok);
      assert callers[0] in callers;
      assert forall c :: c in callers[1..] ==> c in callers && c != callers[0];
      AnswersAllowed(next, callers[1..], ok);
    }
  }
}
