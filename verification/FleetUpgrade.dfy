/** The control surface for upgrades: it alone keeps a second rollout, or a self upgrade,
    from starting beside a rollout. A step is the stretch between two awaits of one
    request, or of a rollout's loop in the background. */
module FleetUpgrades {
  import opened Basics

  type Id = nat

  /** What a fleet request is waiting for. */
  datatype Stage =
    | Turned                     // refused before `starting` was set, or at once after
    | Checking                   // the latest version
    | Preparing                  // download and verification
    | ReadingManifest
    | ReadingSignature
    | Listing                    // inside `rollout.start`: the directory of nodes
    | Returning(started: bool)   // `rollout.start` has settled, `finally` is to come
    | Ended
  {
    predicate OnItsWay() { !Turned? && !Ended? }
  }

  /** A rollout's loop. Its status says "running" in the first three. */
  datatype Loop = Running | AskingSelf | HandedOver | Stopped | Done {
    predicate Alive() { Running? || AskingSelf? || HandedOver? }
  }

  datatype SelfStage = Declined | Upgrading | Over

  datatype Act = Accepted(id: Id) | LetGo(id: Id) | SelfBegan(id: Id)

  /** A rollout goes by the id of the request that started it. `holder` and `history` are
      not in the program: whose request or rollout is in progress, and what was done. */
  datatype Surface = Surface(
    starting: bool,
    current: Option<Id>,
    loops: map<Id, Loop>,
    requests: map<Id, Stage>,
    selves: map<Id, SelfStage>,
    holder: Option<Id>,
    history: seq<Act>)
  {
    /** `rolloutBusy`: `starting`, or the rollout last started says "running". */
    predicate Busy() { starting || (current.Some? && LoopAlive(current.value)) }

    predicate LoopAlive(id: Id) { id in loops && loops[id].Alive() }

    predicate OnItsWay(id: Id) { id in requests && requests[id].OnItsWay() }

    predicate Occupied(id: Id) { OnItsWay(id) || LoopAlive(id) }

    function At(id: Id, stage: Stage): Surface { this.(requests := requests[id := stage]) }
  }

  const IDLE := Surface(false, None, map[], map[], map[], None, [])

  datatype Step =
    | FleetRequest(id: Id, unknownNode: bool, explicitVersion: bool)
    | Checked(id: Id, ok: bool)
    | Prepared(id: Id, ok: bool)
    | ManifestRead(id: Id, ok: bool)
    | SignatureRead(id: Id, ok: bool)
    | Listed(id: Id, ok: bool)
    | Returned(id: Id)
    | LoopEnds(id: Id, done: bool)
    | LoopAsksSelf(id: Id)
    | LoopSelfAnswered(id: Id, ok: bool)
    | SelfRequest(id: Id)
    | SelfSettled(id: Id)

  // ---- Steps ---------------------------------------------------------------

  /** The stage at which an answer is awaited, and the next. */
  function Awaited(step: Step): Option<(Stage, Stage)> {
    match step
    case Checked(_, _) => Some((Checking, Preparing))
    case Prepared(_, _) => Some((Preparing, ReadingManifest))
    case ManifestRead(_, _) => Some((ReadingManifest, ReadingSignature))
    case SignatureRead(_, _) => Some((ReadingSignature, Listing))
    case _ => None
  }

  /** `finally`: the request is over, and so is its hold unless its loop goes on. */
  function Finally(n: Surface, id: Id): Surface {
    var m := n.At(id, Ended).(starting := false);
    if n.LoopAlive(id) then m else m.(holder := None, history := n.history + [LetGo(id)])
  }

  /** The loop's status no longer says "running". */
  function LoopOver(n: Surface, id: Id, how: Loop): Surface {
    var m := n.(loops := n.loops[id := how]);
    if n.OnItsWay(id) then m else m.(holder := None, history := n.history + [LetGo(id)])
  }

  function Apply(n: Surface, step: Step): Surface {
    match step
    case FleetRequest(id, unknownNode, explicitVersion) =>
      if id in n.requests then n
      else if n.Busy() || unknownNode then n.At(id, Turned)
      else n.At(id, if explicitVersion then Preparing else Checking)
            .(starting := true, holder := Some(id), history := n.history + [Accepted(id)])
    case Listed(id, ok) =>
      if id !in n.requests || n.requests[id] != Listing then n
      else if !ok then n.At(id, Returning(false))
      else n.At(id, Returning(true)).(current := Some(id), loops := n.loops[id := Running])
    case Returned(id) =>
      if id !in n.requests || !n.requests[id].Returning? then n else Finally(n, id)
    case LoopEnds(id, done) =>
      if id !in n.loops || n.loops[id] != Running then n else LoopOver(n, id, if done then Done else Stopped)
    case LoopAsksSelf(id) =>
      if id !in n.loops || n.loops[id] != Running then n else n.(loops := n.loops[id := AskingSelf])
    case LoopSelfAnswered(id, ok) =>
      if id !in n.loops || n.loops[id] != AskingSelf then n
      else if ok then n.(loops := n.loops[id := HandedOver])
      else LoopOver(n, id, Done)
    case SelfRequest(id) =>
      if id in n.selves then n
      else if n.Busy() then n.(selves := n.selves[id := Declined])
      else n.(selves := n.selves[id := Upgrading], history := n.history + [SelfBegan(id)])
    case SelfSettled(id) =>
      if id !in n.selves || n.selves[id] != Upgrading then n else n.(selves := n.selves[id := Over])
    case _ => Answer(n, step)
  }

  /** An answer on the way: a failure leads through `finally` at once. */
  function Answer(n: Surface, step: Step): Surface {
    match Awaited(step)
    case None => n
    case Some((from, to)) =>
      if step.id !in n.requests || n.requests[step.id] != from then n
      else if step.ok then n.At(step.id, to)
      else Finally(n, step.id)
  }

  function Run(n: Surface, steps: seq<Step>): Surface {
    if steps == [] then n else Apply(Run(n, Init(steps)), Last(steps))
  }

  // ---- Invariant -----------------------------------------------------------

  /** One request or rollout at most holds the surface, and the program's two flags tell
      exactly that. */
  ghost predicate OneHolder(n: Surface) {
    (forall id: Id :: n.Occupied(id) <==> n.holder == Some(id)) &&
    (n.starting <==> n.holder.Some? && n.OnItsWay(n.holder.value)) &&
    (forall id: Id :: n.LoopAlive(id) ==> n.current == Some(id)) &&
    (forall id :: id in n.loops ==> id in n.requests && (n.requests[id] == Returning(true) || n.requests[id].Ended?))
  }

  predicate Marked(history: seq<Act>, i: nat, j: nat, act: Act) {
    exists k :: i < k < j && j <= |history| && history[k] == act
  }

  /** What was accepted has been let go before anything else began. */
  ghost predicate HistoryOk(n: Surface) {
    (forall i :: 0 <= i < |n.history| && n.history[i].Accepted? ==>
      n.holder == Some(n.history[i].id) || Marked(n.history, i, |n.history|, LetGo(n.history[i].id))) &&
    (forall i, j :: 0 <= i < j < |n.history| && n.history[i].Accepted? && !n.history[j].LetGo? ==>
      Marked(n.history, i, j, LetGo(n.history[i].id)))
  }

  /** Every act is somebody's, and the holder's and the selves' are on record. */
  ghost predicate Recorded(n: Surface) {
    (forall i :: 0 <= i < |n.history| && !n.history[i].SelfBegan? ==> n.history[i].id in n.requests) &&
    (n.holder.Some? ==> Accepted(n.holder.value) in n.history && LetGo(n.holder.value) !in n.history) &&
    (forall id :: id in n.selves && n.selves[id].Upgrading? ==> SelfBegan(id) in n.history)
  }

  ghost predicate Inv(n: Surface) { OneHolder(n) && HistoryOk(n) && Recorded(n) }

  lemma MarkedLater(history: seq<Act>, more: seq<Act>, i: nat, j: nat, j': nat, act: Act)
    requires Marked(history, i, j, act) && j <= j' <= |history + more|
    ensures Marked(history + more, i, j', act)
  {
    var k :| i < k < j && j <= |history| && history[k] == act;
    assert (history + more)[k] == act;
  }

  /** One more act: the holder lets go, or something begins while nobody holds. */
  lemma Noted(n: Surface, m: Surface, act: Act)
    requires HistoryOk(n) && m.history == n.history + [act]
    requires act.LetGo? ==> n.holder == Some(act.id) && m.holder.None?
    requires !act.LetGo? ==> n.holder.None? && m.holder == if act.Accepted? then Some(act.id) else None
    ensures HistoryOk(m)
  {
    var last := |n.history|;
    assert m.history[last] == act;
    forall i | 0 <= i < last && n.history[i].Accepted?
      ensures m.holder == Some(n.history[i].id) || Marked(m.history, i, |m.history|, LetGo(n.history[i].id))
      ensures !act.LetGo? ==> Marked(m.history, i, last, LetGo(n.history[i].id))
    {
      if n.holder != Some(n.history[i].id) {
        MarkedLater(n.history, [act], i, last, last, LetGo(n.history[i].id));
        MarkedLater(n.history, [act], i, last, |m.history|, LetGo(n.history[i].id));
      }
    }
    forall i, j | 0 <= i < j < last && n.history[i].Accepted? && !n.history[j].LetGo?
      ensures Marked(m.history, i, j, LetGo(n.history[i].id))
    {
      MarkedLater(n.history, [act], i, j, j, LetGo(n.history[i].id));
    }
  }

  /** The program's flags are right. */
  lemma BusyIff(n: Surface)
    requires OneHolder(n)
    ensures n.Busy() <==> n.holder.Some?
    ensures n.Busy() <==> exists id: Id :: n.Occupied(id)
  {
    if n.holder.Some? { assert n.Occupied(n.holder.value); }
    if n.current.Some? && n.LoopAlive(n.current.value) { assert n.Occupied(n.current.value); }
  }

  lemma FinallyOk(n: Surface, id: Id)
    requires Inv(n) && n.OnItsWay(id) && (id in n.loops ==> n.requests[id] == Returning(true))
    ensures Inv(Finally(n, id))
  {
    assert n.Occupied(id);
    var m := Finally(n, id);
    assert forall x :: m.Occupied(x) <==> if x == id then n.LoopAlive(id) else n.Occupied(x);
    if !n.LoopAlive(id) { Noted(n, m, LetGo(id)); }
    hide HistoryOk;
  }

  lemma LoopOverOk(n: Surface, id: Id, how: Loop)
    requires Inv(n) && n.LoopAlive(id) && !how.Alive()
    ensures Inv(LoopOver(n, id, how))
  {
    assert n.Occupied(id);
    var m := LoopOver(n, id, how);
    assert forall x :: m.Occupied(x) <==> if x == id then n.OnItsWay(id) else n.Occupied(x);
    if !n.OnItsWay(id) { Noted(n, m, LetGo(id)); }
    hide HistoryOk;
  }

  lemma RequestOk(n: Surface, id: Id, unknownNode: bool, explicitVersion: bool)
    requires Inv(n) && id !in n.requests
    ensures Inv(Apply(n, FleetRequest(id, unknownNode, explicitVersion)))
  {
    BusyIff(n);
    var m := Apply(n, FleetRequest(id, unknownNode, explicitVersion));
    assert forall x :: x != id ==> m.Occupied(x) == n.Occupied(x);
    hide HistoryOk;
    if !n.Busy() && !unknownNode { Noted(n, m, Accepted(id)); }
  }

  lemma SelfRequestOk(n: Surface, id: Id)
    requires Inv(n) && id !in n.selves
    ensures Inv(Apply(n, SelfRequest(id)))
  {
    BusyIff(n);
    var m := Apply(n, SelfRequest(id));
    assert forall x :: m.Occupied(x) == n.Occupied(x);
    if !n.Busy() { Noted(n, m, SelfBegan(id)); }
    hide HistoryOk;
  }

  /** A request or a loop that goes on. */
  lemma GoesOnOk(n: Surface, m: Surface, id: Id)
    requires Inv(n) && m.history == n.history && m.holder == n.holder && m.selves == n.selves && m.starting == n.starting
    requires id in n.requests && id in m.requests && m.requests == n.requests[id := m.requests[id]]
    requires n.requests[id].OnItsWay() == m.requests[id].OnItsWay()
    requires (m.loops == n.loops && m.current == n.current && id !in n.loops) ||
             (n.LoopAlive(id) && m.current == n.current && m.requests == n.requests && m.LoopAlive(id) && m.loops == n.loops[id := m.loops[id]]) ||
             (n.OnItsWay(id) && m.current == Some(id) && m.LoopAlive(id) && m.loops == n.loops[id := m.loops[id]] && m.requests[id] == Returning(true))
    ensures Inv(m)
  {
    assert forall x :: m.Occupied(x) == n.Occupied(x);
    hide HistoryOk;
    assert forall x :: m.LoopAlive(x) ==> x == id || n.Occupied(x);
    assert n.OnItsWay(id) ==> n.Occupied(id);
  }

  lemma AnswerOk(n: Surface, step: Step)
    requires Inv(n) && Awaited(step).Some?
    ensures Inv(Answer(n, step))
  {
    var m := Answer(n, step);
    if m != n {
      if step.ok {
        hide Inv;
        AwaitedOnWay(step);
        NoLoopYet(n, step.id);
        GoesOnOk(n, m, step.id);
      } else {
        FinallyOk(n, step.id);
      }
    }
  }

  lemma AwaitedOnWay(step: Step)
    requires Awaited(step).Some?
    ensures var (from, to) := Awaited(step).value;
      from.OnItsWay() && to.OnItsWay() && !from.Returning? && !to.Returning?
  {}

  lemma NoLoopYet(n: Surface, id: Id)
    requires Inv(n) && id in n.requests && n.requests[id].OnItsWay() && !n.requests[id].Returning?
    ensures id !in n.loops
  {}

  lemma LoopHasRequest(n: Surface, id: Id)
    requires Inv(n) && id in n.loops
    ensures id in n.requests
  {}

  lemma LoopStepOk(n: Surface, step: Step)
    requires Inv(n) && (step.LoopEnds? || step.LoopAsksSelf? || step.LoopSelfAnswered?)
    ensures Inv(Apply(n, step))
  {
    hide Inv, LoopOver;
    var m := Apply(n, step);
    if m != n {
      LoopHasRequest(n, step.id);
      if step.LoopEnds? || (step.LoopSelfAnswered? && !step.ok) {
        LoopOverOk(n, step.id, if step.LoopEnds? && !step.done then Stopped else Done);
      } else {
        assert n.requests[step.id := n.requests[step.id]] == n.requests;
        GoesOnOk(n, m, step.id);
      }
    }
  }

  lemma ListedOk(n: Surface, id: Id, ok: bool)
    requires Inv(n)
    ensures Inv(Apply(n, Listed(id, ok)))
  {
    hide Inv;
    var m := Apply(n, Listed(id, ok));
    if m != n {
      NoLoopYet(n, id);
      GoesOnOk(n, m, id);
    }
  }

  lemma SelfSettledOk(n: Surface, id: Id)
    requires Inv(n)
    ensures Inv(Apply(n, SelfSettled(id)))
  {
    assert forall x :: Apply(n, SelfSettled(id)).Occupied(x) == n.Occupied(x);
  }

  lemma StepKeepsInv(n: Surface, step: Step)
    requires Inv(n)
    ensures Inv(Apply(n, step))
  {
    hide Inv, Finally, LoopOver, Awaited, Answer;
    match step
    case FleetRequest(id, unknownNode, explicitVersion) =>
      if id !in n.requests { RequestOk(n, id, unknownNode, explicitVersion); }
    case Listed(id, ok) => ListedOk(n, id, ok);
    case Returned(id) => ReturnedOk(n, id);
    case LoopEnds(_, _) => LoopStepOk(n, step);
    case LoopAsksSelf(_) => LoopStepOk(n, step);
    case LoopSelfAnswered(_, _) => LoopStepOk(n, step);
    case SelfRequest(id) => if id !in n.selves { SelfRequestOk(n, id); }
    case SelfSettled(id) => SelfSettledOk(n, id);
    case _ => AnswersAwaited(step); AnswerOk(n, step);
  }

  lemma AnswersAwaited(step: Step)
    requires step.Checked? || step.Prepared? || step.ManifestRead? || step.SignatureRead?
    ensures Awaited(step).Some?
  {}

  lemma ReturnedOk(n: Surface, id: Id)
    requires Inv(n)
    ensures Inv(Apply(n, Returned(id)))
  {
    hide HistoryOk, Recorded, Finally;
    if id in n.requests && n.requests[id].Returning? {
      FinallyOk(n, id);
    }
  }

  lemma {:induction false} RunKeepsInv(steps: seq<Step>)
    ensures Inv(Run(IDLE, steps))
  {
    if steps == [] {
      assert forall id :: !IDLE.Occupied(id);
    } else {
      hide Inv, Apply;
      RunKeepsInv(Init(steps));
      StepKeepsInv(Run(IDLE, Init(steps)), Last(steps));
    }
  }

  // ---- Results -------------------------------------------------------------

  /** Over all interleavings at most one rollout is being started or is running, and the
      surface says busy exactly then. */
  lemma OneRollout(steps: seq<Step>, a: Id, b: Id)
    ensures var n := Run(IDLE, steps);
      (n.Occupied(a) && n.Occupied(b) ==> a == b) && (n.Busy() <==> exists id: Id :: n.Occupied(id))
  {
    RunKeepsInv(steps);
    BusyIff(Run(IDLE, steps));
  }

  /** Before another fleet request is accepted, or a self upgrade begins, the one accepted
      earlier has failed, or its rollout has come to its end. */
  lemma LetGoBeforeNext(steps: seq<Step>, i: nat, j: nat)
    requires var history := Run(IDLE, steps).history;
      i < j < |history| && history[i].Accepted? && !history[j].LetGo?
    ensures var history := Run(IDLE, steps).history;
      Marked(history, i, j, LetGo(history[i].id))
  {
    RunKeepsInv(steps);
  }

  /** A rollout is over, and the surface free for the next request, once its loop has ended
      and its request has returned, in whatever order; a rollout that hands the node over to
      this node's own upgrade is never over. */
  lemma FreeAfter(steps: seq<Step>, id: Id, done: bool)
    requires var n := Run(IDLE, steps);
      id in n.loops && n.loops[id].Running?
    ensures var n := Run(IDLE, steps);
      id in n.requests && (n.requests[id].Ended? ==> !Apply(n, LoopEnds(id, done)).Busy()) &&
      (n.requests[id].Returning? ==>
        Apply(n, LoopEnds(id, done)).Busy() && !Apply(Apply(n, LoopEnds(id, done)), Returned(id)).Busy()) &&
      Apply(Apply(n, LoopAsksSelf(id)), LoopSelfAnswered(id, true)).Busy()
  {
    RunKeepsInv(steps);
    var n := Run(IDLE, steps);
    assert n.Occupied(id) && n.LoopAlive(id);
    hide Run, HistoryOk, Recorded;
  }

  /** A self upgrade never begins beside a rollout. */
  lemma NoSelfBesideRollout(steps: seq<Step>, id: Id)
    ensures var n, m := Run(IDLE, steps), Apply(Run(IDLE, steps), SelfRequest(id));
      id !in n.selves && id in m.selves && m.selves[id].Upgrading? ==> forall x: Id :: !m.Occupied(x)
  {
    RunKeepsInv(steps);
    var n := Run(IDLE, steps);
    BusyIff(n);
    assert forall x :: Apply(n, SelfRequest(id)).Occupied(x) == n.Occupied(x);
  }

  /** Where both are in progress, the self upgrade began first: a fleet request does not
      look for one. */
  lemma SelfCameFirst(steps: seq<Step>, self: Id, fleet: Id)
    requires var n := Run(IDLE, steps);
      self in n.selves && n.selves[self].Upgrading? && n.Occupied(fleet)
    ensures var history := Run(IDLE, steps).history;
      exists i, j :: 0 <= i < j < |history| && history[i] == SelfBegan(self) && history[j] == Accepted(fleet)
  {
    RunKeepsInv(steps);
    var n := Run(IDLE, steps);
    assert n.holder == Some(fleet);
    var i :| 0 <= i < |n.history| && n.history[i] == SelfBegan(self);
    var j :| 0 <= j < |n.history| && n.history[j] == Accepted(fleet);
    NotMarked(n.history, j, i, LetGo(fleet));
  }

  lemma NotMarked(history: seq<Act>, i: nat, j: nat, act: Act)
    requires act !in history
    ensures !Marked(history, i, j, act)
  {}

  /** And that does happen. */
  lemma RolloutBesideSelf()
    ensures var n := Run(IDLE, [SelfRequest(0), FleetRequest(0, false, true)]);
      n.selves[0].Upgrading? && n.requests[0].Preparing? && n.Occupied(0)
  {
    var steps := [SelfRequest(0), FleetRequest(0, false, true)];
    assert Init(steps) == [SelfRequest(0)] && Init([SelfRequest(0)]) == [];
  }
}
