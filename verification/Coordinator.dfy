/** Who owns the node during an upgrade. Local and pushed upgrades run concurrently; a
    step is the stretch between two awaits of one of them. */
module Coordinators {
  import opened Basics

  type RunId = nat

  datatype Kind = Local | Remote

  /** What a run is waiting for. */
  datatype Stage =
    | Turned            // refused without claiming the node
    | CheckingLock      // a push, before it claims
    | Resolving
    | Preparing
    | CachingRollback
    | Locking
    | WritingUpdater
    | WritingState
    | Releasing
    | Recording         // a failed push, writing its outcome
    | Unwinding(ok: bool)
    | Over(ok: bool)
  {
    /** The run is inside `runUpgrade` or its clean-up. */
    predicate Claims() { !Turned? && !CheckingLock? && !Over? }

    predicate Failing() { Recording? || this == Unwinding(false) || this == Over(false) }

    predicate Holds() { WritingUpdater? || WritingState? || Releasing? }

    predicate Won() { this == Unwinding(true) || this == Over(true) }
  }

  datatype RunState = RunState(kind: Kind, stage: Stage, tookLock: bool, releases: nat, lockStuck: bool)

  datatype Lock = Free | Outside | HeldBy(id: RunId)

  datatype Act = Claimed(id: RunId) | StartedUpdater(id: RunId) | Recorded(id: RunId) | Cleared(id: RunId)

  /** `owner` and `history` are not in the program: who claims the node, and what has
      been done, in order. */
  datatype Node = Node(
    inProgress: bool,
    pending: bool,
    shuttingDown: bool,
    lock: Lock,
    runs: map<RunId, RunState>,
    owner: Option<RunId>,
    history: seq<Act>)
  {
    predicate Busy() { inProgress || pending }

    function Stage(id: RunId): Stage { if id in runs then runs[id].stage else Turned }

    function At(id: RunId, stage: Stage): Node
      requires id in runs
    {
      this.(runs := runs[id := runs[id].(stage := stage)])
    }
  }

  const IDLE := Node(false, false, false, Free, map[], None, [])

  datatype Config = Config(canRestart: bool, allowRemote: bool)

  /** `ok` says that the awaited call succeeded and the checks after it passed. */
  datatype Step =
    | Upgrade(id: RunId)
    | PushArrives(id: RunId)
    | LockRead(id: RunId, held: bool, verified: bool)
    | Resolved(id: RunId, ok: bool)
    | Prepared(id: RunId, ok: bool)
    | RollbackCached(id: RunId)
    | LockAnswered(id: RunId, got: bool)
    | UpdaterWritten(id: RunId, ok: bool)
    | StateWritten(id: RunId, ok: bool)
    | LockRemoved(id: RunId, ok: bool)
    | ResultWritten(id: RunId)
    | Settled(id: RunId)
    | ShutdownBegins
    | OutsideLocks
    | OutsideUnlocks

  // ---- Steps ---------------------------------------------------------------

  function New(kind: Kind, stage: Stage): RunState { RunState(kind, stage, false, 0, false) }

  predicate CanClaim(n: Node) { !n.shuttingDown && !n.Busy() }

  /** `claim()`, and `runUpgrade` up to its first await. */
  function Claim(c: Config, n: Node, id: RunId, kind: Kind): Node {
    var claimed := n.(pending := true, owner := Some(id), history := n.history + [Claimed(id)]);
    claimed.(runs := n.runs[id := New(kind, if c.canRestart then Resolving else Failure(kind))])
  }

  /** Where an error takes a run: a pushed one records it first. */
  function Failure(kind: Kind): Stage {
    if kind.Remote? then Recording else Unwinding(false)
  }

  /** A step by which the run that owns the node gets on, or not. */
  predicate Works(step: Step) {
    step.Resolved? || step.Prepared? || step.RollbackCached? || step.LockAnswered? || step.UpdaterWritten? || step.LockRemoved?
  }

  /** Where such a step takes a run that is waiting for it. */
  function Moved(rec: RunState, step: Step): Option<Stage>
    requires Works(step)
  {
    match step
    case Resolved(_, ok) =>
      if rec.stage != Resolving then None else Some(if ok then Preparing else Failure(rec.kind))
    case Prepared(_, ok) =>
      if rec.stage != Preparing then None else Some(if ok then CachingRollback else Failure(rec.kind))
    case RollbackCached(_) =>
      if rec.stage != CachingRollback then None else Some(Locking)
    case LockAnswered(_, got) =>
      if rec.stage != Locking then None else Some(if got then WritingUpdater else Failure(rec.kind))
    case UpdaterWritten(_, ok) =>
      if rec.stage != WritingUpdater then None else Some(if ok then WritingState else Releasing)
    case LockRemoved(_, _) =>
      if rec.stage != Releasing then None else Some(Failure(rec.kind))
  }

  function Work(n: Node, id: RunId, step: Step): Node
    requires Works(step)
  {
    if id !in n.runs then n
    else
      var rec := n.runs[id];
      match Moved(rec, step)
      case None => n
      case Some(stage) =>
        if stage.WritingUpdater? then
          if !n.lock.Free? then n
          else n.(lock := HeldBy(id), runs := n.runs[id := rec.(stage := stage, tookLock := true)])
        else if step.LockRemoved? then
          n.(lock := if step.ok then Free else n.lock,
             runs := n.runs[id := rec.(stage := stage, releases := rec.releases + 1, lockStuck := !step.ok)])
        else n.At(id, stage)
  }

  function Apply(c: Config, n: Node, step: Step): Node {
    match step
    case Upgrade(id) =>
      if id in n.runs then n
      else if !CanClaim(n) then n.(runs := n.runs[id := New(Local, Turned)])
      else Claim(c, n, id, Local)
    case PushArrives(id) =>
      if id in n.runs then n
      else n.(runs := n.runs[id := New(Remote, if c.allowRemote && c.canRestart && CanClaim(n) then CheckingLock else Turned)])
    case LockRead(id, held, verified) =>
      if n.Stage(id) != CheckingLock then n
      else if held || !verified || !CanClaim(n) then n.At(id, Turned)
      else Claim(c, n, id, Remote)
    case StateWritten(id, ok) =>
      if n.Stage(id) != WritingState then n
      else if !ok then n.At(id, Releasing)
      else n.At(id, Unwinding(true)).(inProgress := true, history := n.history + [StartedUpdater(id)])
    case ResultWritten(id) =>
      if n.Stage(id) != Recording then n
      else n.At(id, Unwinding(false)).(history := n.history + [Recorded(id)])
    case Settled(id) =>
      if !n.Stage(id).Unwinding? then n
      else n.At(id, Over(n.Stage(id).ok)).(pending := false, owner := None, history := n.history + [Cleared(id)])
    case ShutdownBegins => n.(shuttingDown := true)
    case OutsideLocks => if n.lock.Free? then n.(lock := Outside) else n
    // The process outside is also the updater, once it has been started.
    case OutsideUnlocks =>
      if n.lock.Outside? || (n.lock.HeldBy? && n.Stage(n.lock.id).Won()) then n.(lock := Free) else n
    case _ => Work(n, step.id, step)
  }

  function Run(c: Config, n: Node, steps: seq<Step>): Node {
    if steps == [] then n else Apply(c, Run(c, n, Init(steps)), Last(steps))
  }

  // ---- Invariant -----------------------------------------------------------

  /** The claim has exactly one holder, and after a success nobody works any more. */
  predicate OneOwner(n: Node) {
    (n.pending <==> n.owner.Some?) &&
    (forall id :: id in n.runs ==> (n.runs[id].stage.Claims() <==> n.owner == Some(id))) &&
    (n.owner.Some? ==> n.owner.value in n.runs)
  }

  predicate HandedOver(n: Node) {
    (forall id :: id in n.runs && n.runs[id].stage.Won() ==> n.inProgress) &&
    (n.inProgress && n.owner.Some? ==> n.Stage(n.owner.value) == Unwinding(true))
  }

  /** How a run's stage, its use of the lock and the lock itself fit together. */
  predicate LockFits(n: Node, id: RunId, rec: RunState) {
    if rec.stage.Holds() then rec.tookLock && rec.releases == 0 && n.lock == HeldBy(id)
    else if rec.stage.Won() then rec.tookLock && rec.releases == 0
    else if rec.stage.Failing() && rec.tookLock then rec.releases == 1 && (n.lock == HeldBy(id) <==> rec.lockStuck)
    else !rec.tookLock && rec.releases == 0 && n.lock != HeldBy(id)
  }

  predicate LocksFit(n: Node) {
    (forall id :: id in n.runs ==> LockFits(n, id, n.runs[id])) &&
    (n.lock.HeldBy? ==> n.lock.id in n.runs) &&
    (forall id :: id in n.runs && (n.runs[id].stage.Recording? || n.runs[id].stage.CheckingLock?) ==> n.runs[id].kind.Remote?)
  }

  predicate Marked(history: seq<Act>, i: nat, j: nat, act: Act) {
    exists k :: i < k < j && j <= |history| && history[k] == act
  }

  /** The claim made at `i` has been dropped, by a pushed run only after its outcome. */
  predicate Closed(n: Node, i: nat, id: RunId) {
    id in n.runs && n.runs[id].stage.Over? &&
    exists k :: i < k < |n.history| && n.history[k] == Cleared(id) &&
                (n.runs[id].kind.Remote? && !n.runs[id].stage.ok ==> Marked(n.history, i, k, Recorded(id)))
  }

  predicate Tracked(n: Node, i: nat, id: RunId) {
    id in n.runs && n.runs[id].stage.Claims() ==>
      n.owner == Some(id) && (n.runs[id].kind.Remote? && n.runs[id].stage == Unwinding(false) ==> Marked(n.history, i, |n.history|, Recorded(id)))
  }

  predicate HistoryOk(n: Node) {
    (forall i :: 0 <= i < |n.history| ==> n.history[i].id in n.runs) &&
    (forall i :: 0 <= i < |n.history| && n.history[i].Claimed? ==>
      Tracked(n, i, n.history[i].id) && (n.owner == Some(n.history[i].id) || Closed(n, i, n.history[i].id))) &&
    (forall i :: 0 <= i < |n.history| && n.history[i].StartedUpdater? ==> n.inProgress) &&
    (forall i, j :: 0 <= i < j < |n.history| && n.history[j].StartedUpdater? ==> !n.history[i].StartedUpdater?) &&
    (forall i, j :: 0 <= i < j < |n.history| && n.history[i].Claimed? && n.history[j].Claimed? ==>
      Answered(n, i, j, n.history[i].id))
  }

  /** Between a claim and the next the first run has failed and let go, a pushed one
      after the attempt to record its outcome. */
  predicate Answered(n: Node, i: nat, j: nat, id: RunId) {
    id in n.runs && n.runs[id].stage == Over(false) && Marked(n.history, i, j, Cleared(id)) &&
    (n.runs[id].kind.Remote? ==> Marked(n.history, i, j, Recorded(id)))
  }

  predicate Inv(n: Node) { OneOwner(n) && HandedOver(n) && LocksFit(n) && HistoryOk(n) }

  lemma MarkedLater(history: seq<Act>, more: seq<Act>, i: nat, j: nat, j': nat, act: Act)
    requires Marked(history, i, j, act) && j <= j' <= |history + more|
    ensures Marked(history + more, i, j', act)
  {
    var k :| i < k < j && j <= |history| && history[k] == act;
    assert (history + more)[k] == act;
  }

  /** A run that has moved on without touching the history. */
  predicate SameHistory(n: Node, m: Node, id: RunId) {
    m.history == n.history && m.owner == n.owner && m.inProgress == n.inProgress && id in n.runs && id in m.runs &&
    (forall x :: x in n.runs && x != id ==> x in m.runs && m.runs[x] == n.runs[x]) &&
    (forall x :: x in m.runs ==> x in n.runs) &&
    m.runs[id].kind == n.runs[id].kind && n.runs[id].stage.Claims() && m.runs[id].stage.Claims() &&
    (m.runs[id].stage == Unwinding(false) ==> n.runs[id].stage == Unwinding(false) || m.runs[id].kind.Local?)
  }

  lemma SameHistoryOk(n: Node, m: Node, id: RunId)
    requires Inv(n) && SameHistory(n, m, id)
    ensures HistoryOk(m)
  {
    hide LocksFit, HandedOver, Marked;
    assert forall i, x :: Closed(n, i, x) && x != id ==> Closed(m, i, x);
    assert forall i :: !Closed(n, i, id);
    assert forall i, x :: Tracked(n, i, x) ==> Tracked(m, i, x);
    forall i, j | 0 <= i < j < |m.history| && m.history[i].Claimed? && m.history[j].Claimed?
      ensures Answered(m, i, j, m.history[i].id)
    {
      assert Answered(n, i, j, n.history[i].id);
    }
  }

  /** Nothing but runs that never claimed has changed. */
  predicate Quiet(n: Node, m: Node) {
    m.history == n.history && m.owner == n.owner && m.inProgress == n.inProgress &&
    (forall x :: x in n.runs ==> x in m.runs && (m.runs[x] == n.runs[x] || (n.runs[x].stage.CheckingLock? && m.runs[x].stage.Turned?))) &&
    (forall x :: x in m.runs && x !in n.runs ==> m.runs[x].stage.Turned? || m.runs[x].stage.CheckingLock?)
  }

  lemma QuietHistoryOk(n: Node, m: Node)
    requires HistoryOk(n) && Quiet(n, m)
    ensures HistoryOk(m)
  {
    hide Marked;
    assert forall i, x :: Closed(n, i, x) ==> Closed(m, i, x);
    assert forall i, x :: x in n.runs && Tracked(n, i, x) ==> Tracked(m, i, x);
    forall i, j | 0 <= i < j < |m.history| && m.history[i].Claimed? && m.history[j].Claimed?
      ensures Answered(m, i, j, m.history[i].id)
    {
      assert Answered(n, i, j, n.history[i].id);
    }
  }

  lemma ClosedLater(n: Node, m: Node, act: Act, i: nat, id: RunId)
    requires Closed(n, i, id) && m.history == n.history + [act] && id in m.runs && m.runs[id] == n.runs[id]
    ensures Closed(m, i, id)
  {
    var k :| i < k < |n.history| && n.history[k] == Cleared(id) &&
             (n.runs[id].kind.Remote? && !n.runs[id].stage.ok ==> Marked(n.history, i, k, Recorded(id)));
    assert m.history[k] == Cleared(id);
    if n.runs[id].kind.Remote? && !n.runs[id].stage.ok {
      MarkedLater(n.history, [act], i, k, k, Recorded(id));
    }
  }

  lemma AnsweredLater(n: Node, m: Node, act: Act, i: nat, j: nat, id: RunId)
    requires Answered(n, i, j, id) && m.history == n.history + [act] && j < |n.history| && id in m.runs && m.runs[id] == n.runs[id]
    ensures Answered(m, i, j, id)
  {
    MarkedLater(n.history, [act], i, j, j, Cleared(id));
    if n.runs[id].kind.Remote? { MarkedLater(n.history, [act], i, j, j, Recorded(id)); }
  }

  /** A claim that was closed stands answered by whatever comes after. */
  lemma ClosedAnswers(n: Node, m: Node, act: Act, i: nat, id: RunId)
    requires Closed(n, i, id) && !n.runs[id].stage.ok && m.history == n.history + [act]
    requires id in m.runs && m.runs[id] == n.runs[id]
    ensures Answered(m, i, |n.history|, id)
  {
    var k :| i < k < |n.history| && n.history[k] == Cleared(id) &&
             (n.runs[id].kind.Remote? && !n.runs[id].stage.ok ==> Marked(n.history, i, k, Recorded(id)));
    assert m.history[k] == Cleared(id);
    if n.runs[id].kind.Remote? {
      MarkedLater(n.history, [act], i, k, |n.history|, Recorded(id));
    }
  }

  lemma ClaimHistoryOk(c: Config, n: Node, id: RunId, kind: Kind)
    requires Inv(n) && CanClaim(n) && (id !in n.runs || n.runs[id].stage.CheckingLock?)
    ensures HistoryOk(Claim(c, n, id, kind))
  {
    hide LocksFit, Marked, Closed, Answered;
    var m := Claim(c, n, id, kind);
    var act := Claimed(id);
    forall i | 0 <= i < |n.history| && n.history[i].Claimed?
      ensures var x := n.history[i].id;
        x != id && Tracked(m, i, x) && Closed(m, i, x) && Answered(m, i, |n.history|, x)
    {
      var x := n.history[i].id;
      ClosedIsOver(n, i, x);
      ClosedLater(n, m, act, i, x);
      ClosedAnswers(n, m, act, i, x);
    }
    forall i, j | 0 <= i < j < |m.history| && m.history[i].Claimed? && m.history[j].Claimed?
      ensures Answered(m, i, j, m.history[i].id)
    {
      if j < |n.history| {
        AnsweredLater(n, m, act, i, j, n.history[i].id);
      }
    }
  }

  lemma ClosedIsOver(n: Node, i: nat, id: RunId)
    requires HandedOver(n) && !n.inProgress && Closed(n, i, id)
    ensures n.runs[id].stage == Over(false)
  {}

  lemma ClaimOk(c: Config, n: Node, id: RunId, kind: Kind)
    requires Inv(n) && CanClaim(n) && (if id in n.runs then n.runs[id].stage.CheckingLock? && kind.Remote? else true)
    ensures Inv(Claim(c, n, id, kind))
  {
    hide HistoryOk;
    ClaimHistoryOk(c, n, id, kind);
    var m := Claim(c, n, id, kind);
    ClaimFits(c, n, id, kind);
    hide LocksFit;
  }

  lemma ClaimFits(c: Config, n: Node, id: RunId, kind: Kind)
    requires LocksFit(n) && (if id in n.runs then n.runs[id].stage.CheckingLock? && kind.Remote? else true)
    ensures LocksFit(Claim(c, n, id, kind))
  {
    if id in n.runs { FitOf(n, id); }
    assert n.lock != HeldBy(id);
    hide LocksFit;
    OneLockFits(n, Claim(c, n, id, kind), id);
  }

  /** The other acts: the owner does something worth noting. */
  lemma ActHistoryOk(n: Node, m: Node, id: RunId, act: Act)
    requires Inv(n) && n.owner == Some(id) && act.id == id && !act.Claimed?
    requires m.history == n.history + [act]
    requires id in m.runs && m.runs.Keys == n.runs.Keys && m.runs[id].kind == n.runs[id].kind
    requires forall x :: x in n.runs && x != id ==> m.runs[x] == n.runs[x]
    requires match act
      case StartedUpdater(_) => !n.inProgress && m.inProgress && m.runs[id].stage == Unwinding(true) && m.owner == n.owner
      case Recorded(_) => m.inProgress == n.inProgress && m.runs[id].stage == Unwinding(false) && m.owner == n.owner
      case Cleared(_) =>
        m.inProgress == n.inProgress && n.runs[id].stage.Unwinding? && m.owner == None && m.runs[id].stage == Over(n.runs[id].stage.ok)
    ensures HistoryOk(m)
  {
    hide LocksFit, Marked, Closed, Answered;
    forall i | 0 <= i < |n.history| && n.history[i].Claimed?
      ensures var x := n.history[i].id;
        Tracked(m, i, x) && (m.owner == Some(x) || Closed(m, i, x))
    {
      var x := n.history[i].id;
      if x == id {
        OwnClaim(n, m, id, act, i);
      } else {
        ClosedLater(n, m, act, i, x);
      }
    }
    forall i, j | 0 <= i < j < |m.history| && m.history[i].Claimed? && m.history[j].Claimed?
      ensures Answered(m, i, j, m.history[i].id)
    {
      NotOver(n, i, j, n.history[i].id);
      AnsweredLater(n, m, act, i, j, n.history[i].id);
    }
  }

  lemma NotOver(n: Node, i: nat, j: nat, id: RunId)
    requires Answered(n, i, j, id) && OneOwner(n)
    ensures n.owner != Some(id)
  {}

  lemma OwnClaim(n: Node, m: Node, id: RunId, act: Act, i: nat)
    requires Inv(n) && n.owner == Some(id) && act.id == id && !act.Claimed? && m.history == n.history + [act]
    requires id in m.runs && m.runs[id].kind == n.runs[id].kind && i < |n.history| && n.history[i] == Claimed(id)
    requires match act
      case StartedUpdater(_) => m.runs[id].stage == Unwinding(true) && m.owner == n.owner
      case Recorded(_) => m.runs[id].stage == Unwinding(false) && m.owner == n.owner
      case Cleared(_) => n.runs[id].stage.Unwinding? && m.owner == None && m.runs[id].stage == Over(n.runs[id].stage.ok)
    ensures Tracked(m, i, id) && (m.owner == Some(id) || Closed(m, i, id))
  {
    var last := |n.history|;
    assert m.history[last] == act && Tracked(n, i, id);
    if act.Cleared? && n.runs[id].kind.Remote? && !n.runs[id].stage.ok {
      MarkedLater(n.history, [act], i, last, last, Recorded(id));
    }
  }

  lemma QuietOk(n: Node, m: Node)
    requires Inv(n) && Quiet(n, m) && m.pending == n.pending && LocksFit(m)
    ensures Inv(m)
  {
    QuietHistoryOk(n, m);
    hide HistoryOk, LocksFit;
  }

  lemma WorkOk(n: Node, m: Node, id: RunId)
    requires Inv(n) && SameHistory(n, m, id) && m.pending == n.pending && LocksFit(m)
    requires !m.runs[id].stage.Won() && !n.runs[id].stage.Won()
    ensures Inv(m)
  {
    SameHistoryOk(n, m, id);
    hide HistoryOk, LocksFit;
  }

  /** One run and the lock have changed, the lock only from or to that run. */
  lemma OneLockFits(n: Node, m: Node, id: RunId)
    requires LocksFit(n) && id in m.runs && m.runs == n.runs[id := m.runs[id]] && LockFits(m, id, m.runs[id])
    requires m.lock == n.lock || (n.lock == Free && m.lock == HeldBy(id)) || (n.lock == HeldBy(id) && m.lock == Free)
    requires m.runs[id].stage.Recording? || m.runs[id].stage.CheckingLock? ==> m.runs[id].kind.Remote?
    ensures LocksFit(m)
  {
    forall x | x in m.runs && x != id
      ensures LockFits(m, x, m.runs[x])
    {
      assert LockFits(n, x, n.runs[x]);
    }
  }

  lemma MovedStays(rec: RunState, step: Step)
    requires Works(step) && Moved(rec, step).Some?
    ensures var stage := Moved(rec, step).value;
      rec.stage.Claims() && !rec.stage.Won() && !rec.stage.Failing() && stage.Claims() && !stage.Won() &&
      (stage.Recording? ==> rec.kind.Remote?) && (stage == Unwinding(false) ==> rec.kind.Local?) &&
      !stage.CheckingLock? && (stage.Failing() <==> stage == Failure(rec.kind)) &&
      (rec.stage.Holds() <==> rec.stage.WritingUpdater? || rec.stage.Releasing?) &&
      (stage.Holds() <==> stage.WritingUpdater? || rec.stage.WritingUpdater?) &&
      (rec.stage.Releasing? <==> step.LockRemoved?) && (step.LockRemoved? ==> stage.Failing())
  {}

  lemma WorkOne(n: Node, id: RunId, step: Step)
    requires LocksFit(n) && Works(step) && Work(n, id, step) != n
    ensures var m := Work(n, id, step);
      LocksFit(m) && SameHistory(n, m, id) && m.pending == n.pending &&
      !m.runs[id].stage.Won() && !n.runs[id].stage.Won()
  {
    hide LocksFit, Moved, Works;
    FitOf(n, id);
    MovedStays(n.runs[id], step);
    OneLockFits(n, Work(n, id, step), id);
  }

  lemma FitOf(n: Node, id: RunId)
    requires LocksFit(n) && id in n.runs
    ensures LockFits(n, id, n.runs[id])
  {}

  lemma WorkStepOk(c: Config, n: Node, id: RunId, step: Step)
    requires Inv(n) && Works(step)
    ensures Inv(Work(n, id, step))
  {
    hide Works, Work, LocksFit, HistoryOk, OneOwner, HandedOver, SameHistory;
    if Work(n, id, step) != n {
      WorkOne(n, id, step);
      WorkOk(n, Work(n, id, step), id);
    }
  }

  /** A step worth noting, and how it shows. */
  predicate Acts(step: Step) { (step.StateWritten? && step.ok) || step.ResultWritten? || step.Settled? }

  lemma ActLocks(c: Config, n: Node, step: Step)
    requires LocksFit(n) && (Acts(step) || step.StateWritten?) && Apply(c, n, step) != n
    ensures LocksFit(Apply(c, n, step))
  {
    hide LocksFit, Work, Claim, CanClaim;
    FitOf(n, step.id);
    OneLockFits(n, Apply(c, n, step), step.id);
  }

  lemma ActShape(c: Config, n: Node, step: Step)
    requires OneOwner(n) && HandedOver(n) && Acts(step) && Apply(c, n, step) != n
    ensures var m := Apply(c, n, step);
      OneOwner(m) && HandedOver(m) && n.owner == Some(step.id) && |m.history| == |n.history| + 1 &&
      m.history == n.history + [Last(m.history)] && !Last(m.history).Claimed? && Last(m.history).id == step.id &&
      step.id in m.runs && m.runs.Keys == n.runs.Keys && m.runs[step.id].kind == n.runs[step.id].kind &&
      (forall x :: x in n.runs && x != step.id ==> m.runs[x] == n.runs[x]) &&
      match Last(m.history)
      case StartedUpdater(_) => !n.inProgress && m.inProgress && m.runs[step.id].stage == Unwinding(true) && m.owner == n.owner
      case Recorded(_) => m.inProgress == n.inProgress && m.runs[step.id].stage == Unwinding(false) && m.owner == n.owner
      case Cleared(_) =>
        m.inProgress == n.inProgress && n.runs[step.id].stage.Unwinding? && m.owner == None &&
        m.runs[step.id].stage == Over(n.runs[step.id].stage.ok)
  {
    hide Work, Claim, CanClaim, HistoryOk, LocksFit;
    OwnerOf(n, step.id);
  }

  lemma OwnerOf(n: Node, id: RunId)
    requires OneOwner(n)
    ensures id in n.runs && n.runs[id].stage.Claims() ==> n.owner == Some(id)
    ensures HandedOver(n) && id in n.runs && n.owner == Some(id) && n.runs[id].stage != Unwinding(true) ==> !n.inProgress
  {}

  lemma ActStepOk(c: Config, n: Node, step: Step)
    requires Inv(n) && Acts(step)
    ensures Inv(Apply(c, n, step))
  {
    hide Apply, LocksFit, HistoryOk, OneOwner, HandedOver;
    var m := Apply(c, n, step);
    if m != n {
      ActLocks(c, n, step);
      ActShape(c, n, step);
      ActHistoryOk(n, m, step.id, Last(m.history));
    }
  }

  lemma StateNotWrittenOk(c: Config, n: Node, step: Step)
    requires Inv(n) && step.StateWritten? && !step.ok
    ensures Inv(Apply(c, n, step))
  {
    var m := Apply(c, n, step);
    if m != n {
      hide HistoryOk, LocksFit;
      ActLocks(c, n, step);
      WorkOk(n, m, step.id);
    }
  }

  lemma UpgradeOk(c: Config, n: Node, id: RunId)
    requires Inv(n)
    ensures Inv(Apply(c, n, Upgrade(id)))
  {
    if id !in n.runs {
      if CanClaim(n) {
        hide HistoryOk;
        ClaimOk(c, n, id, Local);
      } else {
        var m := Apply(c, n, Upgrade(id));
        hide HistoryOk;
        OneLockFits(n, m, id);
        QuietOk(n, m);
      }
    }
  }

  lemma PushArrivesOk(c: Config, n: Node, id: RunId)
    requires Inv(n)
    ensures Inv(Apply(c, n, PushArrives(id)))
  {
    if id !in n.runs {
      var m := Apply(c, n, PushArrives(id));
      hide HistoryOk;
      OneLockFits(n, m, id);
      QuietOk(n, m);
    }
  }

  lemma LockReadOk(c: Config, n: Node, id: RunId, held: bool, verified: bool)
    requires Inv(n)
    ensures Inv(Apply(c, n, LockRead(id, held, verified)))
  {
    hide HistoryOk, LocksFit, OneOwner, HandedOver, CanClaim, Quiet, Claim;
    if n.Stage(id) == CheckingLock {
      if !held && verified && CanClaim(n) {
        ClaimOk(c, n, id, Remote);
      } else {
        TurnedAway(n, id);
      }
    }
  }

  lemma TurnedAway(n: Node, id: RunId)
    requires Inv(n) && n.Stage(id) == CheckingLock
    ensures Inv(n.At(id, Turned))
  {
    hide HistoryOk, LocksFit, OneOwner, HandedOver;
    var m := n.At(id, Turned);
    FitOf(n, id);
    OneLockFits(n, m, id);
    QuietOk(n, m);
  }

  lemma OutsideFits(c: Config, n: Node, step: Step)
    requires LocksFit(n) && (step.OutsideLocks? || step.OutsideUnlocks? || step.ShutdownBegins?)
    ensures LocksFit(Apply(c, n, step))
  {
    var m := Apply(c, n, step);
    forall x | x in m.runs
      ensures LockFits(m, x, m.runs[x])
    {
      assert LockFits(n, x, n.runs[x]);
    }
  }

  lemma OutsideOk(c: Config, n: Node, step: Step)
    requires Inv(n) && (step.OutsideLocks? || step.OutsideUnlocks? || step.ShutdownBegins?)
    ensures Inv(Apply(c, n, step))
  {
    hide HistoryOk, LocksFit, OneOwner, HandedOver;
    OutsideFits(c, n, step);
    QuietOk(n, Apply(c, n, step));
  }

  lemma StepKeepsInv(c: Config, n: Node, step: Step)
    requires Inv(n)
    ensures Inv(Apply(c, n, step))
  {
    if Works(step) {
      assert Apply(c, n, step) == Work(n, step.id, step);
      hide Inv, Apply;
      WorkStepOk(c, n, step.id, step);
    } else {
      OtherStepOk(c, n, step);
    }
  }

  lemma OtherStepOk(c: Config, n: Node, step: Step)
    requires Inv(n) && !Works(step)
    ensures Inv(Apply(c, n, step))
  {
    hide Inv, Apply;
    match step
    case Upgrade(id) => UpgradeOk(c, n, id);
    case PushArrives(id) => PushArrivesOk(c, n, id);
    case LockRead(id, held, verified) => LockReadOk(c, n, id, held, verified);
    case StateWritten(_, ok) => if ok { ActStepOk(c, n, step); } else { StateNotWrittenOk(c, n, step); }
    case ResultWritten(_) => ActStepOk(c, n, step);
    case Settled(_) => ActStepOk(c, n, step);
    case ShutdownBegins => OutsideOk(c, n, step);
    case OutsideLocks => OutsideOk(c, n, step);
    case OutsideUnlocks => OutsideOk(c, n, step);
  }

  lemma {:induction false} RunKeepsInv(c: Config, steps: seq<Step>)
    ensures Inv(Run(c, IDLE, steps))
  {
    hide Inv;
    if steps == [] {
      IdleInv();
    } else {
      RunKeepsInv(c, Init(steps));
      StepKeepsInv(c, Run(c, IDLE, Init(steps)), Last(steps));
    }
  }

  lemma IdleInv()
    ensures Inv(IDLE)
  {}

  // ---- Results -------------------------------------------------------------

  /** At most one run is inside `runUpgrade`, local or pushed, and the node is busy for
      as long as one is, and for good once one has succeeded. */
  lemma SingleFlight(c: Config, steps: seq<Step>, a: RunId, b: RunId)
    ensures var n := Run(c, IDLE, steps);
      (a in n.runs && n.runs[a].stage.Claims() ==> n.Busy() && (b in n.runs && n.runs[b].stage.Claims() ==> a == b)) &&
      (a in n.runs && n.runs[a].stage.Won() ==> n.inProgress) &&
      (n.pending ==> exists id :: id in n.runs && n.runs[id].stage.Claims())
  {
    RunKeepsInv(c, steps);
    var n := Run(c, IDLE, steps);
    hide Run, LocksFit, HistoryOk;
    assert n.owner.Some? ==> n.owner.value in n.runs && n.runs[n.owner.value].stage.Claims();
  }

  /** `busy` never drops between a claim and the hand-over to the updater: it falls only
      when a failed run lets go. */
  lemma BusyDropsOnlyOnFailure(c: Config, steps: seq<Step>, step: Step)
    ensures var n := Run(c, IDLE, steps);
      var m := Apply(c, n, step);
      n.Busy() && !m.Busy() ==> step.Settled? && n.Stage(step.id) == Unwinding(false) && m.Stage(step.id) == Over(false)
    ensures Run(c, IDLE, steps).inProgress ==> Apply(c, Run(c, IDLE, steps), step).inProgress
  {
    RunKeepsInv(c, steps);
    hide Run, LocksFit, HistoryOk;
  }

  /** The updater is started at most once per process, and nobody claims the node after. */
  lemma UpdaterStartsOnce(c: Config, steps: seq<Step>)
    ensures var n := Run(c, IDLE, steps);
      (forall i, j :: 0 <= i < j < |n.history| && n.history[i].StartedUpdater? ==>
        !n.history[j].StartedUpdater? && !n.history[j].Claimed?) &&
      (n.inProgress ==> !CanClaim(n))
  {
    RunKeepsInv(c, steps);
    StartedStays(c, steps);
  }

  lemma StartedMeans(n: Node)
    requires HistoryOk(n)
    ensures forall i :: 0 <= i < |n.history| && n.history[i].StartedUpdater? ==> n.inProgress
  {}

  lemma {:induction false} StartedStays(c: Config, steps: seq<Step>)
    ensures var n := Run(c, IDLE, steps);
      forall i, j :: 0 <= i < j < |n.history| && n.history[i].StartedUpdater? ==> !n.history[j].Claimed?
  {
    hide Apply, HistoryOk, LocksFit, OneOwner, HandedOver;
    if steps != [] {
      StartedStays(c, Init(steps));
      RunKeepsInv(c, Init(steps));
      var n := Run(c, IDLE, Init(steps));
      StartedMeans(n);
      HistoryGrows(c, n, Last(steps));
      var history := Apply(c, n, Last(steps)).history;
      assert forall i :: 0 <= i < |n.history| ==> history[i] == history[..|n.history|][i];
    }
  }

  lemma HistoryGrows(c: Config, n: Node, step: Step)
    ensures var m := Apply(c, n, step);
      |n.history| <= |m.history| <= |n.history| + 1 && m.history[..|n.history|] == n.history &&
      (|m.history| > |n.history| && Last(m.history).Claimed? ==> !n.inProgress)
  {}

  /** A run that took the lock and failed has asked for its release exactly once, and
      the lock is no longer its own unless the removal itself failed. A run that
      succeeded leaves the lock to the updater. */
  lemma FailedRunReleased(c: Config, steps: seq<Step>, id: RunId)
    ensures var n := Run(c, IDLE, steps);
      id in n.runs && n.runs[id].stage.Failing() ==>
        n.runs[id].releases == (if n.runs[id].tookLock then 1 else 0) &&
        (n.lock == HeldBy(id) <==> n.runs[id].tookLock && n.runs[id].lockStuck)
    ensures var n := Run(c, IDLE, steps);
      id in n.runs && n.runs[id].stage.Won() ==> n.runs[id].tookLock && n.runs[id].releases == 0
    ensures var n := Run(c, IDLE, steps);
      id in n.runs && n.runs[id].stage.Failing() && LockRemoved(id, false) !in steps ==> n.lock != HeldBy(id)
  {
    RunKeepsInv(c, steps);
    StuckMeans(c, steps, id);
    hide Run, OneOwner, HandedOver, HistoryOk;
  }

  predicate Stuck(n: Node, id: RunId) { id in n.runs && n.runs[id].lockStuck }

  lemma {:induction false} StuckMeans(c: Config, steps: seq<Step>, id: RunId)
    ensures Stuck(Run(c, IDLE, steps), id) ==> LockRemoved(id, false) in steps
  {
    if steps != [] {
      hide Apply, Stuck;
      StuckMeans(c, Init(steps), id);
      StuckStep(c, Run(c, IDLE, Init(steps)), Last(steps), id);
    }
  }

  lemma StuckStep(c: Config, n: Node, step: Step, id: RunId)
    ensures Stuck(Apply(c, n, step), id) ==> Stuck(n, id) || step == LockRemoved(id, false)
  {
    hide Work, CanClaim;
    if Works(step) { WorkStuck(n, step.id, step, id); }
  }

  lemma WorkStuck(n: Node, own: RunId, step: Step, id: RunId)
    requires Works(step) && step.id == own
    ensures Stuck(Work(n, own, step), id) ==> Stuck(n, id) || step == LockRemoved(id, false)
  {
    hide Moved;
  }

  predicate NoClaims(history: seq<Act>) { forall k :: 0 <= k < |history| ==> !history[k].Claimed? }

  /** Once the daemon is shutting down nobody claims the node any more. */
  lemma {:induction false} NoClaimInShutdown(c: Config, n: Node, steps: seq<Step>)
    ensures var m := Run(c, Apply(c, n, ShutdownBegins), steps);
      m.shuttingDown && n.history <= m.history && NoClaims(m.history[|n.history|..])
  {
    if steps != [] {
      var m := Run(c, Apply(c, n, ShutdownBegins), Init(steps));
      NoClaimInShutdown(c, n, Init(steps));
      hide Run, Apply;
      ClaimsNothing(c, m, Last(steps));
      var r := Apply(c, m, Last(steps));
      assert r.history[|n.history|..] == m.history[|n.history|..] + r.history[|m.history|..];
    }
  }

  lemma ClaimsNothing(c: Config, m: Node, step: Step)
    requires m.shuttingDown
    ensures var r := Apply(c, m, step);
      r.shuttingDown && m.history <= r.history && NoClaims(r.history[|m.history|..])
  {}

  /** A run fails after it has taken the lock, and its lock file cannot be removed. */
  function StuckRun(id: RunId): seq<Step> {
    [Upgrade(id), Resolved(id, true), Prepared(id, true), RollbackCached(id)] +
    [LockAnswered(id, true), UpdaterWritten(id, false), LockRemoved(id, false), Settled(id)]
  }

  lemma RunFour(c: Config, n: Node, before: seq<Step>, s0: Step, s1: Step, s2: Step, s3: Step)
    ensures Run(c, n, before + [s0, s1, s2, s3]) ==
      Apply(c, Apply(c, Apply(c, Apply(c, Run(c, n, before), s0), s1), s2), s3)
  {
    hide Apply;
    RunOneMore(c, n, before, s0);
    RunOneMore(c, n, before + [s0], s1);
    RunOneMore(c, n, before + [s0] + [s1], s2);
    RunOneMore(c, n, before + [s0] + [s1] + [s2], s3);
    assert before + [s0, s1, s2, s3] == before + [s0] + [s1] + [s2] + [s3];
  }

  lemma RunOneMore(c: Config, n: Node, before: seq<Step>, step: Step)
    ensures Run(c, n, before + [step]) == Apply(c, Run(c, n, before), step)
  {
    assert Init(before + [step]) == before;
  }

  lemma HalfStuck(c: Config, id: RunId)
    requires c.canRestart
    ensures Run(c, IDLE, StuckRun(id)[..4]) ==
      IDLE.(pending := true, owner := Some(id), history := [Claimed(id)], runs := map[id := New(Local, Locking)])
  {
    var half: seq<Step> := [Upgrade(id), Resolved(id, true), Prepared(id, true), RollbackCached(id)];
    assert StuckRun(id)[..4] == [] + half;
    hide Run;
    RunNothing(c, IDLE);
    RunFour(c, IDLE, [], half[0], half[1], half[2], half[3]);
  }

  lemma RunNothing(c: Config, n: Node)
    ensures Run(c, n, []) == n
  {}

  /** Then it is over, the node is free to be claimed again, and the lock is still there. */
  lemma LockCanStick(c: Config, id: RunId)
    requires c.canRestart
    ensures var n := Run(c, IDLE, StuckRun(id));
      n.Stage(id) == Over(false) && n.runs[id].lockStuck && n.lock == HeldBy(id) && CanClaim(n)
  {
    hide Run;
    var half := StuckRun(id)[..4];
    HalfStuck(c, id);
    assert StuckRun(id) == half + [LockAnswered(id, true), UpdaterWritten(id, false), LockRemoved(id, false), Settled(id)];
    RunFour(c, IDLE, half, LockAnswered(id, true), UpdaterWritten(id, false), LockRemoved(id, false), Settled(id));
  }

  /** Between two claims of the node the first run has failed and let go; if it was
      pushed, the attempt to write its outcome had been made before. */
  lemma OutcomeBeforeNextClaim(c: Config, steps: seq<Step>, i: nat, j: nat)
    requires var history := Run(c, IDLE, steps).history;
      i < j < |history| && history[i].Claimed? && history[j].Claimed?
    ensures var n := Run(c, IDLE, steps);
      Answered(n, i, j, n.history[i].id)
  {
    RunKeepsInv(c, steps);
  }
}
