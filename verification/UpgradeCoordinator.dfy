/** The coordinator as the program runs it: each run goes through its awaits while other
    runs, and the world, do as they like in between. */
module UpgradeCoordinators {
  import opened Basics
  import opened Coordinators

  /** The step is not one of run `id`. */
  predicate Foreign(step: Step, id: RunId) {
    step.ShutdownBegins? || step.OutsideLocks? || step.OutsideUnlocks? || step.id != id
  }

  /** Run `id` and its claim of the node are as they were. */
  predicate Kept(n: Node, m: Node, id: RunId)
    requires id in n.runs
  {
    id in m.runs && m.runs[id] == n.runs[id] && (n.owner == Some(id) ==> m.owner == Some(id))
  }

  lemma ForeignWorkKeeps(n: Node, step: Step, id: RunId)
    requires Works(step) && step.id != id && id in n.runs
    ensures Kept(n, Work(n, step.id, step), id)
  {
    hide Moved, Works;
  }

  /** Another run can claim the node or let it go only if `id` does not hold it. */
  lemma ForeignClaimKeeps(c: Config, n: Node, step: Step, id: RunId)
    requires OneOwner(n) && id in n.runs && (step.Upgrade? || step.PushArrives? || step.LockRead?) && step.id != id
    ensures Kept(n, Apply(c, n, step), id)
  {
    hide Work;
  }

  lemma ForeignActKeeps(c: Config, n: Node, step: Step, id: RunId)
    requires OneOwner(n) && id in n.runs && (step.StateWritten? || step.ResultWritten? || step.Settled?) && step.id != id
    ensures Kept(n, Apply(c, n, step), id)
  {
    hide Work, Claim, CanClaim;
  }

  lemma OutsideKeeps(c: Config, n: Node, step: Step, id: RunId)
    requires id in n.runs && (step.ShutdownBegins? || step.OutsideLocks? || step.OutsideUnlocks?)
    ensures Kept(n, Apply(c, n, step), id)
  {
    hide Work, Claim, CanClaim;
  }

  /** What others can do leaves a run's own state alone, and its claim of the node. */
  lemma ForeignKeeps(c: Config, n: Node, step: Step, id: RunId)
    requires Inv(n) && Foreign(step, id) && id in n.runs
    ensures Kept(n, Apply(c, n, step), id)
  {
    OwnerOf(n);
    if Works(step) {
      assert Apply(c, n, step) == Work(n, step.id, step);
      hide Apply, Work, Kept, Inv;
      ForeignWorkKeeps(n, step, id);
    } else {
      hide Apply, Work, Kept, Inv;
      match step
      case ShutdownBegins => OutsideKeeps(c, n, step, id);
      case OutsideLocks => OutsideKeeps(c, n, step, id);
      case OutsideUnlocks => OutsideKeeps(c, n, step, id);
      case Upgrade(_) => ForeignClaimKeeps(c, n, step, id);
      case PushArrives(_) => ForeignClaimKeeps(c, n, step, id);
      case LockRead(_, _, _) => ForeignClaimKeeps(c, n, step, id);
      case _ => ForeignActKeeps(c, n, step, id);
    }
  }

  lemma OwnerOf(n: Node)
    requires Inv(n)
    ensures OneOwner(n)
  {}

  // ---- What the machine does, step by step ---------------------------------

  lemma UpgradeStep(c: Config, n: Node, id: RunId)
    requires id !in n.runs
    ensures var m := Apply(c, n, Upgrade(id));
      id in m.runs && m.inProgress == n.inProgress &&
      (if CanClaim(n) then m.runs[id] == New(Local, if c.canRestart then Resolving else Unwinding(false)) && m.owner == Some(id) && m.pending
       else m.runs[id].stage == Turned && m.pending == n.pending)
  {}

  lemma PushStep(c: Config, n: Node, id: RunId)
    requires id !in n.runs
    ensures var m := Apply(c, n, PushArrives(id));
      m.inProgress == n.inProgress && m.pending == n.pending && m.shuttingDown == n.shuttingDown && id in m.runs &&
      m.runs[id] == New(Remote, if c.allowRemote && c.canRestart && CanClaim(n) then CheckingLock else Turned)
  {}

  lemma ReadStep(c: Config, n: Node, id: RunId, held: bool, verified: bool)
    requires id in n.runs && n.runs[id].stage.CheckingLock?
    ensures var m := Apply(c, n, LockRead(id, held, verified));
      id in m.runs && m.inProgress == n.inProgress &&
      (if held || !verified || !CanClaim(n) then m.runs[id].stage == Turned && m.pending == n.pending
       else m.runs[id] == New(Remote, if c.canRestart then Resolving else Recording) && m.owner == Some(id) && m.pending)
  {}

  lemma StateStep(c: Config, n: Node, id: RunId, ok: bool)
    requires id in n.runs && n.runs[id].stage.WritingState?
    ensures var m := Apply(c, n, StateWritten(id, ok));
      m.pending == n.pending && m.owner == n.owner && id in m.runs && m.inProgress == (n.inProgress || ok) &&
      m.runs[id] == n.runs[id].(stage := if ok then Unwinding(true) else Releasing)
  {}

  lemma RecordStep(c: Config, n: Node, id: RunId)
    requires id in n.runs && n.runs[id].stage.Recording?
    ensures var m := Apply(c, n, ResultWritten(id));
      m.pending == n.pending && m.owner == n.owner && id in m.runs && m.inProgress == n.inProgress &&
      m.runs[id] == n.runs[id].(stage := Unwinding(false))
  {}

  lemma SettleStep(c: Config, n: Node, id: RunId)
    requires id in n.runs && n.runs[id].stage.Unwinding?
    ensures var m := Apply(c, n, Settled(id));
      !m.pending && m.inProgress == n.inProgress && id in m.runs && m.runs[id] == n.runs[id].(stage := Over(n.runs[id].stage.ok))
  {}

  /** How the calls a run makes turn out. Whether it gets the lock is decided by the lock. */
  datatype Answers = Answers(resolved: bool, prepared: bool, updaterWritten: bool, stateWritten: bool, lockRemoved: bool)

  class UpgradeCoordinator {
    const config: Config
    var inProgress: bool
    var pending: bool
    var node: Node
    ghost var trace: seq<Step>

    /** The two fields are the machine's, and the machine is where its steps lead. */
    ghost predicate Valid()
      reads this
    {
      inProgress == node.inProgress && pending == node.pending && node == Run(config, IDLE, trace) && Inv(node)
    }

    predicate Busy()
      reads this
    {
      inProgress || pending
    }

    constructor (config: Config)
      ensures Valid() && node == IDLE && this.config == config
    {
      this.config := config;
      inProgress, pending, node, trace := false, false, IDLE, [];
      IdleInv();
    }

    /** One step of the machine. The caller keeps the two fields in step with it. */
    method Step(step: Step)
      requires node == Run(config, IDLE, trace) && Inv(node)
      modifies `node, `trace
      ensures node == Apply(config, old(node), step) && node == Run(config, IDLE, trace) && Inv(node)
    {
      hide Inv, Apply;
      StepKeepsInv(config, node, step);
      node := Apply(config, node, step);
      trace := trace + [step];
      assert Init(trace) == old(trace);
    }

    /** An await of run `id`: any number of steps that are not its own. */
    method Await(id: RunId)
      requires Valid() && id in node.runs
      modifies this
      ensures Valid() && id in node.runs && node.runs[id] == old(node.runs[id])
      ensures old(node.owner) == Some(id) ==> node.owner == Some(id)
    {
      hide Inv, Apply;
      var rounds: nat := *;
      while rounds > 0
        invariant Valid() && id in node.runs && node.runs[id] == old(node.runs[id])
        invariant old(node.owner) == Some(id) ==> node.owner == Some(id)
      {
        var step: Step := *;
        if Foreign(step, id) {
          ForeignKeeps(config, node, step, id);
          Step(step);
          inProgress, pending := node.inProgress, node.pending;
        }
        rounds := rounds - 1;
      }
    }

    /** Run `id` holds the claim and stands at `stage`. */
    predicate Standing(id: RunId, kind: Kind, stage: Stage)
      reads this
    {
      node.owner == Some(id) && id in node.runs && node.runs[id].kind == kind && node.runs[id].stage == stage
    }

    /** A step inside `runUpgrade` that changes neither field. */
    method GoOn(id: RunId, ghost kind: Kind, ghost from: Stage, step: Coordinators.Step, ghost to: Stage)
      requires Valid() && Standing(id, kind, from) && Works(step) && step.id == id
      requires Moved(node.runs[id], step) == Some(to) && (to.WritingUpdater? ==> node.lock.Free?)
      modifies this
      ensures Valid() && Standing(id, kind, to)
      ensures node.runs[id].tookLock == (old(node.runs[id].tookLock) || to.WritingUpdater?) && node == Work(old(node), id, step)
    {
      hide Inv, Moved, Run;
      Step(step);
    }

    /** The release is found, downloaded, verified and checked. */
    method PrepareRelease(id: RunId, ghost kind: Kind, a: Answers) returns (ok: bool)
      requires Valid() && Standing(id, kind, Resolving)
      modifies this
      ensures Valid() && Standing(id, kind, if ok then CachingRollback else Failure(kind))
      ensures ok == (a.resolved && a.prepared) && node.runs[id].tookLock == old(node.runs[id].tookLock)
    {
      hide Inv, Run, Apply;
      Await(id);
      ok := a.resolved;
      GoOn(id, kind, Resolving, Resolved(id, ok), if ok then Preparing else Failure(kind));
      if ok {
        Await(id);
        ok := a.prepared;
        GoOn(id, kind, Preparing, Prepared(id, ok), if ok then CachingRollback else Failure(kind));
      }
    }

    /** A copy to roll back to is fetched if it can be, and the lock is asked for: it is
        got if it is free then. */
    method TakeLock(id: RunId, ghost kind: Kind) returns (got: bool)
      requires Valid() && Standing(id, kind, CachingRollback) && !node.runs[id].tookLock
      modifies this
      ensures Valid() && Standing(id, kind, if got then WritingUpdater else Failure(kind))
      ensures got == node.runs[id].tookLock && (!got ==> !node.lock.Free?)
    {
      hide Inv, Run, Apply;
      Await(id);
      GoOn(id, kind, CachingRollback, RollbackCached(id), Locking);
      Await(id);
      got := node.lock.Free?;
      ghost var asked := node;
      GoOn(id, kind, Locking, LockAnswered(id, got), if got then WritingUpdater else Failure(kind));
      if !got { RefusedLock(asked, id); }
    }

    method ReleaseLock(id: RunId, ghost kind: Kind, a: Answers)
      requires Valid() && Standing(id, kind, Releasing)
      modifies this
      ensures Valid() && Standing(id, kind, Failure(kind)) && node.runs[id].tookLock == old(node.runs[id].tookLock)
    {
      hide Inv, Run, Apply;
      Await(id);
      GoOn(id, kind, Releasing, LockRemoved(id, a.lockRemoved), Failure(kind));
    }

    /** The updater is started, or the run fails with the lock still to release. */
    method StartUpdater(id: RunId, ghost kind: Kind, a: Answers) returns (ok: bool)
      requires Valid() && Standing(id, kind, WritingUpdater)
      modifies this
      ensures Valid() && Standing(id, kind, if ok then Unwinding(true) else Releasing)
      ensures ok == (a.updaterWritten && a.stateWritten) && node.runs[id].tookLock == old(node.runs[id].tookLock)
      ensures ok ==> inProgress
    {
      hide Inv, Run, Apply;
      Await(id);
      ok := a.updaterWritten;
      GoOn(id, kind, WritingUpdater, UpdaterWritten(id, ok), if ok then WritingState else Releasing);
      if ok {
        Await(id);
        ok := a.stateWritten;
        StateStep(config, node, id, ok);
        Step(StateWritten(id, ok));
        inProgress := inProgress || ok;
      }
    }

    /** All went well, and the lock was got. */
    predicate Succeeds(id: RunId, a: Answers)
      reads this
      requires id in node.runs
    {
      config.canRestart && a.resolved && a.prepared && node.runs[id].tookLock && a.updaterWritten && a.stateWritten
    }

    /** `runUpgrade`, by a run that holds the claim: it succeeds exactly if every call does
        and the lock is got. A failure leaves it where the caller cleans up; a success has
        set `inProgress` while `pending` still holds. */
    method RunUpgrade(id: RunId, ghost kind: Kind, a: Answers) returns (ok: bool)
      requires Valid() && Standing(id, kind, if config.canRestart then Resolving else Failure(kind)) && !node.runs[id].tookLock
      modifies this
      ensures Valid() && pending && Standing(id, kind, if ok then Unwinding(true) else Failure(kind))
      ensures ok == Succeeds(id, a)
      ensures ok ==> inProgress
    {
      hide Inv, Run, Apply;
      ok := false;
      if config.canRestart {
        var ready := PrepareRelease(id, kind, a);
        if ready {
          ready := TakeLock(id, kind);
        }
        if ready {
          ok := StartUpdater(id, kind, a);
          if !ok {
            ReleaseLock(id, kind, a);
          }
        }
      }
      OwnerIsPending();
    }

    lemma OwnerIsPending()
      requires Inv(node) && node.owner.Some?
      ensures node.pending
    {}

    /** `upgradeSelf`. Refused, it changes neither field; otherwise it ends with the claim
        dropped, and with the node handed over exactly if it succeeded. */
    method UpgradeSelf(id: RunId, a: Answers) returns (started: Option<bool>)
      requires Valid() && id !in node.runs
      modifies this
      ensures Valid() && id in node.runs
      ensures started.None? <==> old(Busy()) || old(node.shuttingDown)
      ensures started.None? ==> inProgress == old(inProgress) && pending == old(pending) && node.runs[id].stage == Turned
      ensures started.Some? ==> started.value == Succeeds(id, a) && node.runs[id].stage == Over(started.value) && !pending
      ensures started == Some(true) ==> inProgress
    {
      hide Inv, Run, Apply, Claim;
      UpgradeStep(config, node, id);
      if node.shuttingDown || inProgress || pending {
        Step(Upgrade(id));
        return None;
      }
      Step(Upgrade(id));
      pending := true;
      var ok := RunUpgrade(id, Local, a);
      Await(id);
      WonIsInProgress(id);
      SettleStep(config, node, id);
      Step(Settled(id));
      pending := false;
      return Some(ok);
    }

    lemma WonIsInProgress(id: RunId)
      requires Inv(node) && id in node.runs
      ensures node.runs[id].stage.Won() ==> node.inProgress
    {}

    /** `acceptRemote` up to its reply, which comes with the claim. A push is accepted
        exactly if it is allowed, the node can restart, it is neither busy nor shutting down
        at either check, the lock file shows no other upgrade, and the push is verified.
        `checked` is the node once the lock file has been read. */
    method AcceptRemote(id: RunId, lockHeld: bool, verified: bool) returns (accepted: bool, ghost checked: Option<Node>)
      requires Valid() && id !in node.runs
      modifies this
      ensures Valid() && id in node.runs
      ensures checked.None? <==> !config.allowRemote || !config.canRestart || old(Busy()) || old(node.shuttingDown)
      ensures checked.None? ==> !accepted && node == Apply(config, old(node), PushArrives(id))
      ensures checked.Some? ==> node == Apply(config, checked.value, LockRead(id, lockHeld, verified))
      ensures checked.Some? ==> (accepted <==> !lockHeld && verified && !checked.value.Busy() && !checked.value.shuttingDown)
      ensures if accepted then pending && Standing(id, Remote, Resolving) && !node.runs[id].tookLock else node.runs[id].stage == Turned
    {
      hide Inv, Run, Apply, Claim;
      PushStep(config, node, id);
      Step(PushArrives(id));
      if !config.allowRemote || !config.canRestart || node.shuttingDown || inProgress || pending {
        return false, None;
      }
      Await(id);
      checked := Some(node);
      ReadStep(config, node, id, lockHeld, verified);
      if lockHeld || inProgress || pending || !verified || node.shuttingDown {
        Step(LockRead(id, lockHeld, verified));
        return false, checked;
      }
      Step(LockRead(id, lockHeld, verified));
      pending := true;
      return true, checked;
    }

    /** What an accepted push goes on to do after the reply. The outcome of a failure is
        written before the claim is dropped. */
    method RunInBackground(id: RunId, a: Answers) returns (ok: bool)
      requires Valid() && config.canRestart && Standing(id, Remote, Resolving) && !node.runs[id].tookLock
      modifies this
      ensures Valid() && id in node.runs && node.runs[id].stage == Over(ok) && !pending
      ensures ok == Succeeds(id, a) && (ok ==> inProgress)
    {
      hide Inv, Run, Apply;
      ok := RunUpgrade(id, Remote, a);
      Await(id);
      if !ok {
        RecordStep(config, node, id);
        Step(ResultWritten(id));
        Await(id);
      }
      WonIsInProgress(id);
      SettleStep(config, node, id);
      Step(Settled(id));
      pending := false;
    }
  }

  lemma RefusedLock(n: Node, id: RunId)
    requires id in n.runs && n.runs[id].stage == Locking
    ensures Work(n, id, LockAnswered(id, false)).lock == n.lock
  {}
}
