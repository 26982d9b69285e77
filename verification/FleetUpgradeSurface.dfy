/** The surface as the program runs it: each request goes through its awaits while other
    requests, and rollouts in the background, do as they like in between. */
module FleetUpgradeSurfaces {
  import opened Basics
  import opened FleetUpgrades

  datatype Reply = Locked | UnknownNode | Failed | Started

  /** The step is not one of fleet request `id`; its rollout's loop is another matter. */
  predicate Foreign(step: Step, id: Id) {
    step.LoopEnds? || step.LoopAsksSelf? || step.LoopSelfAnswered? || step.SelfRequest? || step.SelfSettled? || step.id != id
  }

  /** Request `id` stands where it stood, and has a rollout or none as before. */
  predicate Kept(n: Surface, m: Surface, id: Id)
    requires id in n.requests
  {
    id in m.requests && m.requests[id] == n.requests[id] && (id in m.loops <==> id in n.loops)
  }

  lemma LoopKeeps(n: Surface, step: Step, id: Id)
    requires id in n.requests && (step.LoopEnds? || step.LoopAsksSelf? || step.LoopSelfAnswered?)
    ensures Kept(n, Apply(n, step), id)
  {
    hide Answer, Finally;
  }

  lemma SelfKeeps(n: Surface, step: Step, id: Id)
    requires id in n.requests && (step.SelfRequest? || step.SelfSettled?)
    ensures Kept(n, Apply(n, step), id)
  {
    hide Answer, Finally, LoopOver;
  }

  lemma OtherRequestKeeps(n: Surface, step: Step, id: Id)
    requires id in n.requests && step.id != id && (step.FleetRequest? || step.Listed? || step.Returned?)
    ensures Kept(n, Apply(n, step), id)
  {
    hide Answer, LoopOver;
  }

  lemma OtherAnswerKeeps(n: Surface, step: Step, id: Id)
    requires id in n.requests && step.id != id
    ensures Kept(n, Answer(n, step), id)
  {
    hide Awaited;
  }

  lemma ForeignKeeps(n: Surface, step: Step, id: Id)
    requires Foreign(step, id) && id in n.requests
    ensures Kept(n, Apply(n, step), id)
  {
    hide Kept, Answer, Finally, LoopOver;
    if step.LoopEnds? || step.LoopAsksSelf? || step.LoopSelfAnswered? {
      LoopKeeps(n, step, id);
    } else if step.SelfRequest? || step.SelfSettled? {
      SelfKeeps(n, step, id);
    } else if step.FleetRequest? || step.Listed? || step.Returned? {
      OtherRequestKeeps(n, step, id);
    } else {
      OtherAnswerKeeps(n, step, id);
    }
  }

  lemma OnItsWayIsStarting(n: Surface, id: Id)
    requires Inv(n) && n.OnItsWay(id)
    ensures n.starting
  {
    assert n.Occupied(id);
  }

  lemma RequestStep(n: Surface, id: Id, unknownNode: bool, explicitVersion: bool)
    requires id !in n.requests
    ensures var m := Apply(n, FleetRequest(id, unknownNode, explicitVersion));
      id in m.requests && m.loops == n.loops &&
      if n.Busy() || unknownNode then m == n.At(id, Turned)
      else m.starting && m.requests[id] == if explicitVersion then Preparing else Checking
  {}

  lemma AnswerStep(n: Surface, step: Step)
    requires Awaited(step).Some? && step.id in n.requests && n.requests[step.id] == Awaited(step).value.0
    ensures var m := Apply(n, step);
      step.id in m.requests && m.loops == n.loops && m.starting == (n.starting && step.ok) &&
      m.requests[step.id] == if step.ok then Awaited(step).value.1 else Ended
  {
    IsAnswer(n, step);
    hide Apply;
  }

  lemma IsAnswer(n: Surface, step: Step)
    requires Awaited(step).Some?
    ensures Apply(n, step) == Answer(n, step)
  {
    hide Answer, Finally, LoopOver;
  }

  lemma ListedStep(n: Surface, id: Id, ok: bool)
    requires id in n.requests && n.requests[id] == Listing
    ensures var m := Apply(n, Listed(id, ok));
      id in m.requests && m.requests[id] == Returning(ok) && m.starting == n.starting &&
      m.loops == if ok then n.loops[id := Running] else n.loops
  {}

  lemma ReturnedStep(n: Surface, id: Id)
    requires id in n.requests && n.requests[id].Returning?
    ensures var m := Apply(n, Returned(id));
      id in m.requests && m.requests[id] == Ended && !m.starting && m.loops == n.loops
  {}

  /** How the calls of a start turn out. */
  datatype Answers = Answers(checked: bool, prepared: bool, manifestRead: bool, signatureRead: bool, listed: bool)

  /** The latest version is asked for only if none is named. */
  predicate AllWell(explicitVersion: bool, a: Answers) {
    (explicitVersion || a.checked) && a.prepared && a.manifestRead && a.signatureRead && a.listed
  }

  class FleetUpgradeSurface {
    var starting: bool
    var node: Surface
    ghost var trace: seq<Step>

    ghost predicate Valid()
      reads this
    {
      starting == node.starting && node == Run(IDLE, trace) && Inv(node)
    }

    predicate RolloutBusy()
      reads this
    {
      starting || (node.current.Some? && node.LoopAlive(node.current.value))
    }

    constructor ()
      ensures Valid() && node == IDLE
    {
      starting, node, trace := false, IDLE, [];
      new;
      RunKeepsInv([]);
    }

    /** One step of the machine. The caller keeps `starting` in step with it. */
    method Step(step: Step)
      requires node == Run(IDLE, trace) && Inv(node)
      modifies `node, `trace
      ensures node == Apply(old(node), step) && node == Run(IDLE, trace) && Inv(node)
    {
      hide Inv, Apply;
      StepKeepsInv(node, step);
      node := Apply(node, step);
      trace := trace + [step];
      assert Init(trace) == old(trace);
    }

    /** An await of fleet request `id`: any number of steps that are not its own. */
    method Await(id: Id)
      requires Valid() && id in node.requests
      modifies this
      ensures Valid() && id in node.requests && node.requests[id] == old(node.requests[id])
      ensures id in node.loops <==> old(id in node.loops)
    {
      hide Inv, Apply;
      var rounds: nat := *;
      while rounds > 0
        invariant Valid() && id in node.requests && node.requests[id] == old(node.requests[id])
        invariant id in node.loops <==> old(id in node.loops)
      {
        var step: FleetUpgrades.Step := *;
        if Foreign(step, id) {
          ForeignKeeps(node, step, id);
          Step(step);
          starting := node.starting;
        }
        rounds := rounds - 1;
      }
    }

    /** An await whose failure leads through `finally`. */
    method Answered(id: Id, step: FleetUpgrades.Step)
      requires Valid() && Awaited(step).Some? && step.id == id && id in node.requests && node.requests[id] == Awaited(step).value.0
      modifies this
      ensures Valid() && id in node.requests && node.loops == old(node.loops)
      ensures node.requests[id] == if step.ok then Awaited(step).value.1 else Ended
      ensures !step.ok ==> !starting
    {
      hide Inv, Apply, Run;
      AwaitedOnWay(step);
      OnItsWayIsStarting(node, id);
      AnswerStep(node, step);
      Step(step);
      if !step.ok { starting := false; }
    }

    /** The release is resolved, downloaded, verified, and read back from the cache. */
    method ResolveAndPrepare(id: Id, explicitVersion: bool, a: Answers) returns (ok: bool)
      requires Valid() && id in node.requests && id !in node.loops
      requires node.requests[id] == if explicitVersion then Preparing else Checking
      modifies this
      ensures Valid() && id in node.requests && id !in node.loops && node.requests[id] == if ok then Listing else Ended
      ensures !ok ==> !starting
      ensures (ok && a.listed) == AllWell(explicitVersion, a) && (!ok ==> !AllWell(explicitVersion, a))
    {
      hide Inv, Apply, Run;
      ok := true;
      if !explicitVersion {
        Await(id);
        ok := a.checked;
        Answered(id, Checked(id, ok));
      }
      if ok {
        Await(id);
        ok := a.prepared;
        Answered(id, Prepared(id, ok));
      }
      if ok {
        Await(id);
        ok := a.manifestRead;
        Answered(id, ManifestRead(id, ok));
      }
      if ok {
        Await(id);
        ok := a.signatureRead;
        Answered(id, SignatureRead(id, ok));
      }
    }

    /** `startFleet`: refused exactly while a rollout is starting or running, or at once for
        a node that is not paired; otherwise a rollout begins exactly if every call turns
        out well, and `starting` is held throughout and given up. */
    method StartFleet(id: Id, unknownNode: bool, explicitVersion: bool, a: Answers) returns (reply: Reply)
      requires Valid() && id !in node.requests
      modifies this
      ensures Valid() && id in node.requests
      ensures reply.Locked? <==> old(RolloutBusy())
      ensures reply.UnknownNode? <==> !old(RolloutBusy()) && unknownNode
      ensures reply.Locked? || reply.UnknownNode? ==>
        starting == old(starting) && node == old(node).At(id, Turned)
      ensures reply.Failed? || reply.Started? ==> !starting && node.requests[id] == Ended
      ensures reply.Started? <==> !old(RolloutBusy()) && !unknownNode && AllWell(explicitVersion, a)
      ensures reply.Started? ==> id in node.loops
      ensures reply.Failed? ==> id !in node.loops
    {
      hide Inv, Apply, Run;
      NoRequestNoLoop(node, id);
      RequestStep(node, id, unknownNode, explicitVersion);
      if RolloutBusy() {
        Step(FleetRequest(id, unknownNode, explicitVersion));
        return Locked;
      }
      if unknownNode {
        Step(FleetRequest(id, unknownNode, explicitVersion));
        return UnknownNode;
      }
      Step(FleetRequest(id, unknownNode, explicitVersion));
      starting := true;
      var ok := ResolveAndPrepare(id, explicitVersion, a);
      if !ok {
        return Failed;
      }
      Await(id);
      ok := a.listed;
      ListedStep(node, id, ok);
      Step(Listed(id, ok));
      Await(id);
      ReturnedStep(node, id);
      Step(Returned(id));
      starting := false;
      return if ok then Started else Failed;
    }

    lemma NoRequestNoLoop(n: Surface, id: Id)
      requires Inv(n) && id !in n.requests
      ensures id !in n.loops
    {}

    /** `upgrade` for this node: refused exactly while a rollout is starting or running. */
    method UpgradeSelf(id: Id) returns (began: bool)
      requires Valid() && id !in node.selves
      modifies this
      ensures Valid() && began == !old(RolloutBusy())
      ensures id in node.selves && node.selves[id] == if began then Upgrading else Declined
      ensures starting == old(starting) && node.requests == old(node.requests) && node.loops == old(node.loops)
    {
      hide Inv, Run;
      began := !RolloutBusy();
      Step(SelfRequest(id));
    }
  }
}
