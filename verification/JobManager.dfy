/** The scheduler as the object it is: fields changed in place, loops over them.
    Every method is proved to do what its step in `JobEngine` says. */
module JobManagers {
  import opened Basics
  import opened JobRecords
  import opened JobEngine
  import opened JobInvariant
  import opened JobTheorems
  import opened JobEffects

  datatype Outcome<T> = Ok(value: T) | Refused(code: ErrorCode)

  class JobManager {
    const limits: Limits
    var heap: map<JobId, JobRecord>
    var records: seq<JobId>
    var queue: seq<JobId>
    var running: set<JobId>
    var terminalOrder: seq<JobId>
    var stopped: bool
    var tornDown: bool
    ghost var submitted: seq<JobId>
    ghost var started: seq<JobId>
    ghost var dropped: set<JobId>
    ghost var terminated: seq<JobId>
    ghost var evicted: seq<JobId>

    ghost function State(): Manager
      reads this
    {
      Manager(heap, records, queue, running, terminalOrder, stopped, tornDown,
              submitted, started, dropped, terminated, evicted)
    }

    function Rec(id: JobId): JobRecord
      reads this
    {
      if id in heap then heap[id] else NewRecord("")
    }

    ghost predicate Valid()
      reads this
    {
      limits.Valid() && Inv(limits, State())
    }

    constructor (limits: Limits)
      requires limits.Valid()
      ensures Valid() && this.limits == limits && State() == EMPTY
    {
      this.limits := limits;
      heap, records, queue, running, terminalOrder := map[], [], [], {}, [];
      stopped, tornDown := false, false;
      submitted, started, dropped, terminated, evicted := [], [], {}, [], [];
    }

    /** Stamps, buffers, and notifies the live subscribers one by one. */
    method AppendEvent(id: JobId, body: Body)
      requires id in heap
      modifies this`heap
      ensures heap == old(heap)[id := Append(id, old(heap)[id], body)]
    {
      var rec := heap[id];
      var event := JobEvent(id, |rec.events|, body);
      var subscribers := rec.subscribers;
      var todo := subscribers.Keys;
      while todo != {}
        invariant todo <= rec.subscribers.Keys == subscribers.Keys
        invariant forall s :: s in subscribers ==>
          subscribers[s] == if s in todo then rec.subscribers[s] else Hand(rec.subscribers[s], event)
        decreases |todo|
      {
        var s :| s in todo;
        subscribers := subscribers[s := Hand(subscribers[s], event)];
        todo := todo - {s};
      }
      heap := heap[id := rec.(events := rec.events + [event], subscribers := subscribers)];
      assert subscribers == Append(id, rec, body).subscribers;
    }

    method EvictIfNeeded()
      modifies this`records, this`terminalOrder, this`heap, this`evicted
      ensures State() == Evict(limits, old(State()))
    {
      hide Evict, CloseAll;
      while |records| > limits.maxRetained && terminalOrder != []
        invariant Evict(limits, State()) == Evict(limits, old(State()))
        decreases |terminalOrder|
      {
        EvictUnfolds(limits, State());
        var oldest := terminalOrder[0];
        terminalOrder := terminalOrder[1..];
        if oldest in records && oldest in heap && heap[oldest].status.Terminal() {
          records := Without(records, {oldest});
          heap := heap[oldest := CloseAll(heap[oldest])];
          evicted := evicted + [oldest];
        }
      }
      EvictUnfolds(limits, State());
    }

    method FinishWith(id: JobId, result: JobResult)
      requires id in heap
      modifies this`records, this`terminalOrder, this`heap, this`evicted, this`terminated
      ensures State() == FinishJob(limits, old(State()), id, result)
    {
      if heap[id].status.Terminal() {
        return;
      }
      heap := heap[id := heap[id].(status := result.status, result := Some(result))];
      terminalOrder := terminalOrder + [id];
      terminated := terminated + [id];
      AppendEvent(id, StatusEvent(result.status));
      AppendEvent(id, ResultEvent(result));
      assert heap == old(heap)[id := Finish(id, old(heap)[id], result)];
      EvictIfNeeded();
    }

    /** The part of `runJob` before its first await. */
    method StartRun(id: JobId)
      requires id in heap
      modifies this`heap, this`running, this`started
      ensures State() == StartJob(old(State()), id)
    {
      running := running + {id};
      started := started + [id];
      heap := heap[id := heap[id].(status := Running, execution := Some(Resolving))];
      AppendEvent(id, StatusEvent(Running));
      assert heap == old(heap)[id := Start(id, old(heap)[id])];
    }

    method PumpQueue()
      modifies this`queue, this`heap, this`running, this`started
      ensures State() == Pump(limits, old(State()))
    {
      if stopped {
        return;
      }
      while |running| < limits.maxConcurrent && queue != []
        invariant !stopped
        invariant Pump(limits, State()) == Pump(limits, old(State()))
        decreases |queue|
      {
        var id := queue[0];
        queue := queue[1..];
        if id !in records || id !in heap || !heap[id].status.Queued? {
          continue;
        }
        StartRun(id);
      }
    }

    /** `id` is the fresh identifier the source mints. */
    method Submit(id: JobId, owner: PeerId, jobType: string, modelOk: bool) returns (r: Outcome<JobId>)
      requires Valid() && id !in heap
      modifies this
      ensures Valid() && State() == Apply(limits, old(State()), Step.Submit(id, owner, jobType, modelOk))
      ensures r == if old(stopped) then Refused(INTERNAL)
                   else if jobType !in limits.executors then Refused(UNSUPPORTED_JOB_TYPE)
                   else if !modelOk then Refused(MODEL_REFUSED)
                   else if |old(running)| >= limits.maxConcurrent && |old(queue)| >= limits.maxQueued then Refused(BUSY)
                   else Ok(id)
    {
      hide Inv, Pump;
      StepKeepsInv(limits, State(), Step.Submit(id, owner, jobType, modelOk));
      if stopped { return Refused(INTERNAL); }
      if jobType !in limits.executors { return Refused(UNSUPPORTED_JOB_TYPE); }
      if !modelOk { return Refused(MODEL_REFUSED); }
      if |running| >= limits.maxConcurrent && |queue| >= limits.maxQueued { return Refused(BUSY); }
      heap := heap[id := NewRecord(owner)];
      records := records + [id];
      queue := queue + [id];
      submitted := submitted + [id];
      PumpQueue();
      return Ok(id);
    }

    /** Everything `cancel` does before it waits for an unwind. */
    method CancelNow(id: JobId, owner: PeerId) returns (reply: CancelReply)
      requires Valid()
      modifies this
      ensures Valid() && (State(), reply) == CancelJob(limits, old(State()), id, owner)
    {
      hide Inv, FinishJob;
      CancelJobOk(limits, State(), id, owner);
      if id !in records || id !in heap || heap[id].owner != owner {
        return Unknown;
      }
      if heap[id].status.Terminal() {
        return Answer(heap[id].status);
      }
      if heap[id].status.Queued? {
        queue := Without(queue, {id});
        dropped := dropped + {id};
        FinishWith(id, CanceledResult(id));
        return Answer(Rec(id).status);
      }
      heap := heap[id := heap[id].(aborted := true)];
      return AwaitUnwind;
    }

    method CancelOwnedBy(owner: PeerId) returns (requested: nat)
      requires Valid()
      modifies this
      ensures Valid() && State() == CancelEach(limits, old(State()), old(records), owner).0
      ensures requested == |CancelEach(limits, old(State()), old(records), owner).1|
    {
      hide Inv;
      var captured := records;
      var i := 0;
      requested := 0;
      while i < |captured|
        invariant 0 <= i <= |captured| && Valid()
        invariant var whole := CancelEach(limits, old(State()), captured, owner);
          var rest := CancelEach(limits, State(), captured[i..], owner);
          rest.0 == whole.0 && requested + |rest.1| == |whole.1|
      {
        var id := captured[i];
        var mine := Rec(id).owner == owner && !Rec(id).status.Terminal();
        assert captured[i..][0] == id && captured[i..][1..] == captured[i + 1..];
        if mine {
          requested := requested + 1;
          var reply := CancelNow(id, owner);
        }
        i := i + 1;
      }
    }

    // ---- The run of one job, from one await to the next ----------------------

    method WorkspaceResolved(id: JobId)
      requires Valid() && id in heap && heap[id].execution == Some(Resolving)
      modifies this
      ensures Valid() && State() == ResolveWorkspace(limits, old(State()), id)
      ensures id in heap && if old(heap)[id].aborted then EndedWith(old(State()), State(), id, JobResult(id, Canceled, "CANCELED"))
                            else heap[id].status.Running? && heap[id].execution == Some(Executing)
    {
      hide Inv, FinishJob, Closes, OthersKept;
      ResolveWorkspaceDoes(limits, State(), id);
      StepKeepsInv(limits, State(), Step.WorkspaceResolved(id));
      heap := heap[id := heap[id].(acquired := heap[id].acquired + 1)];
      if heap[id].aborted {
        FinishWith(id, CanceledResult(id));
        heap := heap[id := Rec(id).(execution := Some(Releasing), released := Rec(id).released + 1)];
        return;
      }
      heap := heap[id := heap[id].(executed := heap[id].executed + 1, execution := Some(Executing))];
      assert heap == old(heap)[id := heap[id]];
    }

    method WorkspaceFailed(id: JobId)
      requires Valid() && id in heap && heap[id].execution == Some(Resolving)
      modifies this
      ensures Valid() && State() == FailWorkspace(limits, old(State()), id)
      ensures EndedWith(old(State()), State(), id, JobResult(id, Failed, "WORKSPACE_UNAVAILABLE"))
    {
      hide Inv, FinishJob;
      FailWorkspaceEnds(limits, State(), id);
      StepKeepsInv(limits, State(), Step.WorkspaceFailed(id));
      FinishWith(id, WorkspaceUnavailable(id));
      heap := heap[id := Rec(id).(execution := Some(Unwinding))];
    }

    /** `outcome` is `None` when `execute` threw. */
    method ExecutorFinished(id: JobId, outcome: Option<JobResult>)
      requires Valid() && id in heap && heap[id].execution == Some(Executing)
      requires outcome.Some? ==> ContractResult(id, outcome.value)
      modifies this
      ensures Valid() && State() == EndExecution(limits, old(State()), id, outcome)
      ensures EndedWith(old(State()), State(), id, if outcome.Some? then outcome.value else JobResult(id, Failed, "INTERNAL"))
      ensures heap[id].execution == Some(Releasing)
    {
      hide Inv, FinishJob;
      EndExecutionEnds(limits, State(), id, outcome);
      StepKeepsInv(limits, State(), Step.ExecutorFinished(id, outcome));
      var result := match outcome case Some(r) => r case None => ExecutorThrew(id);
      FinishWith(id, result);
      heap := heap[id := Rec(id).(execution := Some(Releasing), released := Rec(id).released + 1)];
    }

    method EmitExecutorEvent(id: JobId, payload: Payload)
      requires Valid() && id in heap && heap[id].executed > 0
      modifies this
      ensures Valid() && State() == Apply(limits, old(State()), ExecutorEvent(id, payload))
    {
      hide Inv;
      StepKeepsInv(limits, State(), ExecutorEvent(id, payload));
      assert heap[id := heap[id]] == heap;
      if payload.Lifecycle? { return; }
      if heap[id].status.Terminal() { return; }
      if !payload.wellFormed { return; }
      AppendEvent(id, Observed(payload.kind, payload.text));
    }

    method ReleaseSettled(id: JobId)
      requires Valid() && id in heap && heap[id].execution == Some(Releasing)
      modifies this
      ensures Valid() && State() == SettleRelease(old(State()), id)
    {
      hide Inv;
      StepKeepsInv(limits, State(), Step.ReleaseSettled(id));
      heap := heap[id := heap[id].(execution := Some(Unwinding), releaseSettled := heap[id].releaseSettled + 1)];
    }

    method RunSettled(id: JobId)
      requires Valid() && id in heap && heap[id].execution == Some(Unwinding)
      modifies this
      ensures Valid() && State() == FreeSlot(limits, old(State()), id)
    {
      hide Inv, Pump;
      StepKeepsInv(limits, State(), Step.RunSettled(id));
      running := running - {id};
      heap := heap[id := heap[id].(execution := None)];
      PumpQueue();
    }

    // ---- Subscriptions -------------------------------------------------------

    /** Replays the buffered events in order, then registers a live subscriber. */
    method SubscribeTo(id: JobId, owner: PeerId, fromSeq: int, sub: SubscriberId) returns (r: Outcome<bool>)
      requires Valid() && sub !in Rec(id).subscribers
      modifies this
      ensures Valid() && State() == Apply(limits, old(State()), Attach(id, owner, fromSeq, sub))
      ensures r == if old(State()).Owns(id, owner) then Ok(old(Rec(id)).status.Terminal()) else Refused(UNKNOWN_JOB)
    {
      hide Inv, Apply;
      StepKeepsInv(limits, State(), Attach(id, owner, fromSeq, sub));
      AttachStep(limits, State(), id, owner, fromSeq, sub);
      if id !in records || id !in heap || heap[id].owner != owner {
        return Refused(UNKNOWN_JOB);
      }
      var rec := heap[id];
      var start := if fromSeq > 0 then fromSeq else 0;
      var delivered: seq<JobEvent> := [];
      var i := 0;
      while i < |rec.events|
        invariant 0 <= i <= |rec.events|
        invariant delivered == Replay(rec.events[..i], start) && |delivered| <= i
      {
        assert Init(rec.events[..i + 1]) == rec.events[..i];
        if rec.events[i].seqNo >= start {
          delivered := delivered + [rec.events[i]];
        }
        i := i + 1;
      }
      assert rec.events[..|rec.events|] == rec.events;
      var made := Subscription(|rec.events| - |delivered|, delivered, !rec.status.Terminal());
      heap := heap[id := rec.(subscribers := rec.subscribers[sub := made])];
      return Ok(rec.status.Terminal());
    }

    method UnsubscribeFrom(id: JobId, sub: SubscriberId)
      requires Valid() && id in heap && sub in heap[id].subscribers
      modifies this
      ensures Valid() && State() == Apply(limits, old(State()), Detach(id, sub))
    {
      hide Inv;
      StepKeepsInv(limits, State(), Detach(id, sub));
      var rec := heap[id];
      heap := heap[id := rec.(subscribers := rec.subscribers[sub := rec.subscribers[sub].(live := false)])];
    }

    // ---- Shutdown ------------------------------------------------------------

    method BeginStopping()
      requires Valid()
      modifies this
      ensures Valid() && State() == BeginStop(limits, old(State()))
    {
      hide Inv, FinishJob;
      StepKeepsInv(limits, State(), StopBegin);
      if stopped {
        return;
      }
      ghost var cut := State().(stopped := true, queue := [], dropped := dropped + Elements(queue));
      var queued := queue;
      stopped := true;
      queue := [];
      dropped := dropped + Elements(queued);
      var i := 0;
      while i < |queued|
        invariant 0 <= i <= |queued| && stopped
        invariant FinishEach(limits, State(), queued[i..]) == FinishEach(limits, cut, queued)
      {
        var id := queued[i];
        assert queued[i..][0] == id && queued[i..][1..] == queued[i + 1..];
        if id in records && id in heap && heap[id].status.Queued? {
          FinishWith(id, CanceledResult(id));
        }
        i := i + 1;
      }
      AbortAll();
    }

    method AbortAll()
      modifies this`heap
      ensures State() == AbortRunning(old(State()))
    {
      var before := heap;
      var todo := running;
      while todo != {}
        invariant todo <= running && heap.Keys == before.Keys
        invariant forall id :: id in heap ==>
          heap[id] == if id in running - todo && id in records then before[id].(aborted := true) else before[id]
        decreases |todo|
      {
        var id :| id in todo;
        if id in records && id in heap {
          heap := heap[id := heap[id].(aborted := true)];
        }
        todo := todo - {id};
      }
      assert heap == AbortRunning(old(State())).heap;
    }

    /** What `stop` does once the runs have settled or the wait has timed out. */
    method FinishStopping()
      requires Valid() && stopped && !tornDown
      modifies this
      ensures Valid() && State() == Teardown(old(State()))
    {
      hide Inv, Apply;
      StepKeepsInv(limits, State(), StopTeardown);
      TeardownStep(limits, State());
      CloseRetained();
      records := [];
      terminalOrder := [];
      tornDown := true;
    }

    /** Every retained record's streams are ended and its eviction announced. */
    method CloseRetained()
      modifies this`heap, this`evicted
      ensures evicted == old(evicted) + records
      ensures heap == map id | id in old(heap) :: if id in records then CloseAll(old(heap)[id]) else old(heap)[id]
    {
      hide CloseAll;
      var before := heap;
      var i := 0;
      while i < |records|
        invariant 0 <= i <= |records| && heap.Keys == before.Keys && evicted == old(evicted) + records[..i]
        invariant forall id :: id in heap ==>
          heap[id] == if id in records[..i] then CloseAll(before[id]) else before[id]
      {
        var id := records[i];
        if id in heap {
          heap := heap[id := CloseAll(before[id])];
        }
        evicted := evicted + [id];
        assert records[..i + 1] == records[..i] + [id];
        i := i + 1;
      }
      assert records[..|records|] == records;
    }

    // ---- Any step, and waiting while others take theirs ----------------------

    /** The machine's step, whichever it is. */
    method Perform(step: JobEngine.Step)
      requires Valid()
      modifies this
      ensures Valid() && State() == Apply(limits, old(State()), step)
    {
      hide Inv, CancelJob, CancelEach, ResolveWorkspace, FailWorkspace, EndExecution, SettleRelease, FreeSlot, BeginStop, Teardown;
      match step
      case Submit(id, owner, jobType, modelOk) =>
        if id !in heap { var _ := Submit(id, owner, jobType, modelOk); }
      case Cancel(id, owner) => var _ := CancelNow(id, owner);
      case CancelOwnedBy(owner) => var _ := CancelOwnedBy(owner);
      case WorkspaceResolved(id) =>
        if Rec(id).execution == Some(Resolving) { WorkspaceResolved(id); }
      case WorkspaceFailed(id) =>
        if Rec(id).execution == Some(Resolving) { WorkspaceFailed(id); }
      case ExecutorEvent(id, payload) =>
        if Rec(id).executed > 0 { EmitExecutorEvent(id, payload); }
      case ExecutorFinished(id, outcome) =>
        if Rec(id).execution == Some(Executing) && (outcome.Some? ==> ContractResult(id, outcome.value)) {
          ExecutorFinished(id, outcome);
        }
      case ReleaseSettled(id) =>
        if Rec(id).execution == Some(Releasing) { ReleaseSettled(id); }
      case RunSettled(id) =>
        if Rec(id).execution == Some(Unwinding) { RunSettled(id); }
      case Attach(id, owner, fromSeq, sub) =>
        if sub !in Rec(id).subscribers { var _ := SubscribeTo(id, owner, fromSeq, sub); }
      case Detach(id, sub) =>
        if id in heap && sub in heap[id].subscribers { UnsubscribeFrom(id, sub); }
        else { assert id in heap ==> heap[id := heap[id]] == heap; }
      case StopBegin => BeginStopping();
      case StopTeardown => if stopped && !tornDown { FinishStopping(); }
    }

    /** `awaitBounded`: others take their steps until the run has settled or the timer
        fires, which it does after those in `meanwhile`. */
    method AwaitRun(id: JobId, meanwhile: seq<JobEngine.Step>) returns (settled: bool, ghost taken: nat)
      requires Valid() && Begun(State(), id)
      modifies this
      ensures Valid() && Begun(State(), id) && Advances(old(State()), State())
      ensures taken <= |meanwhile| && State() == Run(limits, old(State()), meanwhile[..taken])
      ensures settled <==> heap[id].execution.None?
      ensures !settled ==> taken == |meanwhile|
      ensures forall k :: 0 <= k < taken ==> Run(limits, old(State()), meanwhile[..k]).Get(id).execution.Some?
    {
      hide Inv, Apply, Later;
      SameAdvances(State());
      taken := 0;
      var i := 0;
      while heap[id].execution.Some? && i < |meanwhile|
        invariant Valid() && Begun(State(), id) && Advances(old(State()), State())
        invariant taken == i <= |meanwhile| && State() == Run(limits, old(State()), meanwhile[..i])
        invariant forall k :: 0 <= k < i ==> Run(limits, old(State()), meanwhile[..k]).Get(id).execution.Some?
        decreases |meanwhile| - i
      {
        BegunStays(limits, State(), meanwhile[i], id);
        StepAdvances(limits, State(), meanwhile[i]);
        AdvancesTransitive(old(State()), State(), Apply(limits, State(), meanwhile[i]));
        assert Init(meanwhile[..i + 1]) == meanwhile[..i];
        Perform(meanwhile[i]);
        i := i + 1;
        taken := i;
      }
      settled := heap[id].execution.None?;
    }

    /** `cancel` in full. The reply is the job's status; it is terminal unless the timer
        fired before the run had settled, and then the abort has been requested. */
    method Cancel(id: JobId, owner: PeerId, meanwhile: seq<JobEngine.Step>)
      returns (reply: Outcome<JobRecords.Status>, timedOut: bool)
      requires Valid()
      modifies this
      ensures Valid() && Advances(old(State()), State())
      ensures reply.Refused? <==> !old(State()).Owns(id, owner)
      ensures reply.Refused? ==> reply.code == UNKNOWN_JOB && State() == old(State())
      ensures reply.Ok? ==> reply.value == Rec(id).status && (!timedOut ==> reply.value.Terminal())
      ensures timedOut ==> id in heap && heap[id].execution.Some? &&
                           State() == Run(limits, CancelJob(limits, old(State()), id, owner).0, meanwhile)
    {
      hide Inv, Apply, CancelJob, Later;
      timedOut := false;
      CancelReplies(limits, State(), id, owner);
      CancelJobAdvances(limits, State(), id, owner);
      var first := CancelNow(id, owner);
      match first
      case Unknown => reply := Refused(UNKNOWN_JOB);
      case Answer(status) => reply := Ok(status);
      case AwaitUnwind =>
        ghost var requested := State();
        var settled, taken := AwaitRun(id, meanwhile);
        AdvancesTransitive(old(State()), requested, State());
        if settled {
          SettledIsTerminal(limits, State(), id);
        } else {
          assert meanwhile[..taken] == meanwhile;
        }
        timedOut := !settled;
        reply := Ok(heap[id].status);
    }
  }

  lemma EvictUnfolds(l: Limits, m: Manager)
    ensures Evict(l, m) ==
      if |m.records| <= l.maxRetained || m.terminalOrder == [] then m
      else
        var oldest := m.terminalOrder[0];
        var popped := m.(terminalOrder := m.terminalOrder[1..]);
        if oldest !in m.records || !m.Get(oldest).status.Terminal() then Evict(l, popped)
        else Evict(l, popped.Put(oldest, CloseAll(m.Get(oldest)))
                            .(records := Without(m.records, {oldest}), evicted := m.evicted + [oldest]))
  {}

  lemma TeardownStep(l: Limits, m: Manager)
    requires m.stopped && !m.tornDown
    ensures Apply(l, m, StopTeardown) == Teardown(m)
  {}

  lemma AttachStep(l: Limits, m: Manager, id: JobId, owner: PeerId, fromSeq: int, sub: SubscriberId)
    requires sub !in m.Get(id).subscribers
    ensures Apply(l, m, Attach(id, owner, fromSeq, sub)) ==
            if m.Owns(id, owner) then m.Put(id, Subscribe(m.Get(id), sub, fromSeq)) else m
  {}
}
