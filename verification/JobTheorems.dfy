/** What the invariant says about whole runs of the scheduler. */
module JobTheorems {
  import opened Basics
  import opened JobRecords
  import opened JobEngine
  import opened JobInvariant

  // ---- Scheduling ----------------------------------------------------------

  /** The queue is the queued jobs in submit order; running jobs hold slots; both are
      bounded; no slot idles behind a waiting job; `pump` never has to skip. */
  lemma Scheduling(l: Limits, steps: seq<Step>)
    requires l.Valid()
    ensures var m := Run(l, EMPTY, steps);
      Distinct(m.queue) &&
      (forall id :: id in m.queue <==> id in m.heap && m.heap[id].status.Queued?) &&
      (forall id :: id in m.heap && m.heap[id].status.Running? ==> id in m.running) &&
      m.started + m.queue == Without(m.submitted, m.dropped) &&
      |m.running| <= l.maxConcurrent && |m.queue| <= l.maxQueued &&
      (!m.stopped && m.queue != [] ==> |m.running| == l.maxConcurrent) &&
      (forall id :: id in m.queue ==> id in m.records)
  {
    EmptyInv(l);
    RunKeepsInv(l, EMPTY, steps);
    var m := Run(l, EMPTY, steps);
    if !m.tornDown {
      EvictedIsTerminal(m);
    }
  }

  // ---- The log -------------------------------------------------------------

  /** Every log is stamped in order and has the promised shape; a result event is
      there exactly for terminal jobs, once, at the end. */
  lemma Logs(l: Limits, steps: seq<Step>, id: JobId)
    requires l.Valid() && id in Run(l, EMPTY, steps).heap
    ensures var rec := Run(l, EMPTY, steps).heap[id];
      Stamped(id, rec.events) && LogShape(id, rec) && (rec.result.Some? <==> rec.status.Terminal()) &&
      forall i :: 0 <= i < |rec.events| ==>
        (rec.events[i].body.ResultEvent? <==> rec.status.Terminal() && i == |rec.events| - 1)
  {
    EmptyInv(l);
    RunKeepsInv(l, EMPTY, steps);
    RecordOfInv(l, Run(l, EMPTY, steps), id);
    ResultIsLast(id, Run(l, EMPTY, steps).heap[id]);
  }

  /** A job that will never reach its executor. */
  ghost predicate Doomed(rec: JobRecord) {
    rec.executed == 0 && (rec.status.Terminal() || (rec.aborted && rec.execution == Some(Resolving)))
  }

  /** `b` is what a record can have become once it was `a`. */
  ghost predicate Later(a: JobRecord, b: JobRecord) {
    a.owner == b.owner && a.events <= b.events && a.acquired <= b.acquired && a.released <= b.released &&
    (a.status.Terminal() ==> b.status == a.status && b.events == a.events && b.result == a.result) &&
    (Doomed(a) ==> Doomed(b)) && StreamsLater(a.subscribers, b.subscribers)
  }

  /** Subscriptions keep their start and only ever receive more; an ended one, nothing. */
  ghost predicate StreamsLater(a: map<SubscriberId, Subscription>, b: map<SubscriberId, Subscription>) {
    forall s :: s in a ==>
      s in b && a[s].start == b[s].start && a[s].sent <= b[s].sent && (a[s].live || b[s] == a[s])
  }

  ghost predicate Advances(m: Manager, n: Manager) {
    forall id :: id in m.heap ==> id in n.heap && Later(m.heap[id], n.heap[id])
  }

  lemma AdvancesTransitive(m: Manager, n: Manager, o: Manager)
    requires Advances(m, n) && Advances(n, o)
    ensures Advances(m, o)
  {
    forall id | id in m.heap
      ensures id in o.heap && Later(m.heap[id], o.heap[id])
    {
      assert id in n.heap && Later(m.heap[id], n.heap[id]) && Later(n.heap[id], o.heap[id]);
    }
  }

  lemma FinishIsLater(id: JobId, rec: JobRecord, result: JobResult)
    requires result.status.Terminal()
    ensures Later(rec, Finish(id, rec, result))
  {}

  lemma PumpAdvancesOnce(l: Limits, m: Manager)
    requires PumpReady(l, m) && !m.stopped && |m.running| < l.maxConcurrent && m.queue != []
    ensures Advances(m, StartJob(m.(queue := m.queue[1..]), m.queue[0]))
  {
    HeadIsIdle(m);
    var id := m.queue[0];
    assert Later(m.heap[id], Start(id, m.heap[id]));
    assert forall x :: x in m.heap ==> Later(m.heap[x], m.heap[x]);
  }

  lemma {:induction false} PumpAdvances(l: Limits, m: Manager)
    requires PumpReady(l, m)
    ensures Advances(m, Pump(l, m))
    decreases |m.queue|
  {
    if !m.stopped && |m.running| < l.maxConcurrent && m.queue != [] {
      HeadIsStartable(l, m);
      StartJobOk(l, m);
      PumpAdvancesOnce(l, m);
      var next := StartJob(m.(queue := m.queue[1..]), m.queue[0]);
      PumpAdvances(l, next);
      AdvancesTransitive(m, next, Pump(l, next));
    }
  }

  lemma PutAdvances(m: Manager, n: Manager, id: JobId, rec: JobRecord)
    requires id in m.heap && Later(m.heap[id], rec) && n.heap == m.heap[id := rec]
    ensures Advances(m, n)
  {
    forall x | x in m.heap
      ensures x in n.heap && Later(m.heap[x], n.heap[x])
    {
      if x != id { assert n.heap[x] == m.heap[x]; }
    }
  }

  lemma DropAdvances(l: Limits, m: Manager, id: JobId)
    requires LogsOk(m) && History(m) && id in m.heap && m.heap[id].status.Queued?
    ensures Advances(m, DropQueued(l, m, id))
  {
    hide LogsOk, History, Finish, FinishJob, Later;
    var cut, rec := m.(queue := Without(m.queue, {id}), dropped := m.dropped + {id}), m.heap[id];
    SameLogs(m, cut);
    FinishJobOk(l, cut, id, CanceledResult(id));
    FinishIsLater(id, rec, CanceledResult(id));
    PutAdvances(m, DropQueued(l, m, id), id, Finish(id, rec, CanceledResult(id)));
  }

  lemma SameLogs(m: Manager, cut: Manager)
    requires LogsOk(m) && History(m) && cut == m.(queue := cut.queue, dropped := cut.dropped)
    ensures LogsOk(cut) && History(cut)
  {}

  lemma AbortAdvances(m: Manager, id: JobId)
    requires id in m.heap && m.heap[id].status.Running?
    ensures Advances(m, Abort(m, id))
  {
    PutAdvances(m, Abort(m, id), id, m.heap[id].(aborted := true));
  }

  lemma CancelJobAdvances(l: Limits, m: Manager, id: JobId, owner: PeerId)
    requires Inv(l, m)
    ensures Advances(m, CancelJob(l, m, id, owner).0)
  {
    hide LogsOk, History, DropQueued, Abort, Advances;
    SameAdvances(m);
    if m.Owns(id, owner) {
      if m.heap[id].status.Queued? {
        DropAdvances(l, m, id);
      } else if m.heap[id].status.Running? {
        AbortAdvances(m, id);
      }
    }
  }

  lemma {:induction false} CancelEachAdvances(l: Limits, m: Manager, ids: seq<JobId>, owner: PeerId)
    requires Inv(l, m)
    ensures Advances(m, CancelEach(l, m, ids, owner).0)
    decreases |ids|
  {
    hide Inv;
    if ids != [] {
      var rec := m.Get(ids[0]);
      var next := if rec.owner != owner || rec.status.Terminal() then m else CancelJob(l, m, ids[0], owner).0;
      CancelJobOk(l, m, ids[0], owner);
      CancelJobAdvances(l, m, ids[0], owner);
      CancelEachAdvances(l, next, ids[1..], owner);
      AdvancesTransitive(m, next, CancelEach(l, next, ids[1..], owner).0);
    }
  }

  /** A running job's record once it has ended and its run has moved on. */
  lemma EndedIsLater(id: JobId, rec: JobRecord, pre: JobRecord, result: JobResult, post: JobRecord)
    requires rec.status.Running? && result.status.Terminal()
    requires pre == rec.(acquired := pre.acquired) && pre.acquired >= rec.acquired
    requires post == Finish(id, pre, result).(execution := post.execution, released := post.released)
    requires post.released >= rec.released
    ensures Later(rec, post)
  {
    FinishIsLater(id, pre, result);
  }

  lemma ResolveAbortedAdvances(l: Limits, m: Manager, id: JobId)
    requires Inv(l, m) && m.Get(id).execution == Some(Resolving) && m.Get(id).aborted
    ensures Advances(m, ResolveWorkspace(l, m, id))
  {
    hide Inv, Finish, FinishJob, Later, Advances;
    StageIsRunning(l, m, id);
    var rec := m.heap[id];
    var pre := rec.(acquired := rec.acquired + 1);
    var result := CanceledResult(id);
    FinishKeepsCalls(id, pre, result);
    FinishedRecord(l, m, id, pre, result);
    var post := Finish(id, pre, result).(execution := Some(Releasing), released := rec.released + 1);
    EndedIsLater(id, rec, pre, result, post);
    PutAdvances(m, ResolveWorkspace(l, m, id), id, post);
  }

  /** A live job that is handed to its executor. */
  function Handed(rec: JobRecord): JobRecord {
    rec.(acquired := rec.acquired + 1, executed := rec.executed + 1, execution := Some(Executing))
  }

  lemma HandedIsLater(rec: JobRecord)
    requires rec.status.Running? && !rec.aborted
    ensures Later(rec, Handed(rec))
  {}

  lemma ResolveLiveStep(l: Limits, m: Manager, id: JobId)
    requires id in m.heap && !m.heap[id].aborted
    ensures ResolveWorkspace(l, m, id) == m.Put(id, Handed(m.heap[id]))
  {
    hide FinishJob;
  }

  lemma ResolveLiveAdvances(l: Limits, m: Manager, id: JobId)
    requires Inv(l, m) && m.Get(id).execution == Some(Resolving) && !m.Get(id).aborted
    ensures Advances(m, ResolveWorkspace(l, m, id))
  {
    hide Inv, ResolveWorkspace, Later, Advances, Handed;
    StageIsRunning(l, m, id);
    HandedIsLater(m.heap[id]);
    ResolveLiveStep(l, m, id);
    PutAdvances(m, m.Put(id, Handed(m.heap[id])), id, Handed(m.heap[id]));
  }

  lemma FailAdvances(l: Limits, m: Manager, id: JobId)
    requires Inv(l, m) && m.Get(id).execution == Some(Resolving)
    ensures Advances(m, FailWorkspace(l, m, id))
  {
    hide Inv, Finish, FinishJob, Later, Advances;
    StageIsRunning(l, m, id);
    var rec := m.heap[id];
    var result := WorkspaceUnavailable(id);
    assert m.Put(id, rec) == m;
    FinishKeepsCalls(id, rec, result);
    FinishedRecord(l, m, id, rec, result);
    var post := Finish(id, rec, result).(execution := Some(Unwinding));
    EndedIsLater(id, rec, rec, result, post);
    PutAdvances(m, FailWorkspace(l, m, id), id, post);
  }

  lemma EndExecutionAdvances(l: Limits, m: Manager, id: JobId, outcome: Option<JobResult>)
    requires Inv(l, m) && m.Get(id).execution == Some(Executing)
    requires outcome.Some? ==> ContractResult(id, outcome.value)
    ensures Advances(m, EndExecution(l, m, id, outcome))
  {
    hide Inv, Finish, FinishJob, Later, Advances;
    StageIsRunning(l, m, id);
    var result := match outcome case Some(r) => r case None => ExecutorThrew(id);
    var rec := m.heap[id];
    assert m.Put(id, rec) == m;
    FinishKeepsCalls(id, rec, result);
    FinishedRecord(l, m, id, rec, result);
    var post := Finish(id, rec, result).(execution := Some(Releasing), released := rec.released + 1);
    EndedIsLater(id, rec, rec, result, post);
    PutAdvances(m, EndExecution(l, m, id, outcome), id, post);
  }

  lemma FreeSlotAdvances(l: Limits, m: Manager, id: JobId)
    requires Inv(l, m) && m.Get(id).execution == Some(Unwinding)
    ensures Advances(m, FreeSlot(l, m, id))
  {
    var rec := m.heap[id].(execution := None);
    var n := m.Put(id, rec).(running := m.running - {id});
    PutAdvances(m, n, id, rec);
    hide LogsOk, CallsOk, Pump, QueueIs, OrderOk, History;
    SlotFreed(m, n, id, rec);
    FreedLists(m, n, id, rec);
    SubsetSize(n.running, m.running);
    PumpAdvances(l, n);
    AdvancesTransitive(m, n, Pump(l, n));
  }

  lemma AddingAdvances(m: Manager, n: Manager, id: JobId)
    requires id !in m.heap && id in n.heap && n.heap == m.heap[id := n.heap[id]]
    ensures Advances(m, n)
  {}

  lemma AcceptAdvances(l: Limits, m: Manager, id: JobId, owner: PeerId)
    requires l.Valid() && Inv(l, m) && id !in m.heap && !m.stopped
    ensures Advances(m, Accept(l, m, id, owner))
  {
    var n := m.Put(id, NewRecord(owner))
              .(records := m.records + [id], queue := m.queue + [id], submitted := m.submitted + [id]);
    AddingAdvances(m, n, id);
    PutLogsOk(m, id, NewRecord(owner));
    hide Advances, LogsOk, CallsOk, Pump, QueueIs, OrderOk, History;
    AcceptedOrder(m, n, id);
    AcceptedLists(m, n, id, owner);
    PumpAdvances(l, n);
    AdvancesTransitive(m, n, Pump(l, n));
  }

  lemma {:induction false} FinishEachAdvances(l: Limits, m: Manager, ids: seq<JobId>)
    requires Draining(l, m, ids) && !m.tornDown
    ensures Advances(m, FinishEach(l, m, ids))
    decreases |ids|
  {
    if ids != [] {
      assert ids == [ids[0]] + ids[1..];
      assert ids[0] in ids;
      EvictedIsTerminal(m);
      var id := ids[0];
      hide LogsOk, CallsOk, History, Finish, FinishJob;
      DropOneOk(l, m, id, ids, ids[1..]);
      FinishJobOk(l, m, id, CanceledResult(id));
      FinishIsLater(id, m.heap[id], CanceledResult(id));
      var next := FinishJob(l, m, id, CanceledResult(id));
      PutAdvances(m, next, id, Finish(id, m.heap[id], CanceledResult(id)));
      FinishEachAdvances(l, next, ids[1..]);
      AdvancesTransitive(m, next, FinishEach(l, next, ids[1..]));
    }
  }

  lemma AbortRunningAdvances(m: Manager)
    ensures Advances(m, AbortRunning(m))
  {}

  lemma CutDrains(l: Limits, m: Manager, cut: Manager)
    requires Inv(l, m) && !m.stopped
    requires cut == m.(stopped := true, queue := [], dropped := cut.dropped)
    ensures Draining(l, cut, m.queue) && !cut.tornDown
  {}

  lemma BeginStopAdvances(l: Limits, m: Manager)
    requires Inv(l, m)
    ensures Advances(m, BeginStop(l, m))
  {
    if !m.stopped {
      var cut := m.(stopped := true, queue := [], dropped := m.dropped + Elements(m.queue));
      CutDrains(l, m, cut);
      hide Draining, FinishEach, AbortRunning, Advances, Inv;
      FinishEachAdvances(l, cut, m.queue);
      var n := FinishEach(l, cut, m.queue);
      AbortRunningAdvances(n);
      AdvancesTransitive(m, n, AbortRunning(n));
    }
  }

  lemma AppendIsLater(id: JobId, rec: JobRecord, body: Body)
    requires !rec.status.Terminal()
    ensures Later(rec, Append(id, rec, body))
  {}

  lemma UnsubscribeIsLater(rec: JobRecord, sub: SubscriberId)
    ensures Later(rec, Unsubscribe(rec, sub))
  {}

  lemma SubscribeIsLater(rec: JobRecord, sub: SubscriberId, fromSeq: int)
    requires sub !in rec.subscribers
    ensures Later(rec, Subscribe(rec, sub, fromSeq))
  {
    hide Replay;
  }

  lemma EventAdvances(l: Limits, m: Manager, id: JobId, payload: Payload)
    ensures Advances(m, Apply(l, m, ExecutorEvent(id, payload)))
  {
    if id in m.heap {
      hide Advances, Append, Later;
      if payload.Reported? && !m.heap[id].status.Terminal() {
        AppendIsLater(id, m.heap[id], Observed(payload.kind, payload.text));
      }
      SameIsLater(m.heap[id]);
      SameAdvances(m);
      PutAdvances(m, m.Put(id, Emit(id, m.heap[id], payload)), id, Emit(id, m.heap[id], payload));
    } else {
      SameAdvances(m);
    }
  }

  lemma SettleAdvances(l: Limits, m: Manager, id: JobId)
    ensures Advances(m, Apply(l, m, ReleaseSettled(id)))
  {
    SameAdvances(m);
    if m.Get(id).execution == Some(Releasing) {
      PutAdvances(m, SettleRelease(m, id), id, SettleRelease(m, id).heap[id]);
    }
  }

  lemma AttachAdvances(l: Limits, m: Manager, id: JobId, owner: PeerId, fromSeq: int, sub: SubscriberId)
    ensures Advances(m, Apply(l, m, Attach(id, owner, fromSeq, sub)))
  {
    hide Advances, Later, Subscribe;
    SameAdvances(m);
    if m.Owns(id, owner) && sub !in m.Get(id).subscribers {
      SubscribeIsLater(m.heap[id], sub, fromSeq);
      PutAdvances(m, m.Put(id, Subscribe(m.heap[id], sub, fromSeq)), id, Subscribe(m.heap[id], sub, fromSeq));
    }
  }

  lemma DetachAdvances(l: Limits, m: Manager, id: JobId, sub: SubscriberId)
    ensures Advances(m, Apply(l, m, Detach(id, sub)))
  {
    hide Advances, Later, Unsubscribe;
    SameAdvances(m);
    if id in m.heap {
      UnsubscribeIsLater(m.heap[id], sub);
      PutAdvances(m, m.Put(id, Unsubscribe(m.heap[id], sub)), id, Unsubscribe(m.heap[id], sub));
    }
  }

  lemma SameIsLater(rec: JobRecord)
    ensures Later(rec, rec)
  {}

  lemma SameAdvances(m: Manager)
    ensures Advances(m, m)
  {
    assert forall id :: id in m.heap ==> Later(m.heap[id], m.heap[id]);
  }

  lemma TeardownAdvances(m: Manager)
    ensures Advances(m, Teardown(m))
  {
    forall id | id in m.heap
      ensures Later(m.heap[id], Teardown(m).heap[id])
    {}
  }

  /** No step rewrites a log, reopens a terminal job, forgets a record's owner, or
      brings a doomed job to its executor. */
  lemma StepAdvances(l: Limits, m: Manager, step: Step)
    requires l.Valid() && Inv(l, m)
    ensures Advances(m, Apply(l, m, step))
  {
    hide Inv, Advances, Accept, CancelJob, CancelEach, ResolveWorkspace, FailWorkspace, EndExecution, SettleRelease, FreeSlot, BeginStop, Teardown;
    SameAdvances(m);
    match step
    case Submit(id, owner, jobType, modelOk) =>
      if Refusal(l, m, jobType, modelOk).None? && id !in m.heap { AcceptAdvances(l, m, id, owner); }
    case Cancel(id, owner) => CancelJobAdvances(l, m, id, owner);
    case CancelOwnedBy(owner) => CancelEachAdvances(l, m, m.records, owner);
    case WorkspaceResolved(id) =>
      if m.Get(id).execution == Some(Resolving) {
        if m.Get(id).aborted { ResolveAbortedAdvances(l, m, id); } else { ResolveLiveAdvances(l, m, id); }
      }
    case WorkspaceFailed(id) =>
      if m.Get(id).execution == Some(Resolving) { FailAdvances(l, m, id); }
    case ExecutorFinished(id, outcome) =>
      if m.Get(id).execution == Some(Executing) && (outcome.Some? ==> ContractResult(id, outcome.value)) {
        EndExecutionAdvances(l, m, id, outcome);
      }
    case RunSettled(id) =>
      if m.Get(id).execution == Some(Unwinding) { FreeSlotAdvances(l, m, id); }
    case StopBegin => BeginStopAdvances(l, m);
    case StopTeardown => if m.stopped && !m.tornDown { TeardownAdvances(m); }
    case ExecutorEvent(id, payload) => EventAdvances(l, m, id, payload);
    case ReleaseSettled(id) => SettleAdvances(l, m, id);
    case Attach(id, owner, fromSeq, sub) => AttachAdvances(l, m, id, owner, fromSeq, sub);
    case Detach(id, sub) => DetachAdvances(l, m, id, sub);
  }

  lemma {:induction false} RunAdvances(l: Limits, m: Manager, steps: seq<Step>)
    requires l.Valid() && Inv(l, m)
    ensures Advances(m, Run(l, m, steps))
  {
    if steps == [] {
      assert forall id :: id in m.heap ==> Later(m.heap[id], m.heap[id]);
    } else {
      var before := Run(l, m, Init(steps));
      RunAdvances(l, m, Init(steps));
      RunKeepsInv(l, m, Init(steps));
      StepAdvances(l, before, Last(steps));
      AdvancesTransitive(m, before, Run(l, m, steps));
    }
  }

  /** Once a job is terminal, nothing that can still happen changes its log, its
      result or its status: whichever of cancel and completion comes first wins. */
  lemma FirstVerdictWins(l: Limits, before: seq<Step>, after: seq<Step>, id: JobId)
    requires l.Valid()
    requires id in Run(l, EMPTY, before).heap && Run(l, EMPTY, before).heap[id].status.Terminal()
    ensures var m := Run(l, EMPTY, before);
      var n := Run(l, m, after);
      id in n.heap && n.heap[id].events == m.heap[id].events && n.heap[id].result == m.heap[id].result &&
      n.heap[id].status == m.heap[id].status
  {
    EmptyInv(l);
    RunKeepsInv(l, EMPTY, before);
    RunAdvances(l, Run(l, EMPTY, before), after);
    assert Later(Run(l, EMPTY, before).heap[id], Run(l, Run(l, EMPTY, before), after).heap[id]);
  }

  /** A log only ever grows at its end. */
  lemma LogIsAppendOnly(l: Limits, before: seq<Step>, after: seq<Step>, id: JobId)
    requires l.Valid() && id in Run(l, EMPTY, before).heap
    ensures var n := Run(l, Run(l, EMPTY, before), after);
      id in n.heap && Run(l, EMPTY, before).heap[id].events <= n.heap[id].events
  {
    EmptyInv(l);
    RunKeepsInv(l, EMPTY, before);
    RunAdvances(l, Run(l, EMPTY, before), after);
    assert Later(Run(l, EMPTY, before).heap[id], Run(l, Run(l, EMPTY, before), after).heap[id]);
  }

  // ---- Workspaces ----------------------------------------------------------

  /** Each workspace is acquired at most once and, by the time the slot is free,
      released exactly as often, with the release settled; an executor only ever runs
      inside an acquired workspace, once. */
  lemma WorkspaceDiscipline(l: Limits, steps: seq<Step>, id: JobId)
    requires l.Valid() && id in Run(l, EMPTY, steps).heap
    ensures var m := Run(l, EMPTY, steps);
      var rec := m.heap[id];
      rec.acquired <= 1 && rec.executed <= rec.acquired && rec.releaseSettled <= rec.released <= rec.acquired &&
      (rec.released < rec.acquired ==> rec.status.Running?) &&
      (id !in m.running ==> rec.releaseSettled == rec.released == rec.acquired)
  {
    EmptyInv(l);
    RunKeepsInv(l, EMPTY, steps);
    RecordOfInv(l, Run(l, EMPTY, steps), id);
  }

  /** An abort that lands before the workspace resolves keeps the executor from ever
      being called. */
  lemma AbortBeforeResolve(l: Limits, before: seq<Step>, after: seq<Step>, id: JobId)
    requires l.Valid() && id in Run(l, EMPTY, before).heap
    requires var rec := Run(l, EMPTY, before).heap[id];
      rec.aborted && rec.execution == Some(Resolving)
    ensures var n := Run(l, Run(l, EMPTY, before), after);
      id in n.heap && n.heap[id].executed == 0
  {
    EmptyInv(l);
    RunKeepsInv(l, EMPTY, before);
    RecordOfInv(l, Run(l, EMPTY, before), id);
    RunAdvances(l, Run(l, EMPTY, before), after);
    assert Later(Run(l, EMPTY, before).heap[id], Run(l, Run(l, EMPTY, before), after).heap[id]);
  }

  /** The job has been picked up, or canceled before it was: its log has begun. */
  predicate Begun(m: Manager, id: JobId) { id in m.heap && m.heap[id].events != [] }

  lemma BegunStays(l: Limits, m: Manager, step: Step, id: JobId)
    requires l.Valid() && Inv(l, m) && Begun(m, id)
    ensures Begun(Apply(l, m, step), id)
  {
    hide Inv, Apply;
    StepAdvances(l, m, step);
  }

  lemma SettledIsTerminal(l: Limits, m: Manager, id: JobId)
    requires Inv(l, m) && Begun(m, id) && m.heap[id].execution.None?
    ensures m.heap[id].status.Terminal()
  {
    assert LogShape(id, m.heap[id]) && CallsMatchStage(m.heap[id]);
  }

  /** What `cancel` answers at once is final; what it waits for has begun. */
  lemma CancelReplies(l: Limits, m: Manager, id: JobId, owner: PeerId)
    requires Inv(l, m)
    ensures var (n, reply) := CancelJob(l, m, id, owner);
      (reply.Unknown? <==> !m.Owns(id, owner)) && (reply.Unknown? ==> n == m) &&
      (reply.Answer? ==> reply.status.Terminal() && n.Get(id).status == reply.status) &&
      (reply.AwaitUnwind? ==> Begun(n, id) && n.heap[id].aborted)
  {
    if m.Owns(id, owner) {
      if m.heap[id].status.Queued? {
        DropQueuedOk(l, m, id);
      } else {
        assert LogShape(id, m.heap[id]);
      }
    }
  }

  /** What a `cancel` that waited for the run reports: once the run has settled the
      job is terminal, so only a timeout can make it report a live status. */
  lemma SettledRunIsTerminal(l: Limits, steps: seq<Step>, id: JobId)
    requires l.Valid() && id in Run(l, EMPTY, steps).started
    ensures var m := Run(l, EMPTY, steps);
      id in m.heap && (m.heap[id].execution.None? ==> m.heap[id].status.Terminal())
  {
    EmptyInv(l);
    RunKeepsInv(l, EMPTY, steps);
    var m := Run(l, EMPTY, steps);
    WithoutIn(m.submitted, m.dropped);
    StartedNotQueued(m);
    assert id in m.started + m.queue;
    assert id in Elements(m.submitted);
    assert CallsMatchStage(m.heap[id]);
  }

  // ---- Retention -----------------------------------------------------------

  /** Evictions follow termination order and only terminal jobs are evicted; what
      is retained stays within the caps. */
  lemma Retention(l: Limits, steps: seq<Step>)
    requires l.Valid()
    ensures var m := Run(l, EMPTY, steps);
      !m.tornDown ==>
        m.evicted + m.terminalOrder == m.terminated && Distinct(m.terminated) &&
        (forall id :: id in m.terminalOrder <==> id in m.records && m.Get(id).status.Terminal()) &&
        |m.terminalOrder| <= l.maxRetained &&
        |m.records| <= l.maxRetained + l.maxConcurrent + l.maxQueued
  {
    EmptyInv(l);
    RunKeepsInv(l, EMPTY, steps);
    var m := Run(l, EMPTY, steps);
    if !m.tornDown {
      EvictedIsTerminal(m);
      TerminalOrderRetained(m);
      assert forall id :: id in m.terminated <==> id in m.evicted || id in m.terminalOrder;
      RecordsBound(l, m);
    }
  }

  lemma UnionSize<T>(a: set<T>, b: set<T>)
    ensures |a + b| <= |a| + |b|
  {
    assert a + b == a + (b - a);
    SubsetSize(b - a, b);
  }

  lemma RecordsBound(l: Limits, m: Manager)
    requires Inv(l, m) && !m.tornDown
    ensures |m.records| <= l.maxRetained + l.maxConcurrent + l.maxQueued
  {
    EvictedIsTerminal(m);
    var terminal, queued, all := Elements(m.terminalOrder), Elements(m.queue), Elements(m.records);
    forall id | id in all
      ensures id in terminal + queued + m.running
    {
      assert CallsMatchStage(m.heap[id]);
      if m.heap[id].status.Terminal() {
        assert id in m.evicted + m.terminalOrder;
      }
    }
    TerminalOrderRetained(m);
    DistinctSize(m.terminalOrder);
    DistinctSize(m.queue);
    DistinctSize(m.records);
    SubsetSize(all, terminal + queued + m.running);
    UnionSize(terminal + queued, m.running);
    UnionSize(terminal, queued);
  }

  /** Over a run that `stop` has finished, the eviction hook has heard of every
      accepted job exactly once. */
  lemma EvictedExactlyOnce(l: Limits, steps: seq<Step>)
    requires l.Valid() && Run(l, EMPTY, steps).tornDown
    ensures var m := Run(l, EMPTY, steps);
      Distinct(m.evicted) && Elements(m.evicted) == Elements(m.submitted) && m.records == []
  {
    EmptyInv(l);
    RunKeepsInv(l, EMPTY, steps);
  }

  // ---- cancelOwnedBy -------------------------------------------------------

  /** A job that will do no more work for its owner. */
  predicate CutOff(rec: JobRecord) { rec.status.Terminal() || rec.aborted }

  /** From `m` to `n` only jobs of `owner` were touched, and none was revived. */
  ghost predicate OnlyCuts(m: Manager, n: Manager, owner: PeerId) {
    n.heap.Keys == m.heap.Keys &&
    (forall id :: id in m.heap && m.heap[id].owner != owner ==> n.heap[id] == m.heap[id]) &&
    (forall id :: id in m.heap && CutOff(m.heap[id]) ==> CutOff(n.heap[id])) &&
    (forall id :: id in m.heap ==> n.heap[id].owner == m.heap[id].owner)
  }

  lemma OnlyCutsTransitive(m: Manager, n: Manager, o: Manager, owner: PeerId)
    requires OnlyCuts(m, n, owner) && OnlyCuts(n, o, owner)
    ensures OnlyCuts(m, o, owner)
  {}

  /** Captured records that are still live cannot have gone missing. */
  ghost predicate Listed(m: Manager, ids: seq<JobId>) {
    forall id :: id in ids ==> id in m.heap && (m.heap[id].status.Terminal() || id in m.records)
  }

  lemma StillListed(l: Limits, n: Manager, ids: seq<JobId>)
    requires Inv(l, n) && !n.tornDown && forall id :: id in ids ==> id in n.heap
    ensures Listed(n, ids)
  {
    EvictedIsTerminal(n);
  }

  lemma CancelOneEffect(l: Limits, m: Manager, id: JobId, owner: PeerId)
    requires Inv(l, m) && id in m.heap && m.heap[id].owner == owner
    requires !m.heap[id].status.Terminal() && id in m.records
    ensures var (n, reply) := CancelJob(l, m, id, owner);
      Inv(l, n) && !n.tornDown && OnlyCuts(m, n, owner) && CutOff(n.heap[id]) && !reply.Unknown?
  {
    hide Inv, DropQueued, OnlyCuts, CutOff;
    ListedIsLive(l, m);
    CancelJobOk(l, m, id, owner);
    if m.heap[id].status.Queued? {
      DropQueuedOk(l, m, id);
      OneCut(m, DropQueued(l, m, id), id, owner);
    } else {
      OneCut(m, Abort(m, id), id, owner);
    }
  }

  lemma OneCut(m: Manager, n: Manager, id: JobId, owner: PeerId)
    requires id in m.heap && n.heap.Keys == m.heap.Keys && m.heap[id].owner == n.heap[id].owner == owner
    requires n.heap[id].status.Canceled? || n.heap[id].aborted
    requires forall x :: x in m.heap && x != id ==> n.heap[x] == m.heap[x]
    ensures OnlyCuts(m, n, owner) && CutOff(n.heap[id])
  {}

  lemma ListedIsLive(l: Limits, m: Manager)
    requires Inv(l, m) && m.records != []
    ensures !m.tornDown
  {}

  lemma {:induction false} CancelEachEffect(l: Limits, m: Manager, ids: seq<JobId>, owner: PeerId)
    requires Inv(l, m) && Listed(m, ids)
    ensures var (n, replies) := CancelEach(l, m, ids, owner);
      Inv(l, n) && OnlyCuts(m, n, owner) &&
      (forall id :: id in ids && m.heap[id].owner == owner ==> CutOff(n.heap[id])) &&
      forall i :: 0 <= i < |replies| ==> !replies[i].Unknown?
    decreases |ids|
  {
    hide Inv, CancelJob;
    if ids != [] {
      var id := ids[0];
      var rec := m.heap[id];
      if rec.owner != owner || rec.status.Terminal() {
        CancelEachEffect(l, m, ids[1..], owner);
      } else {
        var next := CancelJob(l, m, id, owner).0;
        CancelOneEffect(l, m, id, owner);
        StillListed(l, next, ids[1..]);
        CancelEachEffect(l, next, ids[1..], owner);
        OnlyCutsTransitive(m, next, CancelEach(l, next, ids[1..], owner).0, owner);
      }
    }
  }

  /** After `cancelOwnedBy(owner)` that owner has nothing queued and nothing running
      unaborted, every other peer's jobs are exactly as they were, and none of the
      cancellations it requested found its job unknown. */
  lemma CancelOwnedByEffect(l: Limits, steps: seq<Step>, owner: PeerId)
    requires l.Valid()
    ensures var m := Run(l, EMPTY, steps);
      var (n, replies) := CancelEach(l, m, m.records, owner);
      n == Apply(l, m, CancelOwnedBy(owner)) && n.heap.Keys == m.heap.Keys &&
      (forall id :: id in n.queue ==> m.Get(id).owner != owner) &&
      (forall id :: id in m.heap && m.heap[id].owner == owner ==> CutOff(n.heap[id])) &&
      (forall id :: id in m.heap && m.heap[id].owner != owner ==> n.heap[id] == m.heap[id]) &&
      forall i :: 0 <= i < |replies| ==> !replies[i].Unknown?
  {
    EmptyInv(l);
    RunKeepsInv(l, EMPTY, steps);
    var m := Run(l, EMPTY, steps);
    UnlistedIsCutOff(l, m);
    hide Inv, CancelEach, Run;
    CancelEachEffect(l, m, m.records, owner);
    var n := CancelEach(l, m, m.records, owner).0;
    QueuedIsLive(l, n);
  }

  /** A job that is no longer listed does no more work either. */
  lemma UnlistedIsCutOff(l: Limits, m: Manager)
    requires Inv(l, m)
    ensures Listed(m, m.records)
    ensures forall id :: id in m.heap && id !in m.records ==> CutOff(m.heap[id])
  {
    EvictedIsTerminal(m);
  }

  lemma QueuedIsLive(l: Limits, m: Manager)
    requires Inv(l, m)
    ensures forall id :: id in m.queue ==> id in m.heap && !CutOff(m.heap[id])
  {
    forall id | id in m.queue
      ensures id in m.heap && !CutOff(m.heap[id])
    {
      assert CallsMatchStage(m.heap[id]);
    }
  }
}
