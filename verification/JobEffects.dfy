/** What each step does to the jobs it concerns, said of their records and logs, and what
    it leaves alone. */
module JobEffects {
  import opened Basics
  import opened JobRecords
  import opened JobEngine
  import opened JobInvariant
  import opened JobTheorems

  /** The record has just ended with `result`: its log closes with the status and then the
      result, numbered on. */
  ghost predicate Closes(id: JobId, a: JobRecord, b: JobRecord, result: JobResult) {
    !a.status.Terminal() && b.owner == a.owner && b.status == result.status && b.result == Some(result) &&
    var k := |a.events|;
    b.events == a.events + [JobEvent(id, k, StatusEvent(result.status)), JobEvent(id, k + 1, ResultEvent(result))]
  }

  ghost predicate EndedWith(m: Manager, n: Manager, id: JobId, result: JobResult) {
    id in m.heap && id in n.heap && Closes(id, m.heap[id], n.heap[id], result)
  }

  /** No other job has changed, and nobody was queued or started. */
  ghost predicate OthersKept(m: Manager, n: Manager, id: JobId) {
    n.heap.Keys == m.heap.Keys && (forall x :: x in m.heap && x != id ==> n.heap[x] == m.heap[x]) &&
    n.running == m.running && n.started == m.started
  }

  /** The job has been taken off the queue and begins to resolve its workspace. */
  ghost predicate PickedUp(m: Manager, n: Manager, id: JobId) {
    id in m.heap && id in n.heap && m.heap[id].status.Queued? && n.heap[id].status.Running? &&
    n.heap[id].execution == Some(Resolving) && n.heap[id].owner == m.heap[id].owner && !n.heap[id].aborted &&
    n.heap[id].events == [JobEvent(id, 0, StatusEvent(Running))]
  }

  // ---- Ends ----------------------------------------------------------------

  lemma FinishCloses(id: JobId, rec: JobRecord, result: JobResult)
    requires !rec.status.Terminal()
    ensures Closes(id, rec, Finish(id, rec, result), result)
  {}

  /** What is written before and after does not concern the log. */
  lemma ClosesHeld(id: JobId, a: JobRecord, pre: JobRecord, post: JobRecord, c: JobRecord, result: JobResult)
    requires Closes(id, pre, post, result) && pre == a.(acquired := pre.acquired)
    requires c == post.(execution := c.execution, released := c.released)
    ensures Closes(id, a, c, result)
  {}

  lemma PutEnds(m: Manager, n: Manager, id: JobId, rec: JobRecord, result: JobResult)
    requires id in m.heap && n.heap == m.heap[id := rec] && Closes(id, m.heap[id], rec, result)
    requires n.running == m.running && n.started == m.started
    ensures EndedWith(m, n, id, result) && OthersKept(m, n, id)
  {
    hide Closes;
  }

  lemma InvParts(l: Limits, m: Manager)
    requires Inv(l, m)
    ensures LogsOk(m) && History(m) && CallsOk(m) && QueueIs(m, m.queue) && PumpReady(l, m)
  {}

  lemma EndExecutionEnds(l: Limits, m: Manager, id: JobId, outcome: Option<JobResult>)
    requires Inv(l, m) && m.Get(id).execution == Some(Executing) && (outcome.Some? ==> ContractResult(id, outcome.value))
    ensures var n := EndExecution(l, m, id, outcome);
      EndedWith(m, n, id, if outcome.Some? then outcome.value else JobResult(id, Failed, "INTERNAL")) &&
      OthersKept(m, n, id) && n.queue == m.queue && n.heap[id].execution == Some(Releasing) && n.heap[id].released == m.heap[id].released + 1
  {
    hide Inv, Finish, FinishJob, CallsMatchStage, Closes, OthersKept;
    StageIsRunning(l, m, id);
    var result := if outcome.Some? then outcome.value else JobResult(id, Failed, "INTERNAL");
    var rec, n := m.heap[id], EndExecution(l, m, id, outcome);
    assert m.Put(id, rec) == m;
    FinishedRecord(l, m, id, rec, result);
    FinishCloses(id, rec, result);
    FinishKeepsCalls(id, rec, result);
    ClosesHeld(id, rec, rec, Finish(id, rec, result), n.heap[id], result);
    PutEnds(m, n, id, n.heap[id], result);
  }

  lemma FailWorkspaceEnds(l: Limits, m: Manager, id: JobId)
    requires Inv(l, m) && m.Get(id).execution == Some(Resolving)
    ensures var n := FailWorkspace(l, m, id);
      EndedWith(m, n, id, JobResult(id, Failed, "WORKSPACE_UNAVAILABLE")) && OthersKept(m, n, id) && n.queue == m.queue &&
      n.heap[id].execution == Some(Unwinding) && n.heap[id].acquired == n.heap[id].released == 0
  {
    hide Inv, Finish, FinishJob, CallsMatchStage, Closes, OthersKept;
    StageIsRunning(l, m, id);
    NothingCalled(id, m.heap[id]);
    var result := WorkspaceUnavailable(id);
    var rec, n := m.heap[id], FailWorkspace(l, m, id);
    assert m.Put(id, rec) == m;
    FinishedRecord(l, m, id, rec, result);
    FinishCloses(id, rec, result);
    FinishKeepsCalls(id, rec, result);
    ClosesHeld(id, rec, rec, Finish(id, rec, result), n.heap[id], result);
    PutEnds(m, n, id, n.heap[id], result);
  }

  lemma NothingCalled(id: JobId, rec: JobRecord)
    requires CallsMatchStage(rec) && rec.execution == Some(Resolving)
    ensures rec.status.Running? && rec.acquired == rec.executed == rec.released == 0
  {}

  /** An aborted job ends canceled and gives its workspace back unused; another is handed
      to its executor. */
  lemma ResolveWorkspaceDoes(l: Limits, m: Manager, id: JobId)
    requires Inv(l, m) && m.Get(id).execution == Some(Resolving)
    ensures var n := ResolveWorkspace(l, m, id);
      OthersKept(m, n, id) && n.queue == m.queue && n.heap[id].acquired == 1 &&
      if m.heap[id].aborted then
        EndedWith(m, n, id, JobResult(id, Canceled, "CANCELED")) && n.heap[id].execution == Some(Releasing) &&
        n.heap[id].executed == 0 && n.heap[id].released == 1
      else
        n.heap[id].status.Running? && n.heap[id].execution == Some(Executing) && n.heap[id].executed == 1 &&
        n.heap[id].released == 0 && n.heap[id].events == m.heap[id].events
  {
    hide Inv, Finish, FinishJob, CallsMatchStage, Closes;
    StageIsRunning(l, m, id);
    NothingCalled(id, m.heap[id]);
    if m.heap[id].aborted {
      AbortedResolves(l, m, id);
    }
  }

  lemma AbortedResolves(l: Limits, m: Manager, id: JobId)
    requires Inv(l, m) && id in m.heap && m.heap[id].execution == Some(Resolving) && m.heap[id].aborted
    ensures var n := ResolveWorkspace(l, m, id);
      EndedWith(m, n, id, JobResult(id, Canceled, "CANCELED")) && OthersKept(m, n, id) && n.queue == m.queue &&
      n.heap[id].execution == Some(Releasing) && n.heap[id].acquired == 1 && n.heap[id].executed == 0 && n.heap[id].released == 1
  {
    hide Inv, Finish, FinishJob, CallsMatchStage, Closes, OthersKept;
    StageIsRunning(l, m, id);
    NothingCalled(id, m.heap[id]);
    var result := CanceledResult(id);
    var rec, n := m.heap[id], ResolveWorkspace(l, m, id);
    var pre := rec.(acquired := rec.acquired + 1);
    FinishedRecord(l, m, id, pre, result);
    FinishCloses(id, pre, result);
    FinishKeepsCalls(id, pre, result);
    ClosesHeld(id, rec, pre, Finish(id, pre, result), n.heap[id], result);
    assert n.heap == m.heap[id := n.heap[id]];
    PutEnds(m, n, id, n.heap[id], result);
  }

  lemma DropQueuedEnds(l: Limits, m: Manager, id: JobId)
    requires LogsOk(m) && History(m) && id in m.heap && m.heap[id].status.Queued?
    ensures var n := DropQueued(l, m, id);
      EndedWith(m, n, id, JobResult(id, Canceled, "CANCELED")) && OthersKept(m, n, id) && n.queue == Without(m.queue, {id})
  {
    hide LogsOk, History, Finish, FinishJob, Closes, OthersKept;
    var cut := m.(queue := Without(m.queue, {id}), dropped := m.dropped + {id});
    SameLogs(m, cut);
    FinishJobOk(l, cut, id, CanceledResult(id));
    FinishCloses(id, m.heap[id], CanceledResult(id));
    PutEnds(m, DropQueued(l, m, id), id, Finish(id, m.heap[id], CanceledResult(id)), CanceledResult(id));
  }

  /** Cancelling a queued job ends it where it waited; a running one is asked to stop. */
  lemma CancelDoes(l: Limits, m: Manager, id: JobId, owner: PeerId)
    requires Inv(l, m)
    ensures var n := CancelJob(l, m, id, owner).0;
      if !m.Owns(id, owner) || m.heap[id].status.Terminal() then n == m
      else if m.heap[id].status.Queued? then
        EndedWith(m, n, id, JobResult(id, Canceled, "CANCELED")) && OthersKept(m, n, id) && n.queue == Without(m.queue, {id})
      else OthersKept(m, n, id) && n.queue == m.queue && n.heap[id] == m.heap[id].(aborted := true)
  {
    InvParts(l, m);
    hide Inv, LogsOk, History, CallsOk, QueueIs, PumpReady, DropQueued, Closes;
    if m.Owns(id, owner) && m.heap[id].status.Queued? {
      DropQueuedEnds(l, m, id);
    }
  }

  /** Over all runs: a job ends with exactly what its executor returned, or as failed if it
      threw. */
  lemma ExecutorVerdict(l: Limits, steps: seq<Step>, id: JobId, outcome: Option<JobResult>)
    requires l.Valid() && Run(l, EMPTY, steps).Get(id).execution == Some(Executing)
    requires outcome.Some? ==> outcome.value.jobId == id && outcome.value.status.Terminal()
    ensures var m := Run(l, EMPTY, steps);
      var n := Apply(l, m, ExecutorFinished(id, outcome));
      id in m.heap && id in n.heap &&
      var result := if outcome.Some? then outcome.value else JobResult(id, Failed, "INTERNAL");
      n.heap[id].status == result.status && n.heap[id].result == Some(result) && m.heap[id].events <= n.heap[id].events &&
      |n.heap[id].events| == |m.heap[id].events| + 2 && Last(n.heap[id].events).body == ResultEvent(result)
  {
    hide Inv, EndExecution, Run, OthersKept;
    EmptyInv(l);
    RunKeepsInv(l, EMPTY, steps);
    EndExecutionEnds(l, Run(l, EMPTY, steps), id, outcome);
  }

  /** Over all runs: without a workspace a job ends as failed; with one, but aborted
      meanwhile, as canceled; otherwise its executor is called. */
  lemma WorkspaceVerdict(l: Limits, steps: seq<Step>, id: JobId)
    requires l.Valid() && Run(l, EMPTY, steps).Get(id).execution == Some(Resolving)
    ensures var m := Run(l, EMPTY, steps);
      id in m.heap &&
      EndedWith(m, Apply(l, m, WorkspaceFailed(id)), id, JobResult(id, Failed, "WORKSPACE_UNAVAILABLE")) &&
      var n := Apply(l, m, WorkspaceResolved(id));
      id in n.heap &&
      if m.heap[id].aborted then EndedWith(m, n, id, JobResult(id, Canceled, "CANCELED")) && n.heap[id].executed == 0
      else n.heap[id].status.Running? && n.heap[id].execution == Some(Executing) && n.heap[id].executed == 1
  {
    hide Inv, FailWorkspace, ResolveWorkspace, Run, OthersKept, Closes;
    EmptyInv(l);
    RunKeepsInv(l, EMPTY, steps);
    StageIsRunning(l, Run(l, EMPTY, steps), id);
    FailWorkspaceEnds(l, Run(l, EMPTY, steps), id);
    ResolveWorkspaceDoes(l, Run(l, EMPTY, steps), id);
    OthersStay(l, Run(l, EMPTY, steps), id);
  }

  lemma OthersStay(l: Limits, m: Manager, id: JobId)
    requires id in m.heap && OthersKept(m, ResolveWorkspace(l, m, id), id)
    ensures id in ResolveWorkspace(l, m, id).heap
  {}

  // ---- Starts --------------------------------------------------------------

  /** How many jobs the pump takes off the queue. */
  function Free(l: Limits, m: Manager): nat {
    if m.stopped || |m.running| >= l.maxConcurrent then 0 else Min(|m.queue|, l.maxConcurrent - |m.running|)
  }

  /** The first so many of the queue are picked up; nobody else has changed. */
  ghost predicate Pumped(l: Limits, m: Manager, n: Manager) { PumpedBy(m, n, Free(l, m)) }

  ghost predicate PumpedBy(m: Manager, n: Manager, k: nat) {
    k <= |m.queue| && n.queue == m.queue[k..] && n.heap.Keys == m.heap.Keys && n.running == m.running + Elements(m.queue[..k]) &&
    (forall i :: 0 <= i < k ==> PickedUp(m, n, m.queue[i])) &&
    (forall x :: x in m.heap && x !in m.queue[..k] ==> n.heap[x] == m.heap[x])
  }

  lemma {:induction false} PumpDoes(l: Limits, m: Manager)
    requires PumpReady(l, m)
    ensures Pumped(l, m, Pump(l, m))
    decreases |m.queue|
  {
    if m.stopped || |m.running| >= l.maxConcurrent || m.queue == [] {
      assert m.queue[..0] == [];
    } else {
      HeadIsStartable(l, m);
      StartJobOk(l, m);
      hide Pumped, LogsOk, CallsOk, QueueIs, OrderOk, History, StopOk;
      var next := StartJob(m.(queue := m.queue[1..]), m.queue[0]);
      PumpDoes(l, next);
      StartedThenPumped(l, m, next, Pump(l, next));
    }
  }

  lemma StartedThenPumped(l: Limits, m: Manager, next: Manager, n: Manager)
    requires LogsOk(m) && CallsOk(m) && QueueIs(m, m.queue) && !m.stopped && |m.running| < l.maxConcurrent && m.queue != []
    requires next == StartJob(m.(queue := m.queue[1..]), m.queue[0]) && Pumped(l, next, n)
    ensures Pumped(l, m, n)
  {
    hide StartJob, PickedUp, LogsOk, CallsOk, QueueIs, Free, PumpedBy;
    var id := m.queue[0];
    HeadIsIdle(m);
    QueuedIsFresh(m, id);
    QueueOnce(m);
    StartPicks(m, id);
    StartShape(m, id);
    FreeNext(l, m, next);
    OneMorePumped(m, next, n, id, Free(l, next));
  }

  lemma OneMorePumped(m: Manager, next: Manager, n: Manager, id: JobId, k: nat)
    requires m.queue != [] && id == m.queue[0] && next.queue == m.queue[1..] && id in m.heap && PumpedBy(next, n, k)
    requires next.heap.Keys == m.heap.Keys && next.running == m.running + {id}
    requires forall x :: x in m.heap && x != id ==> next.heap[x] == m.heap[x]
    requires PickedUp(m, next, id) && forall i :: 0 < i < |m.queue| ==> m.queue[i] != id
    ensures PumpedBy(m, n, k + 1)
  {
    hide PickedUp;
    QueueParts(m.queue, k);
    RestKept(m, next, n, id, k);
    AllPicked(m, next, n, id, k);
  }

  lemma AllPicked(m: Manager, next: Manager, n: Manager, id: JobId, k: nat)
    requires m.queue != [] && id == m.queue[0] && next.queue == m.queue[1..] && k <= |next.queue| && id !in next.queue[..k]
    requires next.heap.Keys == m.heap.Keys && n.heap.Keys == m.heap.Keys && id in m.heap
    requires forall x :: x in m.heap && x != id ==> next.heap[x] == m.heap[x]
    requires forall x :: x in next.heap && x !in next.queue[..k] ==> n.heap[x] == next.heap[x]
    requires PickedUp(m, next, id) && forall i :: 0 <= i < k ==> PickedUp(next, n, next.queue[i])
    ensures forall i :: 0 <= i < k + 1 ==> PickedUp(m, n, m.queue[i])
  {
    hide PickedUp;
    PickedStays(m, next, n, id);
    forall i | 0 < i < k + 1
      ensures PickedUp(m, n, m.queue[i])
    {
      assert m.queue[i] == next.queue[i - 1] == next.queue[..k][i - 1];
      PickedSooner(m, next, n, m.queue[i], id);
    }
  }

  lemma RestKept(m: Manager, next: Manager, n: Manager, id: JobId, k: nat)
    requires m.queue != [] && id == m.queue[0] && next.queue == m.queue[1..] && k <= |next.queue|
    requires next.heap.Keys == m.heap.Keys && n.heap.Keys == m.heap.Keys && id in m.heap
    requires forall x :: x in m.heap && x != id ==> next.heap[x] == m.heap[x]
    requires forall x :: x in m.queue[..k + 1] <==> x == id || x in next.queue[..k]
    requires forall x :: x in next.heap && x !in next.queue[..k] ==> n.heap[x] == next.heap[x]
    ensures forall x :: x in m.heap && x !in m.queue[..k + 1] ==> n.heap[x] == m.heap[x]
  {}

  lemma QueueParts(q: seq<JobId>, k: nat)
    requires k < |q| && forall i :: 0 < i < |q| ==> q[i] != q[0]
    ensures q[k + 1..] == q[1..][k..] && Elements(q[..k + 1]) == {q[0]} + Elements(q[1..][..k]) && q[0] !in q[1..][..k]
    ensures forall x :: x in q[..k + 1] <==> x == q[0] || x in q[1..][..k]
  {
    assert q[..k + 1] == [q[0]] + q[1..][..k];
  }

  lemma StartShape(m: Manager, id: JobId)
    requires id in m.heap && m.queue != []
    ensures var n := StartJob(m.(queue := m.queue[1..]), id);
      n.queue == m.queue[1..] && n.running == m.running + {id} && n.stopped == m.stopped && n.heap.Keys == m.heap.Keys &&
      forall x :: x in m.heap && x != id ==> n.heap[x] == m.heap[x]
  {}

  lemma StartPicks(m: Manager, id: JobId)
    requires id in m.heap && m.heap[id].status.Queued? && m.heap[id].events == [] && !m.heap[id].aborted && m.queue != []
    ensures PickedUp(m, StartJob(m.(queue := m.queue[1..]), id), id)
  {}

  lemma FreeNext(l: Limits, m: Manager, next: Manager)
    requires !m.stopped && |m.running| < l.maxConcurrent && m.queue != [] && m.queue[0] !in m.running
    requires next.queue == m.queue[1..] && next.running == m.running + {m.queue[0]} && next.stopped == m.stopped
    ensures Free(l, m) == Free(l, next) + 1
  {
    assert |next.running| == |m.running| + 1;
  }

  lemma PickedStays(m: Manager, next: Manager, n: Manager, id: JobId)
    requires PickedUp(m, next, id) && id in n.heap && n.heap[id] == next.heap[id]
    ensures PickedUp(m, n, id)
  {}

  lemma PickedSooner(m: Manager, next: Manager, n: Manager, x: JobId, id: JobId)
    requires PickedUp(next, n, x) && x != id && next.heap.Keys == m.heap.Keys
    requires forall y :: y in m.heap && y != id ==> next.heap[y] == m.heap[y]
    ensures PickedUp(m, n, x)
  {}

  lemma QueueOnce(m: Manager)
    requires QueueIs(m, m.queue)
    ensures forall i :: 0 < i < |m.queue| ==> m.queue[i] != m.queue[0]
  {}

  lemma QueuedIsFresh(m: Manager, id: JobId)
    requires LogsOk(m) && CallsOk(m) && id in m.heap && m.heap[id].status.Queued?
    ensures m.heap[id].events == [] && !m.heap[id].aborted
  {}

  /** A submission is accepted unless the manager is stopped, the type or the model is
      refused, or no slot is free and the queue is full. The job starts at once if a slot
      is free, and waits at the end of the queue otherwise. */
  lemma SubmitDoes(l: Limits, m: Manager, id: JobId, owner: PeerId, jobType: string, modelOk: bool)
    requires l.Valid() && Inv(l, m) && id !in m.heap
    ensures var n := Apply(l, m, Submit(id, owner, jobType, modelOk));
      if m.stopped || jobType !in l.executors || !modelOk || (|m.running| == l.maxConcurrent && |m.queue| == l.maxQueued) then n == m
      else
        n.heap.Keys == m.heap.Keys + {id} && (forall x :: x in m.heap ==> n.heap[x] == m.heap[x]) &&
        n.heap[id].owner == owner && n.records == m.records + [id] &&
        if |m.running| < l.maxConcurrent then
          n.heap[id].status.Running? && n.running == m.running + {id} && n.queue == m.queue == []
        else
          n.heap[id].status.Queued? && n.heap[id].events == [] && n.running == m.running && n.queue == m.queue + [id]
  {
    hide Inv, Pump, PumpReady, PickedUp;
    SlotBounds(l, m);
    if Refusal(l, m, jobType, modelOk).None? {
      var next := m.Put(id, NewRecord(owner)).(records := m.records + [id], queue := m.queue + [id], submitted := m.submitted + [id]);
      AcceptReady(l, m, id, owner);
      PumpDoes(l, next);
      PumpKeepsRecords(l, next);
      SubmitPumped(l, m, next, Pump(l, next), id, owner);
    }
  }

  lemma SlotBounds(l: Limits, m: Manager)
    requires Inv(l, m)
    ensures |m.running| <= l.maxConcurrent && |m.queue| <= l.maxQueued && (|m.running| < l.maxConcurrent ==> m.queue == [])
  {}

  lemma SubmitPumped(l: Limits, m: Manager, next: Manager, n: Manager, id: JobId, owner: PeerId)
    requires Pumped(l, next, n) && id !in m.heap && !m.stopped && (|m.running| < l.maxConcurrent ==> m.queue == [])
    requires next == m.Put(id, NewRecord(owner)).(records := m.records + [id], queue := m.queue + [id], submitted := m.submitted + [id])
    ensures n.heap.Keys == m.heap.Keys + {id} && (forall x :: x in m.heap ==> n.heap[x] == m.heap[x]) && n.heap[id].owner == owner
    ensures if |m.running| < l.maxConcurrent then
              n.heap[id].status.Running? && n.running == m.running + {id} && n.queue == []
            else
              n.heap[id].status.Queued? && n.heap[id].events == [] && n.running == m.running && n.queue == m.queue + [id]
  {
    if |m.running| < l.maxConcurrent {
      assert next.queue == [id] && next.queue[..1] == [id] && next.queue[1..] == [];
      assert PickedUp(next, n, next.queue[0]);
      assert Elements([id]) == {id};
    } else {
      assert next.queue[..0] == [] && next.queue[0..] == next.queue;
      assert Elements<JobId>([]) == {};
    }
  }

  lemma AcceptReady(l: Limits, m: Manager, id: JobId, owner: PeerId)
    requires l.Valid() && Inv(l, m) && id !in m.heap && !m.stopped
    requires |m.running| < l.maxConcurrent || |m.queue| < l.maxQueued
    ensures PumpReady(l, m.Put(id, NewRecord(owner)).(records := m.records + [id], queue := m.queue + [id], submitted := m.submitted + [id]))
  {
    var n := m.Put(id, NewRecord(owner))
              .(records := m.records + [id], queue := m.queue + [id], submitted := m.submitted + [id]);
    PutLogsOk(m, id, NewRecord(owner));
    hide LogsOk, CallsOk, QueueIs, OrderOk, History;
    AcceptedOrder(m, n, id);
    AcceptedLists(m, n, id, owner);
  }

  lemma {:induction false} PumpKeepsRecords(l: Limits, m: Manager)
    ensures var n := Pump(l, m);
      n.records == m.records && n.evicted == m.evicted && n.terminalOrder == m.terminalOrder && n.tornDown == m.tornDown
    decreases |m.queue|
  {
    if !m.stopped && |m.running| < l.maxConcurrent && m.queue != [] {
      var id := m.queue[0];
      var popped := m.(queue := m.queue[1..]);
      if id !in m.records || id !in m.heap || !m.heap[id].status.Queued? {
        PumpKeepsRecords(l, popped);
      } else {
        PumpKeepsRecords(l, StartJob(popped, id));
      }
    }
  }

  /** When a run has settled its slot is free, and the waiting jobs that fit are picked up. */
  lemma RunSettledDoes(l: Limits, m: Manager, id: JobId)
    requires Inv(l, m) && m.Get(id).execution == Some(Unwinding)
    ensures var n, freed := FreeSlot(l, m, id), m.Put(id, m.heap[id].(execution := None)).(running := m.running - {id});
      Pumped(l, freed, n) && n.heap[id] == m.heap[id].(execution := None) && id !in n.running
  {
    var rec := m.heap[id].(execution := None);
    var freed := m.Put(id, rec).(running := m.running - {id});
    UnwindingIsTerminal(l, m, id);
    InvParts(l, m);
    FreedReady(l, m, id);
    PumpDoes(l, freed);
    hide Inv, PumpReady, Pump;
    assert id !in m.queue;
  }

  lemma UnwindingIsTerminal(l: Limits, m: Manager, id: JobId)
    requires Inv(l, m) && m.Get(id).execution == Some(Unwinding)
    ensures id in m.heap && m.heap[id].status.Terminal() && id !in m.queue
  {
    assert CallsMatchStage(m.heap[id]);
  }

  lemma FreedReady(l: Limits, m: Manager, id: JobId)
    requires Inv(l, m) && m.Get(id).execution == Some(Unwinding)
    ensures PumpReady(l, m.Put(id, m.heap[id].(execution := None)).(running := m.running - {id}))
  {
    hide LogsOk, CallsOk, QueueIs, OrderOk, History, StopOk;
    var rec := m.heap[id].(execution := None);
    var n := m.Put(id, rec).(running := m.running - {id});
    SlotFreed(m, n, id, rec);
    FreedLists(m, n, id, rec);
    SubsetSize(n.running, m.running);
    FreedStop(m, n, id);
  }

  lemma FreedStop(m: Manager, n: Manager, id: JobId)
    requires StopOk(m) && id in m.heap && n == m.(heap := n.heap, running := n.running)
    requires n.heap == m.heap[id := m.heap[id].(execution := None)]
    ensures StopOk(n)
  {}

  // ---- Observations and streams --------------------------------------------

  /** An executor's emission is logged exactly if it is of an allowed kind, well formed,
      and not after the end. */
  lemma EmissionDoes(l: Limits, m: Manager, id: JobId, payload: Payload)
    requires id in m.heap && m.heap[id].executed > 0
    ensures var n, rec := Apply(l, m, ExecutorEvent(id, payload)), m.heap[id];
      OthersKept(m, n, id) && n.queue == m.queue &&
      if payload.Reported? && payload.wellFormed && !rec.status.Terminal() then
        n.heap[id].events == rec.events + [JobEvent(id, |rec.events|, Observed(payload.kind, payload.text))] &&
        n.heap[id].status == rec.status
      else n.heap[id] == rec
  {}

  /** A subscriber that leaves is handed nothing more; the others stay. */
  lemma DetachDoes(l: Limits, m: Manager, id: JobId, sub: SubscriberId)
    requires id in m.heap && sub in m.heap[id].subscribers
    ensures var n, was := Apply(l, m, Detach(id, sub)), m.heap[id].subscribers;
      OthersKept(m, n, id) && n.heap[id].subscribers.Keys == was.Keys && n.heap[id].events == m.heap[id].events &&
      !n.heap[id].subscribers[sub].live && n.heap[id].subscribers[sub].sent == was[sub].sent &&
      forall s :: s in was && s != sub ==> n.heap[id].subscribers[s] == was[s]
  {}

  // ---- Stopping ------------------------------------------------------------

  lemma {:induction false} FinishEachEnds(l: Limits, m: Manager, ids: seq<JobId>)
    requires Draining(l, m, ids) && !m.tornDown
    ensures var n := FinishEach(l, m, ids);
      n.heap.Keys == m.heap.Keys && (forall x :: x in ids ==> EndedWith(m, n, x, JobResult(x, Canceled, "CANCELED"))) &&
      (forall x :: x in m.heap && x !in ids ==> n.heap[x] == m.heap[x])
    decreases |ids|
  {
    hide Draining, FinishJob, Finish, Closes, CanceledResult;
    if ids != [] {
      var id := ids[0];
      var next := FinishJob(l, m, id, CanceledResult(id));
      DrainingHead(l, m, ids);
      FinishEachEnds(l, next, ids[1..]);
      FinishCloses(id, m.heap[id], CanceledResult(id));
      CanceledIs(id);
      assert ids == [id] + ids[1..];
    }
  }

  lemma CanceledIs(id: JobId)
    ensures CanceledResult(id) == JobResult(id, Canceled, "CANCELED")
  {}

  lemma DrainingHead(l: Limits, m: Manager, ids: seq<JobId>)
    requires Draining(l, m, ids) && !m.tornDown && ids != []
    ensures ids[0] in m.heap && ids[0] in m.records && m.heap[ids[0]].status.Queued? && ids[0] !in ids[1..]
    ensures var n := FinishJob(l, m, ids[0], CanceledResult(ids[0]));
      n.heap == m.heap[ids[0] := Finish(ids[0], m.heap[ids[0]], CanceledResult(ids[0]))] &&
      Draining(l, n, ids[1..]) && !n.tornDown
  {
    assert ids == [ids[0]] + ids[1..];
    assert ids[0] in ids;
    EvictedIsTerminal(m);
    hide FinishJob, Finish, LogsOk, CallsOk;
    DropOneOk(l, m, ids[0], ids, ids[1..]);
    FinishJobOk(l, m, ids[0], CanceledResult(ids[0]));
  }

  /** `stop` ends what is queued as canceled, asks what is running to stop, and leaves what
      is over alone. */
  lemma StopDoes(l: Limits, m: Manager)
    requires Inv(l, m) && !m.stopped
    ensures var n := BeginStop(l, m);
      n.queue == [] && n.stopped && n.heap.Keys == m.heap.Keys &&
      (forall x :: x in m.heap && m.heap[x].status.Queued? ==> EndedWith(m, n, x, JobResult(x, Canceled, "CANCELED"))) &&
      (forall x :: x in m.heap && m.heap[x].status.Running? ==> n.heap[x] == m.heap[x].(aborted := true)) &&
      (forall x :: x in m.heap && m.heap[x].status.Terminal() ==> n.heap[x] == m.heap[x].(aborted := n.heap[x].aborted))
  {
    hide FinishEach, Inv, Draining, Closes;
    var cut := m.(stopped := true, queue := [], dropped := m.dropped + Elements(m.queue));
    StopReady(l, m, cut);
    var done := FinishEach(l, cut, m.queue);
    FinishEachOk(l, cut, m.queue);
    FinishEachEnds(l, cut, m.queue);
    AllListed(l, m, done);
    QueuedIs(l, m);
    AbortOnly(done);
    EndedIsOver(cut, done, m.queue);
    hide AbortRunning, EndedWith;
    StopMeans(m, done, BeginStop(l, m));
  }

  lemma StopMeans(m: Manager, done: Manager, n: Manager)
    requires forall x :: x in m.queue <==> x in m.heap && m.heap[x].status.Queued?
    requires done.heap.Keys == m.heap.Keys == n.heap.Keys && forall x :: x in m.heap && x !in m.queue ==> done.heap[x] == m.heap[x]
    requires forall x :: x in m.heap ==> n.heap[x] == done.heap[x].(aborted := n.heap[x].aborted)
    requires forall x :: x in m.heap && done.heap[x].status.Running? ==> n.heap[x].aborted
    ensures forall x :: x in m.heap && m.heap[x].status.Running? ==> n.heap[x] == m.heap[x].(aborted := true)
    ensures forall x :: x in m.heap && m.heap[x].status.Terminal() ==> n.heap[x] == m.heap[x].(aborted := n.heap[x].aborted)
  {}

  lemma QueuedIs(l: Limits, m: Manager)
    requires Inv(l, m)
    ensures forall x :: x in m.queue <==> x in m.heap && m.heap[x].status.Queued?
  {}

  lemma AbortOnly(m: Manager)
    ensures var n := AbortRunning(m);
      n.heap.Keys == m.heap.Keys && n.queue == m.queue && n.stopped == m.stopped &&
      forall x :: x in m.heap ==> n.heap[x] == m.heap[x].(aborted := m.heap[x].aborted || (x in m.running && x in m.records))
  {}

  lemma EndedIsOver(m: Manager, n: Manager, ids: seq<JobId>)
    requires forall x :: x in ids ==> EndedWith(m, n, x, JobResult(x, Canceled, "CANCELED"))
    ensures forall x :: x in ids ==> EndedWith(m, AbortRunning(n), x, JobResult(x, Canceled, "CANCELED"))
  {}

  lemma StopReady(l: Limits, m: Manager, cut: Manager)
    requires Inv(l, m) && !m.stopped && cut == m.(stopped := true, queue := [], dropped := cut.dropped)
    ensures Draining(l, cut, m.queue) && !cut.tornDown
  {}

  /** Every running job is listed, so every one is aborted. */
  lemma AllListed(l: Limits, m: Manager, done: Manager)
    requires Draining(l, done, []) && !done.tornDown
    ensures forall x :: x in done.heap && done.heap[x].status.Running? ==> x in done.running && x in done.records
  {
    EvictedIsTerminal(done);
    forall x | x in done.heap && done.heap[x].status.Running?
      ensures x in done.running && x in done.records
    {
      assert CallsMatchStage(done.heap[x]);
    }
  }

  // ---- Eviction ------------------------------------------------------------

  /** Nothing has been evicted, or the cap is still reached. */
  predicate Sparing(l: Limits, m: Manager, n: Manager) {
    n.tornDown == m.tornDown && ((n.evicted == m.evicted && n.records == m.records) || |n.records| >= l.maxRetained)
  }

  lemma {:induction false} WithoutOne(s: seq<JobId>, id: JobId)
    requires Distinct(s)
    ensures |Without(s, {id})| >= |s| - 1 && (id !in s ==> |Without(s, {id})| == |s|)
  {
    if s != [] {
      assert s == Init(s) + [Last(s)];
      WithoutOne(Init(s), id);
    }
  }

  lemma {:induction false} EvictSpares(l: Limits, m: Manager)
    requires LogsOk(m) && History(m)
    ensures Sparing(l, m, Evict(l, m))
    decreases |m.terminalOrder|
  {
    if !m.tornDown && |m.records| > l.maxRetained && m.terminalOrder != [] {
      EvictOneOk(m);
      var oldest := m.terminalOrder[0];
      CloseAllIdle(m.heap[oldest]);
      assert m.heap[oldest := m.heap[oldest]] == m.heap;
      WithoutOne(m.records, oldest);
      EvictSpares(l, m.(terminalOrder := m.terminalOrder[1..], records := Without(m.records, {oldest}),
                        evicted := m.evicted + [oldest]));
    }
  }

  lemma FinishSpares(l: Limits, m: Manager, id: JobId, result: JobResult)
    requires LogsOk(m) && History(m) && id in m.heap && ContractResult(id, result)
    ensures Sparing(l, m, FinishJob(l, m, id, result))
  {
    if !m.heap[id].status.Terminal() {
      var rec := Finish(id, m.heap[id], result);
      FinishLog(id, m.heap[id], result);
      PutLogsOk(m, id, rec);
      var next := m.Put(id, rec).(terminalOrder := m.terminalOrder + [id], terminated := m.terminated + [id]);
      assert m.tornDown || m.evicted + next.terminalOrder == next.terminated;
      hide LogsOk, Finish;
      EvictSpares(l, next);
    }
  }

  lemma SparingTwice(l: Limits, m: Manager, n: Manager, o: Manager)
    requires Sparing(l, m, n) && Sparing(l, n, o)
    ensures Sparing(l, m, o)
  {}

  lemma CancelSpares(l: Limits, m: Manager, id: JobId, owner: PeerId)
    requires LogsOk(m) && History(m)
    ensures Sparing(l, m, CancelJob(l, m, id, owner).0)
  {
    hide LogsOk, History, FinishJob;
    if m.Owns(id, owner) && m.heap[id].status.Queued? {
      var cut := m.(queue := Without(m.queue, {id}), dropped := m.dropped + {id});
      SameLogs(m, cut);
      FinishSpares(l, cut, id, CanceledResult(id));
    }
  }

  lemma {:induction false} CancelEachSpares(l: Limits, m: Manager, ids: seq<JobId>, owner: PeerId)
    requires Inv(l, m)
    ensures Sparing(l, m, CancelEach(l, m, ids, owner).0)
    decreases |ids|
  {
    hide Inv, CancelJob;
    if ids != [] {
      var rec := m.Get(ids[0]);
      if rec.owner != owner || rec.status.Terminal() {
        CancelEachSpares(l, m, ids[1..], owner);
      } else {
        var next := CancelJob(l, m, ids[0], owner).0;
        InvParts(l, m);
        CancelSpares(l, m, ids[0], owner);
        CancelJobOk(l, m, ids[0], owner);
        CancelEachSpares(l, next, ids[1..], owner);
        SparingTwice(l, m, next, CancelEach(l, m, ids, owner).0);
      }
    }
  }

  lemma {:induction false} FinishEachSpares(l: Limits, m: Manager, ids: seq<JobId>)
    requires Draining(l, m, ids) && !m.tornDown
    ensures Sparing(l, m, FinishEach(l, m, ids))
    decreases |ids|
  {
    hide Draining, FinishJob, CanceledResult;
    if ids != [] {
      var next := FinishJob(l, m, ids[0], CanceledResult(ids[0]));
      DrainingHead(l, m, ids);
      DrainingSpares(l, m, ids);
      FinishEachSpares(l, next, ids[1..]);
      SparingTwice(l, m, next, FinishEach(l, m, ids));
    }
  }

  lemma DrainingSpares(l: Limits, m: Manager, ids: seq<JobId>)
    requires Draining(l, m, ids) && ids != []
    ensures Sparing(l, m, FinishJob(l, m, ids[0], CanceledResult(ids[0])))
  {
    hide FinishJob, LogsOk, History;
    assert ids[0] in ids;
    FinishSpares(l, m, ids[0], CanceledResult(ids[0]));
  }

  lemma StopSpares(l: Limits, m: Manager)
    requires Inv(l, m) && !m.stopped
    ensures Sparing(l, m, BeginStop(l, m))
  {
    hide Inv, Draining, FinishEach;
    var cut := m.(stopped := true, queue := [], dropped := m.dropped + Elements(m.queue));
    StopReady(l, m, cut);
    FinishEachSpares(l, cut, m.queue);
  }

  /** The steps that end one running job. */
  lemma RunSpares(l: Limits, m: Manager, id: JobId, pre: JobRecord, result: JobResult)
    requires Inv(l, m) && id in m.heap && m.heap[id].status.Running? && ContractResult(id, result)
    requires pre == m.heap[id].(acquired := pre.acquired)
    ensures Sparing(l, m, FinishJob(l, m.Put(id, pre), id, result))
  {
    InvParts(l, m);
    hide Inv, LogShape, SubscribersOk, Stamped, Distinct, Finish, FinishJob, PumpReady, CallsOk, QueueIs;
    HeldLogs(id, m.heap[id], pre);
    PutLogsOk(m, id, pre);
    HistoryFrame(m, m.Put(id, pre));
    FinishSpares(l, m.Put(id, pre), id, result);
  }

  lemma StageSpares(l: Limits, m: Manager, step: Step)
    requires Inv(l, m) && (step.WorkspaceResolved? || step.WorkspaceFailed? || step.ExecutorFinished?)
    ensures Sparing(l, m, Apply(l, m, step))
  {
    hide Inv, FinishJob, CallsMatchStage, Finish;
    if m.Get(step.id).execution == Some(Resolving) || m.Get(step.id).execution == Some(Executing) {
      StageIsRunning(l, m, step.id);
      var rec := m.heap[step.id];
      assert m.Put(step.id, rec) == m;
      match step
      case WorkspaceResolved(id) => RunSpares(l, m, id, rec.(acquired := rec.acquired + 1), CanceledResult(id));
      case WorkspaceFailed(id) => RunSpares(l, m, id, rec, WorkspaceUnavailable(id));
      case ExecutorFinished(id, outcome) =>
        if outcome.None? { RunSpares(l, m, id, rec, ExecutorThrew(id)); }
        else if ContractResult(id, outcome.value) { RunSpares(l, m, id, rec, outcome.value); }
    }
  }

  lemma StepSpares(l: Limits, m: Manager, step: Step)
    requires l.Valid() && Inv(l, m) && !step.StopTeardown?
    ensures Sparing(l, m, Apply(l, m, step)) ||
            (var n := Apply(l, m, step); n.tornDown == m.tornDown && n.evicted == m.evicted && |n.records| >= |m.records|)
  {
    hide Inv, CancelJob, CancelEach, ResolveWorkspace, FailWorkspace, EndExecution, BeginStop, Pump, Emit, Subscribe, Unsubscribe, LogsOk, History, CallsOk, QueueIs, PumpReady;
    InvParts(l, m);
    match step
    case Submit(id, owner, _, _) =>
      PumpKeepsRecords(l, m.Put(id, NewRecord(owner)).(records := m.records + [id], queue := m.queue + [id], submitted := m.submitted + [id]));
    case Cancel(id, owner) => CancelSpares(l, m, id, owner);
    case CancelOwnedBy(owner) => CancelEachSpares(l, m, m.records, owner);
    case RunSettled(id) =>
      PumpKeepsRecords(l, m.Put(id, m.Get(id).(execution := None)).(running := m.running - {id}));
    case StopBegin => if !m.stopped { StopSpares(l, m); } else { StoppedAlready(l, m); }
    case WorkspaceResolved(_) => StageSpares(l, m, step);
    case WorkspaceFailed(_) => StageSpares(l, m, step);
    case ExecutorFinished(_, _) => StageSpares(l, m, step);
    case _ =>
  }

  lemma StoppedAlready(l: Limits, m: Manager)
    requires m.stopped
    ensures BeginStop(l, m) == m
  {}

  /** Over all runs: a job is only ever evicted to make room beyond the cap. */
  lemma {:induction false} EvictedOnlyOverCap(l: Limits, steps: seq<Step>)
    requires l.Valid()
    ensures var m := Run(l, EMPTY, steps);
      m.evicted == [] || m.tornDown || |m.records| >= l.maxRetained
  {
    hide Apply, Inv;
    if steps != [] {
      EvictedOnlyOverCap(l, Init(steps));
      EmptyInv(l);
      RunKeepsInv(l, EMPTY, Init(steps));
      var m := Run(l, EMPTY, Init(steps));
      if Last(steps).StopTeardown? { TearsDown(l, m); } else { StepSpares(l, m, Last(steps)); }
    }
  }

  lemma TearsDown(l: Limits, m: Manager)
    ensures var n := Apply(l, m, StopTeardown);
      n.tornDown || n == m
  {}
}
