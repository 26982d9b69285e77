/** The worker's scheduler as a state and the atomic steps that change it. A step is
    the stretch between two awaits of the source; any interleaving of steps is a run. */
module JobEngine {
  import opened Basics
  import opened JobRecords

  datatype Limits = Limits(maxConcurrent: nat, maxQueued: nat, maxRetained: nat, executors: set<string>) {
    /** The constructor refuses a manager without a run slot. */
    predicate Valid() { maxConcurrent >= 1 }
  }

  datatype ErrorCode = INTERNAL | UNSUPPORTED_JOB_TYPE | MODEL_REFUSED | BUSY | UNKNOWN_JOB

  /** `heap` holds every record ever minted; `records` lists the retained ones in
      insertion order. The last four fields are the history of calls outward. */
  datatype Manager = Manager(
    heap: map<JobId, JobRecord>,
    records: seq<JobId>,
    queue: seq<JobId>,
    running: set<JobId>,
    terminalOrder: seq<JobId>,
    stopped: bool,
    tornDown: bool,
    submitted: seq<JobId>,
    started: seq<JobId>,
    dropped: set<JobId>,
    terminated: seq<JobId>,
    evicted: seq<JobId>)
  {
    function Get(id: JobId): JobRecord {
      if id in heap then heap[id] else NewRecord("")
    }

    function Put(id: JobId, rec: JobRecord): Manager {
      this.(heap := heap[id := rec])
    }

    predicate Owns(id: JobId, owner: PeerId) {
      id in records && id in heap && heap[id].owner == owner
    }
  }

  const EMPTY := Manager(map[], [], [], {}, [], false, false, [], [], {}, [], [])

  datatype Step =
    | Submit(id: JobId, owner: PeerId, jobType: string, modelOk: bool)
    | Cancel(id: JobId, owner: PeerId)
    | CancelOwnedBy(owner: PeerId)
    | WorkspaceResolved(id: JobId)
    | WorkspaceFailed(id: JobId)
    | ExecutorEvent(id: JobId, payload: Payload)
    | ExecutorFinished(id: JobId, outcome: Option<JobResult>)
    | ReleaseSettled(id: JobId)
    | RunSettled(id: JobId)
    | Attach(id: JobId, owner: PeerId, fromSeq: int, sub: SubscriberId)
    | Detach(id: JobId, sub: SubscriberId)
    | StopBegin
    | StopTeardown

  // ---- Building blocks -----------------------------------------------------

  /** Evicts oldest-terminal jobs until within the retention cap. */
  function Evict(l: Limits, m: Manager): Manager
    decreases |m.terminalOrder|
  {
    if |m.records| <= l.maxRetained || m.terminalOrder == [] then m
    else
      var oldest := m.terminalOrder[0];
      var popped := m.(terminalOrder := m.terminalOrder[1..]);
      if oldest !in m.records || !m.Get(oldest).status.Terminal() then Evict(l, popped)
      else Evict(l, popped.Put(oldest, CloseAll(m.Get(oldest)))
                          .(records := Without(m.records, {oldest}), evicted := m.evicted + [oldest]))
  }

  function FinishJob(l: Limits, m: Manager, id: JobId, result: JobResult): Manager {
    if m.Get(id).status.Terminal() then m
    else Evict(l, m.Put(id, Finish(id, m.Get(id), result))
                   .(terminalOrder := m.terminalOrder + [id], terminated := m.terminated + [id]))
  }

  function StartJob(m: Manager, id: JobId): Manager {
    m.Put(id, Start(id, m.Get(id))).(running := m.running + {id}, started := m.started + [id])
  }

  /** Starts queued jobs while slots are free, first in first out. */
  function Pump(l: Limits, m: Manager): Manager
    decreases |m.queue|
  {
    if m.stopped || |m.running| >= l.maxConcurrent || m.queue == [] then m
    else
      var id := m.queue[0];
      var popped := m.(queue := m.queue[1..]);
      if id !in m.records || id !in m.heap || !m.heap[id].status.Queued? then Pump(l, popped)
      else Pump(l, StartJob(popped, id))
  }

  // ---- Steps ---------------------------------------------------------------

  function Refusal(l: Limits, m: Manager, jobType: string, modelOk: bool): Option<ErrorCode> {
    if m.stopped then Some(INTERNAL)
    else if jobType !in l.executors then Some(UNSUPPORTED_JOB_TYPE)
    else if !modelOk then Some(MODEL_REFUSED)
    else if |m.running| >= l.maxConcurrent && |m.queue| >= l.maxQueued then Some(BUSY)
    else None
  }

  function Accept(l: Limits, m: Manager, id: JobId, owner: PeerId): Manager {
    Pump(l, m.Put(id, NewRecord(owner))
             .(records := m.records + [id], queue := m.queue + [id], submitted := m.submitted + [id]))
  }

  datatype CancelReply = Unknown | Answer(status: Status) | AwaitUnwind

  function DropQueued(l: Limits, m: Manager, id: JobId): Manager {
    FinishJob(l, m.(queue := Without(m.queue, {id}), dropped := m.dropped + {id}), id, CanceledResult(id))
  }

  function Abort(m: Manager, id: JobId): Manager {
    m.Put(id, m.Get(id).(aborted := true))
  }

  /** The synchronous part of `cancel`, with what it answers or waits for. */
  function CancelJob(l: Limits, m: Manager, id: JobId, owner: PeerId): (Manager, CancelReply) {
    if !m.Owns(id, owner) then (m, Unknown)
    else if m.Get(id).status.Terminal() then (m, Answer(m.Get(id).status))
    else if m.Get(id).status.Queued? then
      var next := DropQueued(l, m, id);
      (next, Answer(next.Get(id).status))
    else (Abort(m, id), AwaitUnwind)
  }

  /** `cancelOwnedBy` over the records it captured on entry, with the replies to the
      cancellations it requested. */
  function CancelEach(l: Limits, m: Manager, ids: seq<JobId>, owner: PeerId): (Manager, seq<CancelReply>)
    decreases |ids|
  {
    if ids == [] then (m, [])
    else
      var rec := m.Get(ids[0]);
      if rec.owner != owner || rec.status.Terminal() then CancelEach(l, m, ids[1..], owner)
      else
        var (next, reply) := CancelJob(l, m, ids[0], owner);
        var (end, replies) := CancelEach(l, next, ids[1..], owner);
        (end, [reply] + replies)
  }

  function EnterRelease(m: Manager, id: JobId): Manager {
    var rec := m.Get(id);
    m.Put(id, rec.(execution := Some(Releasing), released := rec.released + 1))
  }

  function ResolveWorkspace(l: Limits, m: Manager, id: JobId): Manager {
    var rec := m.Get(id);
    var held := rec.(acquired := rec.acquired + 1);
    if rec.aborted then EnterRelease(FinishJob(l, m.Put(id, held), id, CanceledResult(id)), id)
    else m.Put(id, held.(executed := rec.executed + 1, execution := Some(Executing)))
  }

  function FailWorkspace(l: Limits, m: Manager, id: JobId): Manager {
    var done := FinishJob(l, m, id, WorkspaceUnavailable(id));
    done.Put(id, done.Get(id).(execution := Some(Unwinding)))
  }

  function EndExecution(l: Limits, m: Manager, id: JobId, outcome: Option<JobResult>): Manager {
    var result := match outcome case Some(r) => r case None => ExecutorThrew(id);
    EnterRelease(FinishJob(l, m, id, result), id)
  }

  function SettleRelease(m: Manager, id: JobId): Manager {
    var rec := m.Get(id);
    m.Put(id, rec.(execution := Some(Unwinding), releaseSettled := rec.releaseSettled + 1))
  }

  function FreeSlot(l: Limits, m: Manager, id: JobId): Manager {
    Pump(l, m.Put(id, m.Get(id).(execution := None)).(running := m.running - {id}))
  }

  function FinishEach(l: Limits, m: Manager, ids: seq<JobId>): Manager
    decreases |ids|
  {
    if ids == [] then m
    else
      var next := if ids[0] in m.records && ids[0] in m.heap && m.heap[ids[0]].status.Queued?
                  then FinishJob(l, m, ids[0], CanceledResult(ids[0])) else m;
      FinishEach(l, next, ids[1..])
  }

  function AbortRunning(m: Manager): Manager {
    m.(heap := map id | id in m.heap ::
         if id in m.running && id in m.records then m.heap[id].(aborted := true) else m.heap[id])
  }

  function BeginStop(l: Limits, m: Manager): Manager {
    if m.stopped then m
    else AbortRunning(FinishEach(l, m.(stopped := true, queue := [], dropped := m.dropped + Elements(m.queue)), m.queue))
  }

  function Teardown(m: Manager): Manager {
    m.(heap := map id | id in m.heap :: if id in m.records then CloseAll(m.heap[id]) else m.heap[id],
       evicted := m.evicted + m.records, records := [], terminalOrder := [], tornDown := true)
  }

  /** A step the current state, or the executor contract, does not allow changes nothing. */
  function Apply(l: Limits, m: Manager, step: Step): Manager {
    match step
    case Submit(id, owner, jobType, modelOk) =>
      if Refusal(l, m, jobType, modelOk).Some? || id in m.heap then m else Accept(l, m, id, owner)
    case Cancel(id, owner) => CancelJob(l, m, id, owner).0
    case CancelOwnedBy(owner) => CancelEach(l, m, m.records, owner).0
    case WorkspaceResolved(id) =>
      if m.Get(id).execution == Some(Resolving) then ResolveWorkspace(l, m, id) else m
    case WorkspaceFailed(id) =>
      if m.Get(id).execution == Some(Resolving) then FailWorkspace(l, m, id) else m
    case ExecutorEvent(id, payload) =>
      if m.Get(id).executed > 0 then m.Put(id, Emit(id, m.Get(id), payload)) else m
    case ExecutorFinished(id, outcome) =>
      if m.Get(id).execution == Some(Executing) && (outcome.Some? ==> ContractResult(id, outcome.value))
      then EndExecution(l, m, id, outcome) else m
    case ReleaseSettled(id) =>
      if m.Get(id).execution == Some(Releasing) then SettleRelease(m, id) else m
    case RunSettled(id) =>
      if m.Get(id).execution == Some(Unwinding) then FreeSlot(l, m, id) else m
    case Attach(id, owner, fromSeq, sub) =>
      if m.Owns(id, owner) && sub !in m.Get(id).subscribers
      then m.Put(id, Subscribe(m.Get(id), sub, fromSeq)) else m
    case Detach(id, sub) =>
      if id in m.heap then m.Put(id, Unsubscribe(m.Get(id), sub)) else m
    case StopBegin => BeginStop(l, m)
    case StopTeardown => if m.stopped && !m.tornDown then Teardown(m) else m
  }

  function Run(l: Limits, m: Manager, steps: seq<Step>): Manager {
    if steps == [] then m else Apply(l, Run(l, m, Init(steps)), Last(steps))
  }
}
