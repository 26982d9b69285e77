/** One inductive invariant of the scheduler, kept by every step in any order. */
module JobInvariant {
  import opened Basics
  import opened JobRecords
  import opened JobEngine

  // ---- The invariant -------------------------------------------------------

  ghost predicate LogsOk(m: Manager) {
    forall id :: id in m.heap ==>
      Stamped(id, m.heap[id].events) && LogShape(id, m.heap[id]) && SubscribersOk(m.heap[id])
  }

  ghost predicate CallsOk(m: Manager) {
    forall id :: id in m.heap ==>
      CallsMatchStage(m.heap[id]) && (id in m.running <==> m.heap[id].execution.Some?)
  }

  /** `q` lists exactly the queued jobs, once each. */
  ghost predicate QueueIs(m: Manager, q: seq<JobId>) {
    Distinct(q) && forall id :: id in q <==> id in m.heap && m.heap[id].status.Queued?
  }

  /** Start order followed by the queue is submit order minus the jobs canceled
      while they waited. */
  ghost predicate OrderOk(m: Manager, q: seq<JobId>) {
    Distinct(m.submitted) && Elements(m.submitted) == m.heap.Keys && m.dropped <= m.heap.Keys &&
    m.started + q == Without(m.submitted, m.dropped)
  }

  ghost predicate SlotsOk(l: Limits, m: Manager) {
    m.running <= m.heap.Keys && |m.running| <= l.maxConcurrent
  }

  /** While not stopped a nonempty queue means every slot is taken. */
  ghost predicate NoIdleSlot(l: Limits, m: Manager) {
    m.queue != [] ==> |m.running| == l.maxConcurrent
  }

  /** `stop` leaves nothing queued and every running job aborted. */
  ghost predicate StopOk(m: Manager) {
    m.stopped ==>
      m.queue == [] && forall id :: id in m.heap && m.heap[id].status.Running? ==> m.heap[id].aborted
  }

  /** Until teardown: what was evicted, then what is still listed as terminal, is
      the termination order; only evicted records are gone. */
  ghost predicate Retained(m: Manager) {
    m.evicted + m.terminalOrder == m.terminated &&
    Distinct(m.records) && (forall id :: id in m.records <==> id in m.heap && id !in m.evicted)
  }

  ghost predicate History(m: Manager) {
    Distinct(m.terminated) &&
    (forall id :: id in m.terminated <==> id in m.heap && m.heap[id].status.Terminal()) &&
    if m.tornDown
    then m.stopped && m.records == [] && Distinct(m.evicted) && Elements(m.evicted) == m.heap.Keys
    else Retained(m)
  }

  ghost predicate Bounded(l: Limits, m: Manager) {
    !m.tornDown ==> |m.terminalOrder| <= l.maxRetained
  }

  ghost predicate Inv(l: Limits, m: Manager) {
    LogsOk(m) && CallsOk(m) && QueueIs(m, m.queue) && OrderOk(m, m.queue) &&
    SlotsOk(l, m) && NoIdleSlot(l, m) && StopOk(m) && |m.queue| <= l.maxQueued && History(m) && Bounded(l, m)
  }

  lemma EmptyInv(l: Limits)
    ensures Inv(l, EMPTY)
  {}

  // ---- Eviction and finishing ----------------------------------------------

  /** Everything but the retention lists. */
  ghost predicate SameBut(m: Manager, n: Manager) {
    n.queue == m.queue && n.running == m.running && n.stopped == m.stopped && n.tornDown == m.tornDown &&
    n.submitted == m.submitted && n.started == m.started && n.dropped == m.dropped
  }

  lemma CloseAllIdle(rec: JobRecord)
    requires NoneLive(rec.subscribers)
    ensures CloseAll(rec) == rec
  {
    assert CloseAll(rec).subscribers == rec.subscribers;
  }

  /** Evicted jobs are terminal ones, and are no longer listed as terminal. */
  lemma EvictedIsTerminal(m: Manager)
    requires History(m)
    ensures forall id :: id in m.evicted ==> id in m.heap
    ensures !m.tornDown ==> forall id :: id in m.evicted ==> id in m.terminated && id !in m.terminalOrder
  {
    if m.tornDown {
      assert forall id :: id in m.evicted ==> id in Elements(m.evicted);
    } else {
      var split := |m.evicted|;
      assert forall i :: 0 <= i < split ==> m.evicted[i] == m.terminated[i];
      assert forall i :: 0 <= i < |m.terminalOrder| ==> m.terminalOrder[i] == m.terminated[split + i];
    }
  }

  lemma TerminalOrderRetained(m: Manager)
    requires History(m) && !m.tornDown
    ensures Elements(m.terminalOrder) <= Elements(m.records) && Distinct(m.terminalOrder)
    ensures |m.terminalOrder| <= |m.records|
  {
    EvictedIsTerminal(m);
    assert forall i :: 0 <= i < |m.terminalOrder| ==> m.terminalOrder[i] == m.terminated[|m.evicted| + i];
    DistinctSize(m.terminalOrder);
    DistinctSize(m.records);
    SubsetSize(Elements(m.terminalOrder), Elements(m.records));
  }

  lemma EvictOneOk(m: Manager)
    requires History(m) && !m.tornDown && m.terminalOrder != []
    ensures var oldest := m.terminalOrder[0];
      oldest in m.records && oldest in m.heap && m.heap[oldest].status.Terminal() &&
      History(m.(terminalOrder := m.terminalOrder[1..], records := Without(m.records, {oldest}),
                 evicted := m.evicted + [oldest]))
  {
    var oldest := m.terminalOrder[0];
    TerminalOrderRetained(m);
    assert oldest in Elements(m.terminalOrder);
    assert m.terminated[|m.evicted|] == oldest;
    WithoutIn(m.records, {oldest});
    assert (m.evicted + [oldest]) + m.terminalOrder[1..] == m.terminated;
  }

  /** Eviction drops the longest-terminal jobs and nothing else. */
  lemma {:induction false} EvictOk(l: Limits, m: Manager)
    requires LogsOk(m) && History(m)
    ensures var n := Evict(l, m);
      SameBut(m, n) && n.heap == m.heap && n.terminated == m.terminated &&
      History(n) && Bounded(l, n) && m.evicted <= n.evicted && (m.tornDown ==> n.evicted == m.evicted)
    decreases |m.terminalOrder|
  {
    if m.tornDown {
    } else if |m.records| <= l.maxRetained || m.terminalOrder == [] {
      TerminalOrderRetained(m);
    } else {
      EvictOneOk(m);
      var oldest := m.terminalOrder[0];
      CloseAllIdle(m.heap[oldest]);
      assert m.heap[oldest := m.heap[oldest]] == m.heap;
      EvictOk(l, m.(terminalOrder := m.terminalOrder[1..], records := Without(m.records, {oldest}),
                    evicted := m.evicted + [oldest]));
    }
  }

  /** Putting back one record that is fine on its own. */
  lemma PutLogsOk(m: Manager, id: JobId, rec: JobRecord)
    requires LogsOk(m) && Stamped(id, rec.events) && LogShape(id, rec) && SubscribersOk(rec)
    ensures LogsOk(m.Put(id, rec))
  {}

  /** The history speaks of which jobs exist and are terminal, of nothing else. */
  lemma HistoryFrame(m: Manager, n: Manager)
    requires History(m) && n.heap.Keys == m.heap.Keys
    requires forall id :: id in m.heap ==> (n.heap[id].status.Terminal() <==> m.heap[id].status.Terminal())
    requires n.records == m.records && n.terminalOrder == m.terminalOrder && n.terminated == m.terminated
    requires n.evicted == m.evicted && n.tornDown == m.tornDown && n.stopped == m.stopped
    ensures History(n)
  {}

  lemma OrderFrame(m: Manager, n: Manager)
    requires OrderOk(m, m.queue) && n.heap.Keys == m.heap.Keys
    requires n.submitted == m.submitted && n.started == m.started && n.dropped == m.dropped && n.queue == m.queue
    ensures OrderOk(n, n.queue)
  {}

  lemma QueueFrame(m: Manager, n: Manager)
    requires QueueIs(m, m.queue) && n.heap.Keys == m.heap.Keys && n.queue == m.queue
    requires forall id :: id in m.heap ==> (n.heap[id].status.Queued? <==> m.heap[id].status.Queued?)
    ensures QueueIs(n, n.queue)
  {}

  lemma PutCallsOk(m: Manager, n: Manager, id: JobId, rec: JobRecord)
    requires CallsOk(m) && n.heap == m.heap[id := rec] && n.running - {id} == m.running - {id}
    requires CallsMatchStage(rec) && (id in n.running <==> rec.execution.Some?)
    ensures CallsOk(n)
  {
    forall x | x in n.heap && x != id
      ensures x in n.running <==> x in m.running
    {
      assert x in n.running - {id} <==> x in m.running - {id};
    }
  }

  /** One job leaves the queue. */
  lemma LeaveQueueOk(m: Manager, n: Manager, id: JobId, rec: JobRecord, q: seq<JobId>, rest: seq<JobId>)
    requires QueueIs(m, q) && n.heap == m.heap[id := rec] && !rec.status.Queued?
    requires Distinct(rest) && forall x :: x in rest <==> x in q && x != id
    ensures QueueIs(n, rest)
  {}

  lemma FinishJobOk(l: Limits, m: Manager, id: JobId, result: JobResult)
    requires LogsOk(m) && History(m)
    requires id in m.heap && !m.heap[id].status.Terminal() && ContractResult(id, result)
    ensures var n := FinishJob(l, m, id, result);
      SameBut(m, n) && LogsOk(n) && History(n) && Bounded(l, n) &&
      n.heap == m.heap[id := Finish(id, m.heap[id], result)] &&
      n.heap[id].status == result.status && m.evicted <= n.evicted &&
      n.terminated == m.terminated + [id]
  {
    FinishLog(id, m.heap[id], result);
    var rec := Finish(id, m.heap[id], result);
    PutLogsOk(m, id, rec);
    var next := m.Put(id, rec).(terminalOrder := m.terminalOrder + [id], terminated := m.terminated + [id]);
    assert m.tornDown || m.evicted + next.terminalOrder == next.terminated;
    EvictOk(l, next);
  }

  // ---- Pump ----------------------------------------------------------------

  /** All of `Inv` that `pump` may rely on; it restores the idle-slot rule. */
  ghost predicate PumpReady(l: Limits, m: Manager) {
    LogsOk(m) && CallsOk(m) && QueueIs(m, m.queue) && OrderOk(m, m.queue) && SlotsOk(l, m) &&
    History(m) && Bounded(l, m) && StopOk(m)
  }

  /** The head of the queue is always startable, so `pump` never skips. */
  lemma HeadIsStartable(l: Limits, m: Manager)
    requires LogsOk(m) && QueueIs(m, m.queue) && History(m) && !m.stopped && m.queue != []
    ensures m.queue[0] in m.records && m.queue[0] in m.heap && m.heap[m.queue[0]].status.Queued?
  {
    var id := m.queue[0];
    assert id in m.heap && m.heap[id].status.Queued?;
    if !m.tornDown {
      EvictedIsTerminal(m);
    }
  }

  lemma StartedLists(m: Manager, n: Manager, id: JobId, rec: JobRecord)
    requires QueueIs(m, m.queue) && OrderOk(m, m.queue) && History(m) && m.queue != [] && id == m.queue[0]
    requires rec.status.Running? && n.heap == m.heap[id := rec] && n.queue == m.queue[1..]
    requires n == m.(heap := n.heap, queue := n.queue, running := n.running, started := m.started + [id])
    ensures QueueIs(n, n.queue) && OrderOk(n, n.queue) && History(n)
  {
    assert id in m.queue && m.queue == [id] + n.queue;
    assert n.started + n.queue == m.started + m.queue;
    LeaveQueueOk(m, n, id, rec, m.queue, n.queue);
    HistoryFrame(m, n);
  }

  lemma HeadIsIdle(m: Manager)
    requires QueueIs(m, m.queue) && CallsOk(m) && m.queue != []
    ensures m.queue[0] in m.heap && m.queue[0] !in m.running && m.heap[m.queue[0]].status.Queued?
  {
    assert m.queue[0] in m.queue;
  }

  lemma StartJobOk(l: Limits, m: Manager)
    requires PumpReady(l, m) && !m.stopped && |m.running| < l.maxConcurrent && m.queue != []
    ensures var n := StartJob(m.(queue := m.queue[1..]), m.queue[0]);
      PumpReady(l, n) && n.queue == m.queue[1..] && n.running == m.running + {m.queue[0]} && m.queue[0] !in m.running
  {
    hide LogsOk, CallsOk, QueueIs, OrderOk, History, RecordOk, Start;
    var id := m.queue[0];
    HeadIsIdle(m);
    var n := StartJob(m.(queue := m.queue[1..]), id);
    StartedRecords(m, n, id);
    StartedLists(m, n, id, Start(id, m.heap[id]));
  }

  lemma StartedRecords(m: Manager, n: Manager, id: JobId)
    requires LogsOk(m) && CallsOk(m) && id in m.heap && m.heap[id].status.Queued?
    requires n.heap == m.heap[id := Start(id, m.heap[id])] && n.running == m.running + {id} && id !in m.running
    ensures LogsOk(n) && CallsOk(n) && Start(id, m.heap[id]).status.Running?
  {
    var rec := Start(id, m.heap[id]);
    assert rec.status.Running? && rec.execution.Some?;
    hide LogShape, SubscribersOk, Stamped, CallsMatchStage, Start;
    StartOk(id, m.heap[id]);
    PutLogsOk(m, id, rec);
    PutCallsOk(m, n, id, rec);
  }

  lemma {:induction false} PumpOk(l: Limits, m: Manager)
    requires PumpReady(l, m)
    ensures var n := Pump(l, m);
      PumpReady(l, n) && NoIdleSlot(l, n) && |n.queue| <= |m.queue| &&
      (!m.stopped && m.queue != [] && |m.running| < l.maxConcurrent ==> |n.queue| < |m.queue|)
    decreases |m.queue|
  {
    if !m.stopped && |m.running| < l.maxConcurrent && m.queue != [] {
      HeadIsStartable(l, m);
      StartJobOk(l, m);
      PumpOk(l, StartJob(m.(queue := m.queue[1..]), m.queue[0]));
    }
  }

  // ---- One lemma per step --------------------------------------------------

  lemma AcceptOk(l: Limits, m: Manager, id: JobId, owner: PeerId)
    requires l.Valid() && Inv(l, m) && id !in m.heap && !m.stopped
    requires |m.running| < l.maxConcurrent || |m.queue| < l.maxQueued
    ensures Inv(l, Accept(l, m, id, owner))
  {
    var n := m.Put(id, NewRecord(owner))
              .(records := m.records + [id], queue := m.queue + [id], submitted := m.submitted + [id]);
    PutLogsOk(m, id, NewRecord(owner));
    hide LogsOk, CallsOk, Pump, QueueIs, OrderOk, History;
    AcceptedOrder(m, n, id);
    AcceptedLists(m, n, id, owner);
    PumpOk(l, n);
  }

  lemma AcceptedLists(m: Manager, n: Manager, id: JobId, owner: PeerId)
    requires History(m) && QueueIs(m, m.queue) && CallsOk(m) && m.running <= m.heap.Keys && id !in m.heap && !m.stopped
    requires n == m.(heap := m.heap[id := NewRecord(owner)], records := m.records + [id],
                     queue := m.queue + [id], submitted := m.submitted + [id])
    ensures History(n) && QueueIs(n, n.queue) && CallsOk(n)
  {
    EvictedIsTerminal(m);
    assert id !in m.running;
  }

  lemma AcceptedOrder(m: Manager, n: Manager, id: JobId)
    requires OrderOk(m, m.queue) && id !in m.heap && n.heap.Keys == m.heap.Keys + {id}
    requires n.submitted == m.submitted + [id] && n.queue == m.queue + [id]
    requires n.started == m.started && n.dropped == m.dropped
    ensures OrderOk(n, n.queue)
  {
    assert id !in m.submitted by { assert id !in Elements(m.submitted); }
    assert Elements(n.submitted) == Elements(m.submitted) + {id};
    assert Init(n.submitted) == m.submitted;
    assert n.started + n.queue == (m.started + m.queue) + [id];
  }

  /** A change to one record that moves neither its status nor its slot. */
  lemma LocalOk(l: Limits, m: Manager, id: JobId, rec: JobRecord)
    requires Inv(l, m) && id in m.heap && RecordOk(id, rec)
    requires rec.status == m.heap[id].status && (rec.execution.Some? <==> m.heap[id].execution.Some?)
    requires m.heap[id].aborted ==> rec.aborted
    ensures Inv(l, m.Put(id, rec))
  {
    hide LogShape, SubscribersOk, Stamped, Distinct, CallsMatchStage;
    var n := m.Put(id, rec);
    assert n.heap.Keys == m.heap.Keys;
    PutLogsOk(m, id, rec);
    PutCallsOk(m, n, id, rec);
    HistoryFrame(m, n);
  }

  /** What is left of the invariant while jobs are being taken off the queue `q`. */
  ghost predicate Draining(l: Limits, m: Manager, q: seq<JobId>) {
    LogsOk(m) && CallsOk(m) && QueueIs(m, q) && SlotsOk(l, m) && History(m) && Bounded(l, m)
  }

  lemma DropOneOk(l: Limits, m: Manager, id: JobId, q: seq<JobId>, rest: seq<JobId>)
    requires Draining(l, m, q) && id in q
    requires Distinct(rest) && forall x :: x in rest <==> x in q && x != id
    ensures var n := FinishJob(l, m, id, CanceledResult(id));
      Draining(l, n, rest) && SameBut(m, n) && n.heap.Keys == m.heap.Keys && n.heap[id].status.Canceled? &&
      n.heap[id].owner == m.heap[id].owner &&
      (forall x :: x in m.heap && x != id ==> n.heap[x] == m.heap[x])
  {
    assert id in m.heap && m.heap[id].status.Queued? && CallsMatchStage(Finish(id, m.heap[id], CanceledResult(id)));
    hide LogsOk, History, FinishJob, Finish, CallsMatchStage;
    var n := FinishJob(l, m, id, CanceledResult(id));
    FinishKeepsCalls(id, m.heap[id], CanceledResult(id));
    FinishJobOk(l, m, id, CanceledResult(id));
    var rec := Finish(id, m.heap[id], CanceledResult(id));
    LeaveQueueOk(m, n, id, rec, q, rest);
    PutCallsOk(m, n, id, rec);
  }

  lemma DropQueuedOk(l: Limits, m: Manager, id: JobId)
    requires Inv(l, m) && id in m.heap && m.heap[id].status.Queued?
    ensures var n := DropQueued(l, m, id);
      Inv(l, n) && n.heap.Keys == m.heap.Keys && n.heap[id].status.Canceled? &&
      n.heap[id].owner == m.heap[id].owner && n.tornDown == m.tornDown &&
      (forall x :: x in m.heap && x != id ==> n.heap[x] == m.heap[x])
  {
    var rest := Without(m.queue, {id});
    var cut := m.(queue := rest, dropped := m.dropped + {id});
    WithoutIn(m.queue, {id});
    ShorterList(l, m, cut);
    hide LogsOk, CallsOk, History, FinishJob, OrderOk, Distinct, Draining;
    DropOneOk(l, cut, id, m.queue, rest);
    ShorterQueue(m, id);
    DropOrder(m, id);
    SameOrder(m, DropQueued(l, m, id), id);
  }

  lemma ShorterList(l: Limits, m: Manager, cut: Manager)
    requires Inv(l, m) && cut == m.(queue := cut.queue, dropped := cut.dropped)
    ensures Draining(l, cut, m.queue)
  {}

  lemma SameOrder(m: Manager, n: Manager, id: JobId)
    requires OrderOk(m, m.queue) && id in m.queue && n.submitted == m.submitted && n.started == m.started
    requires n.dropped == m.dropped + {id} && n.heap.Keys == m.heap.Keys && id in m.heap && n.queue == Without(m.queue, {id})
    ensures OrderOk(n, n.queue)
  {
    DropOrder(m, id);
  }

  lemma StartedNotQueued(m: Manager)
    requires OrderOk(m, m.queue)
    ensures forall id :: id in m.started ==> id !in m.queue
  {
    WithoutIn(m.submitted, m.dropped);
    var all := m.started + m.queue;
    forall i, k | 0 <= i < |m.started| && 0 <= k < |m.queue|
      ensures m.started[i] != m.queue[k]
    {
      assert all[i] != all[|m.started| + k];
    }
  }

  lemma DropOrder(m: Manager, id: JobId)
    requires OrderOk(m, m.queue) && id in m.queue
    ensures m.started + Without(m.queue, {id}) == Without(m.submitted, m.dropped + {id})
  {
    WithoutTwice(m.submitted, m.dropped, {id});
    WithoutConcat(m.started, m.queue, {id});
    StartedNotQueued(m);
    WithoutNone(m.started, {id});
  }

  lemma {:induction false} WithoutShorter(s: seq<JobId>, gone: set<JobId>)
    ensures |Without(s, gone)| <= |s|
  {
    if s != [] {
      WithoutShorter(Init(s), gone);
    }
  }

  lemma ShorterQueue(m: Manager, id: JobId)
    ensures |Without(m.queue, {id})| <= |m.queue|
    ensures Without(m.queue, {id}) != [] ==> m.queue != []
  {
    WithoutShorter(m.queue, {id});
  }

  lemma CancelJobOk(l: Limits, m: Manager, id: JobId, owner: PeerId)
    requires Inv(l, m)
    ensures Inv(l, CancelJob(l, m, id, owner).0)
  {
    if m.Owns(id, owner) {
      if m.heap[id].status.Queued? {
        DropQueuedOk(l, m, id);
      } else if m.heap[id].status.Running? {
        LocalOk(l, m, id, m.heap[id].(aborted := true));
      }
    }
  }

  lemma {:induction false} CancelEachOk(l: Limits, m: Manager, ids: seq<JobId>, owner: PeerId)
    requires Inv(l, m)
    ensures Inv(l, CancelEach(l, m, ids, owner).0)
    decreases |ids|
  {
    if ids != [] {
      CancelJobOk(l, m, ids[0], owner);
      var rec := m.Get(ids[0]);
      CancelEachOk(l, if rec.owner != owner || rec.status.Terminal() then m
                      else CancelJob(l, m, ids[0], owner).0, ids[1..], owner);
    }
  }

  /** A running job reaches its end: `pre` is its record as `finishJob` finds it,
      `post` the same record once the run has moved to its next stage. */
  lemma FinishRunningOk(l: Limits, m: Manager, id: JobId, pre: JobRecord, result: JobResult, post: JobRecord)
    requires Inv(l, m) && id in m.heap && m.heap[id].status.Running? && ContractResult(id, result)
    requires pre == m.heap[id].(acquired := pre.acquired)
    requires var done := Finish(id, pre, result);
      post == done.(execution := post.execution, released := post.released)
    requires post.execution.Some? && CallsMatchStage(post)
    ensures Inv(l, FinishJob(l, m.Put(id, pre), id, result).Put(id, post))
  {
    hide LogShape, SubscribersOk, Stamped, CallsMatchStage, Finish, FinishJob, QueueIs, OrderOk, History;
    var held := m.Put(id, pre);
    HeldLogs(id, m.heap[id], pre);
    PutLogsOk(m, id, pre);
    HistoryFrame(m, held);
    FinishJobOk(l, held, id, result);
    FinishedMoves(l, m, FinishJob(l, held, id, result), id, post);
  }

  lemma FinishedMoves(l: Limits, m: Manager, n: Manager, id: JobId, post: JobRecord)
    requires Inv(l, m) && id in m.heap && m.heap[id].status.Running?
    requires SameBut(m, n) && LogsOk(n) && History(n) && Bounded(l, n) && id in n.heap
    requires n.heap == m.heap[id := n.heap[id]] && n.heap[id].status.Terminal()
    requires CallsMatchStage(post) && post.execution.Some?
    requires post == n.heap[id].(execution := post.execution, released := post.released)
    ensures Inv(l, n.Put(id, post))
  {
    hide LogsOk, CallsOk, LogShape, SubscribersOk, Stamped, CallsMatchStage, QueueIs, OrderOk, History;
    RunningIsHeld(m, id);
    FinishedRecords(m, n, id, post);
    FinishedLists(m, n, id, post);
  }

  lemma RunningIsHeld(m: Manager, id: JobId)
    requires CallsOk(m) && id in m.heap && m.heap[id].status.Running?
    ensures id in m.running
  {}

  lemma FinishedRecords(m: Manager, n: Manager, id: JobId, post: JobRecord)
    requires CallsOk(m) && LogsOk(n) && id in n.heap && n.heap == m.heap[id := n.heap[id]]
    requires id in m.running && n.running == m.running && CallsMatchStage(post) && post.execution.Some?
    requires post == n.heap[id].(execution := post.execution, released := post.released)
    ensures LogsOk(n.Put(id, post)) && CallsOk(n.Put(id, post))
  {
    hide LogShape, SubscribersOk, Stamped, CallsMatchStage;
    HeldLogs(id, n.heap[id], post);
    PutLogsOk(n, id, post);
    assert n.Put(id, post).heap == m.heap[id := post];
    PutCallsOk(m, n.Put(id, post), id, post);
  }

  lemma FinishedLists(m: Manager, n: Manager, id: JobId, post: JobRecord)
    requires QueueIs(m, m.queue) && OrderOk(m, m.queue) && History(n) && SameBut(m, n)
    requires id in m.heap && m.heap[id].status.Running? && id in n.heap && n.heap == m.heap[id := n.heap[id]]
    requires n.heap[id].status.Terminal() && post.status == n.heap[id].status
    ensures var final := n.Put(id, post);
      QueueIs(final, final.queue) && OrderOk(final, final.queue) && History(final)
  {
    hide QueueIs, OrderOk, History;
    var final := n.Put(id, post);
    HistoryFrame(n, final);
    QueueFrame(m, final);
    OrderFrame(m, final);
  }

  /** The log and the streams do not depend on the calls made outward. */
  lemma HeldLogs(id: JobId, rec: JobRecord, next: JobRecord)
    requires Stamped(id, rec.events) && LogShape(id, rec) && SubscribersOk(rec)
    requires next == rec.(execution := next.execution, acquired := next.acquired, released := next.released)
    ensures Stamped(id, next.events) && LogShape(id, next) && SubscribersOk(next)
  {}

  /** What `Finish` leaves alone. */
  lemma FinishKeepsCalls(id: JobId, rec: JobRecord, result: JobResult)
    requires !rec.status.Terminal()
    ensures var n := Finish(id, rec, result);
      n.status == result.status && n.owner == rec.owner && n.acquired == rec.acquired && n.executed == rec.executed &&
      n.released == rec.released && n.releaseSettled == rec.releaseSettled && n.execution == rec.execution
  {}

  lemma StageIsRunning(l: Limits, m: Manager, id: JobId)
    requires Inv(l, m) && (m.Get(id).execution == Some(Resolving) || m.Get(id).execution == Some(Executing))
    ensures id in m.heap && m.heap[id].status.Running? && CallsMatchStage(m.heap[id])
  {}

  lemma ResolveAbortedOk(l: Limits, m: Manager, id: JobId)
    requires Inv(l, m) && m.Get(id).execution == Some(Resolving) && m.Get(id).aborted
    ensures Inv(l, ResolveWorkspace(l, m, id))
  {
    hide Inv, Finish, FinishJob;
    StageIsRunning(l, m, id);
    var pre := m.heap[id].(acquired := m.heap[id].acquired + 1);
    var done := Finish(id, pre, CanceledResult(id));
    FinishKeepsCalls(id, pre, CanceledResult(id));
    FinishedRecord(l, m, id, pre, CanceledResult(id));
    FinishRunningOk(l, m, id, pre, CanceledResult(id), done.(execution := Some(Releasing), released := 1));
  }

  lemma ResolveLiveOk(l: Limits, m: Manager, id: JobId)
    requires Inv(l, m) && m.Get(id).execution == Some(Resolving) && !m.Get(id).aborted
    ensures Inv(l, ResolveWorkspace(l, m, id))
  {
    hide LogShape, SubscribersOk, Stamped, Distinct, QueueIs, OrderOk, History;
    var rec := m.heap[id];
    var next := rec.(acquired := rec.acquired + 1, executed := rec.executed + 1, execution := Some(Executing));
    ExecutingOk(id, rec, next);
    LocalOk(l, m, id, next);
  }

  lemma ExecutingOk(id: JobId, rec: JobRecord, next: JobRecord)
    requires RecordOk(id, rec) && rec.execution == Some(Resolving)
    requires next == rec.(acquired := 1, executed := 1, execution := Some(Executing))
    ensures RecordOk(id, next)
  {}

  lemma SettledOk(id: JobId, rec: JobRecord)
    requires RecordOk(id, rec) && rec.execution == Some(Releasing)
    ensures RecordOk(id, rec.(execution := Some(Unwinding), releaseSettled := rec.releaseSettled + 1))
  {}

  /** Finishing one job of a sound state writes exactly its finished record. */
  lemma FinishedRecord(l: Limits, m: Manager, id: JobId, pre: JobRecord, result: JobResult)
    requires Inv(l, m) && id in m.heap && m.heap[id].status.Running? && ContractResult(id, result)
    requires pre == m.heap[id].(acquired := pre.acquired)
    ensures var n := FinishJob(l, m.Put(id, pre), id, result);
      n.heap == m.heap[id := Finish(id, pre, result)] && SameBut(m, n)
  {
    hide LogShape, SubscribersOk, Stamped, Distinct, Finish, FinishJob;
    HeldLogs(id, m.heap[id], pre);
    PutLogsOk(m, id, pre);
    HistoryFrame(m, m.Put(id, pre));
    FinishJobOk(l, m.Put(id, pre), id, result);
  }

  lemma FailWorkspaceOk(l: Limits, m: Manager, id: JobId)
    requires Inv(l, m) && m.Get(id).execution == Some(Resolving)
    ensures Inv(l, FailWorkspace(l, m, id))
  {
    hide Inv, Finish, FinishJob;
    StageIsRunning(l, m, id);
    var rec := m.heap[id];
    var result := WorkspaceUnavailable(id);
    assert m.Put(id, rec) == m;
    FinishKeepsCalls(id, rec, result);
    FinishedRecord(l, m, id, rec, result);
    FinishRunningOk(l, m, id, rec, result, Finish(id, rec, result).(execution := Some(Unwinding)));
  }

  lemma EndExecutionOk(l: Limits, m: Manager, id: JobId, outcome: Option<JobResult>)
    requires Inv(l, m) && m.Get(id).execution == Some(Executing)
    requires outcome.Some? ==> ContractResult(id, outcome.value)
    ensures Inv(l, EndExecution(l, m, id, outcome))
  {
    hide Inv, Finish, FinishJob;
    StageIsRunning(l, m, id);
    var result := match outcome case Some(r) => r case None => ExecutorThrew(id);
    var rec := m.heap[id];
    assert m.Put(id, rec) == m;
    FinishKeepsCalls(id, rec, result);
    FinishedRecord(l, m, id, rec, result);
    FinishRunningOk(l, m, id, rec, result, Finish(id, rec, result).(execution := Some(Releasing), released := 1));
  }

  lemma FreeSlotOk(l: Limits, m: Manager, id: JobId)
    requires Inv(l, m) && m.Get(id).execution == Some(Unwinding)
    ensures Inv(l, FreeSlot(l, m, id))
  {
    var rec := m.heap[id].(execution := None);
    var n := m.Put(id, rec).(running := m.running - {id});
    hide LogsOk, CallsOk, Pump, QueueIs, OrderOk, History;
    SlotFreed(m, n, id, rec);
    FreedLists(m, n, id, rec);
    SubsetSize(n.running, m.running);
    PumpOk(l, n);
  }

  lemma FreedLists(m: Manager, n: Manager, id: JobId, rec: JobRecord)
    requires History(m) && QueueIs(m, m.queue) && OrderOk(m, m.queue)
    requires id in m.heap && rec.status == m.heap[id].status
    requires n == m.(heap := m.heap[id := rec], running := n.running)
    ensures History(n) && QueueIs(n, n.queue) && OrderOk(n, n.queue) && n.heap.Keys == m.heap.Keys
  {
    hide QueueIs, OrderOk, History;
    assert n.heap.Keys == m.heap.Keys;
    HistoryFrame(m, n);
    QueueFrame(m, n);
    OrderFrame(m, n);
  }

  lemma SlotFreed(m: Manager, n: Manager, id: JobId, rec: JobRecord)
    requires LogsOk(m) && CallsOk(m) && id in m.heap && m.heap[id].execution == Some(Unwinding)
    requires rec == m.heap[id].(execution := None) && n.heap == m.heap[id := rec] && n.running == m.running - {id}
    ensures LogsOk(n) && CallsOk(n)
  {
    hide LogShape, SubscribersOk, Stamped;
    HeldLogs(id, m.heap[id], rec);
    PutLogsOk(m, id, rec);
    PutCallsOk(m, n, id, rec);
  }

  lemma {:induction false} FinishEachOk(l: Limits, m: Manager, ids: seq<JobId>)
    requires Draining(l, m, ids) && !m.tornDown
    ensures var n := FinishEach(l, m, ids);
      Draining(l, n, []) && SameBut(m, n) && n.heap.Keys == m.heap.Keys
    decreases |ids|
  {
    if ids != [] {
      assert ids == [ids[0]] + ids[1..];
      assert ids[0] in ids;
      EvictedIsTerminal(m);
      DropOneOk(l, m, ids[0], ids, ids[1..]);
      FinishEachOk(l, FinishJob(l, m, ids[0], CanceledResult(ids[0])), ids[1..]);
    }
  }

  lemma AbortRunningOk(l: Limits, m: Manager)
    requires Draining(l, m, []) && OrderOk(m, []) && m.queue == [] && m.stopped && !m.tornDown
    ensures Inv(l, AbortRunning(m))
  {
    hide LogsOk, CallsOk, QueueIs, OrderOk, History, StopOk;
    var n := AbortRunning(m);
    assert n.heap.Keys == m.heap.Keys;
    AbortsAll(m);
    AbortedLogs(m);
    AbortedLists(m);
  }

  lemma AbortedLists(m: Manager)
    requires CallsOk(m) && History(m) && QueueIs(m, m.queue) && OrderOk(m, m.queue)
    ensures var n := AbortRunning(m);
      CallsOk(n) && History(n) && QueueIs(n, n.queue) && OrderOk(n, n.queue)
  {
    hide QueueIs, OrderOk, History;
    var n := AbortRunning(m);
    assert n.heap.Keys == m.heap.Keys;
    HistoryFrame(m, n);
    QueueFrame(m, n);
    OrderFrame(m, n);
  }

  lemma AbortsAll(m: Manager)
    requires CallsOk(m) && History(m) && m.queue == [] && !m.tornDown
    ensures StopOk(AbortRunning(m))
  {
    EvictedIsTerminal(m);
    forall id | id in m.heap && m.heap[id].status.Running?
      ensures id in m.running && id in m.records
    {
      assert CallsMatchStage(m.heap[id]);
    }
  }

  lemma AbortedLogs(m: Manager)
    requires LogsOk(m)
    ensures LogsOk(AbortRunning(m))
  {
    hide LogShape, SubscribersOk, Stamped;
    var n := AbortRunning(m);
    forall id | id in n.heap
      ensures Stamped(id, n.heap[id].events) && LogShape(id, n.heap[id]) && SubscribersOk(n.heap[id])
    {
      AbortedLog(id, m.heap[id]);
    }
  }

  lemma AbortedLog(id: JobId, rec: JobRecord)
    requires Stamped(id, rec.events) && LogShape(id, rec) && SubscribersOk(rec)
    ensures LogShape(id, rec.(aborted := true)) && SubscribersOk(rec.(aborted := true))
  {}

  lemma BeginStopOk(l: Limits, m: Manager)
    requires Inv(l, m)
    ensures Inv(l, BeginStop(l, m))
  {
    if !m.stopped {
      var gone := Elements(m.queue);
      var cut := m.(stopped := true, queue := [], dropped := m.dropped + gone);
      FinishEachOk(l, cut, m.queue);
      WithoutTwice(m.submitted, m.dropped, gone);
      WithoutConcat(m.started, m.queue, gone);
      WithoutIn(m.submitted, m.dropped);
      StartedNotQueued(m);
      WithoutNone(m.started, gone);
      WithoutAll(m.queue, gone);
      AbortRunningOk(l, FinishEach(l, cut, m.queue));
    }
  }

  lemma {:induction false} WithoutAll(s: seq<JobId>, gone: set<JobId>)
    requires Elements(s) <= gone
    ensures Without(s, gone) == []
  {
    if s != [] {
      assert Last(s) in Elements(s);
      assert Elements(Init(s)) <= Elements(s);
      WithoutAll(Init(s), gone);
    }
  }

  lemma TeardownLogs(m: Manager)
    requires LogsOk(m)
    ensures LogsOk(Teardown(m))
  {
    hide LogShape, Stamped;
    var n := Teardown(m);
    forall id | id in n.heap
      ensures Stamped(id, n.heap[id].events) && LogShape(id, n.heap[id]) && SubscribersOk(n.heap[id])
    {
      ClosedLog(id, m.heap[id]);
    }
  }

  lemma ClosedLog(id: JobId, rec: JobRecord)
    requires Stamped(id, rec.events) && LogShape(id, rec) && SubscribersOk(rec)
    ensures Stamped(id, CloseAll(rec).events) && LogShape(id, CloseAll(rec)) && SubscribersOk(CloseAll(rec))
  {}

  lemma TeardownHistory(m: Manager)
    requires History(m) && m.stopped && !m.tornDown
    ensures History(Teardown(m))
  {
    var n := Teardown(m);
    EvictedIsTerminal(m);
    assert forall i :: 0 <= i < |m.evicted| ==> m.evicted[i] == m.terminated[i];
    assert Elements(n.evicted) == m.heap.Keys;
    DistinctConcat(m.evicted, m.records);
  }

  lemma TeardownOk(l: Limits, m: Manager)
    requires Inv(l, m) && m.stopped && !m.tornDown
    ensures Inv(l, Teardown(m))
  {
    hide History, LogsOk, QueueIs, OrderOk;
    var n := Teardown(m);
    TeardownLogs(m);
    TeardownHistory(m);
    assert n.heap.Keys == m.heap.Keys;
    QueueFrame(m, n);
    OrderFrame(m, n);
  }

  lemma RecordOfInv(l: Limits, m: Manager, id: JobId)
    requires Inv(l, m) && id in m.heap
    ensures RecordOk(id, m.heap[id])
  {}

  /** Steps that touch one record only. */
  lemma LocalStepKeepsInv(l: Limits, m: Manager, step: Step)
    requires Inv(l, m)
    requires step.ExecutorEvent? || step.ReleaseSettled? || step.Attach? || step.Detach?
    ensures Inv(l, Apply(l, m, step))
  {
    hide Inv, RecordOk, Emit, Subscribe, Unsubscribe;
    if step.id in m.heap {
      RecordOfInv(l, m, step.id);
    }
    match step
    case ExecutorEvent(id, payload) =>
      if m.Get(id).executed > 0 {
        EmitOk(id, m.heap[id], payload);
        LocalOk(l, m, id, Emit(id, m.heap[id], payload));
      }
    case ReleaseSettled(id) =>
      if m.Get(id).execution == Some(Releasing) {
        SettledOk(id, m.heap[id]);
        LocalOk(l, m, id, m.heap[id].(execution := Some(Unwinding), releaseSettled := m.heap[id].releaseSettled + 1));
      }
    case Attach(id, owner, fromSeq, sub) =>
      if m.Owns(id, owner) && sub !in m.Get(id).subscribers {
        SubscribeOk(id, m.heap[id], sub, fromSeq);
        LocalOk(l, m, id, Subscribe(m.heap[id], sub, fromSeq));
      }
    case Detach(id, sub) =>
      if id in m.heap {
        UnsubscribeOk(id, m.heap[id], sub);
        LocalOk(l, m, id, Unsubscribe(m.heap[id], sub));
      }
  }

  /** Every step keeps the invariant. */
  lemma StepKeepsInv(l: Limits, m: Manager, step: Step)
    requires l.Valid() && Inv(l, m)
    ensures Inv(l, Apply(l, m, step))
  {
    hide Inv;
    match step
    case Submit(id, owner, jobType, modelOk) =>
      if Refusal(l, m, jobType, modelOk).None? && id !in m.heap { AcceptOk(l, m, id, owner); }
    case Cancel(id, owner) => CancelJobOk(l, m, id, owner);
    case CancelOwnedBy(owner) => CancelEachOk(l, m, m.records, owner);
    case WorkspaceResolved(id) =>
      if m.Get(id).execution == Some(Resolving) {
        if m.Get(id).aborted { ResolveAbortedOk(l, m, id); } else { ResolveLiveOk(l, m, id); }
      }
    case WorkspaceFailed(id) =>
      if m.Get(id).execution == Some(Resolving) { FailWorkspaceOk(l, m, id); }
    case ExecutorFinished(id, outcome) =>
      if m.Get(id).execution == Some(Executing) && (outcome.Some? ==> ContractResult(id, outcome.value)) {
        EndExecutionOk(l, m, id, outcome);
      }
    case RunSettled(id) =>
      if m.Get(id).execution == Some(Unwinding) { FreeSlotOk(l, m, id); }
    case StopBegin => BeginStopOk(l, m);
    case StopTeardown =>
      if m.stopped && !m.tornDown { TeardownOk(l, m); }
    case _ => LocalStepKeepsInv(l, m, step);
  }

  /** The invariant holds in every reachable state. */
  lemma {:induction false} RunKeepsInv(l: Limits, m: Manager, steps: seq<Step>)
    requires l.Valid() && Inv(l, m)
    ensures Inv(l, Run(l, m, steps))
  {
    if steps != [] {
      RunKeepsInv(l, m, Init(steps));
      StepKeepsInv(l, Run(l, m, Init(steps)), Last(steps));
    }
  }
}
