/** One delegated job: its status, its append-only event log, its subscribers and
    the point its run has reached. Every operation here touches a single record;
    `JobEngine` decides which record and when. */
module JobRecords {
  import opened Basics

  type JobId = string
  type PeerId = string
  type SubscriberId = nat

  datatype Status = Queued | Running | Succeeded | Failed | Canceled {
    predicate Terminal() { Succeeded? || Failed? || Canceled? }
  }

  datatype JobResult = JobResult(jobId: JobId, status: Status, detail: string)

  /** The payloads an executor may report. */
  datatype Observation = Log | ToolCall | ToolResult

  datatype Body =
    | StatusEvent(status: Status)
    | Observed(kind: Observation, text: string)
    | ResultEvent(result: JobResult)

  datatype JobEvent = JobEvent(jobId: JobId, seqNo: nat, body: Body)

  /** What executor code hands to `emit` at run time. `Lifecycle` stands for every
      payload type outside the allow-list; `wellFormed` is the schema's verdict. */
  datatype Payload = Reported(kind: Observation, text: string, wellFormed: bool) | Lifecycle

  /** The `await` at which a picked-up job is suspended. */
  datatype Stage =
    | Resolving   // resolveWorkspace has been called
    | Executing   // executor.execute has been called
    | Releasing   // handle.release() has been called
    | Unwinding   // executeJob has settled, the slot is still held

  /** One subscription: it starts at `start` and has been handed `sent`. */
  datatype Subscription = Subscription(start: nat, sent: seq<JobEvent>, live: bool)

  datatype JobRecord = JobRecord(
    owner: PeerId,
    status: Status,
    result: Option<JobResult>,
    events: seq<JobEvent>,
    subscribers: map<SubscriberId, Subscription>,
    aborted: bool,
    execution: Option<Stage>,
    // Calls made to the outside world on behalf of this job.
    acquired: nat,
    executed: nat,
    released: nat,
    releaseSettled: nat)

  function NewRecord(owner: PeerId): JobRecord {
    JobRecord(owner, Queued, None, [], map[], false, None, 0, 0, 0, 0)
  }

  // ---- The event log -------------------------------------------------------

  /** Hands one event to one subscription. The SSE route leaves on the result. */
  function Hand(sub: Subscription, event: JobEvent): Subscription {
    if sub.live
    then Subscription(sub.start, sub.sent + [event], !event.body.ResultEvent?)
    else sub
  }

  function Append(id: JobId, rec: JobRecord, body: Body): JobRecord {
    var event := JobEvent(id, |rec.events|, body);
    rec.(events := rec.events + [event],
         subscribers := map s | s in rec.subscribers :: Hand(rec.subscribers[s], event))
  }

  /** Buffered events from `start` on, as `subscribe` replays them. */
  function Replay(events: seq<JobEvent>, start: nat): seq<JobEvent> {
    if events == [] then []
    else Replay(Init(events), start) + if Last(events).seqNo >= start then [Last(events)] else []
  }

  function Subscribe(rec: JobRecord, sub: SubscriberId, fromSeq: int): JobRecord {
    var replayed := Replay(rec.events, if fromSeq > 0 then fromSeq else 0);
    var start := if |replayed| <= |rec.events| then |rec.events| - |replayed| else 0;
    rec.(subscribers := rec.subscribers[sub := Subscription(start, replayed, !rec.status.Terminal())])
  }

  function Unsubscribe(rec: JobRecord, sub: SubscriberId): JobRecord {
    if sub in rec.subscribers
    then rec.(subscribers := rec.subscribers[sub := rec.subscribers[sub].(live := false)])
    else rec
  }

  /** The manager ends every stream still attached. */
  function CloseAll(rec: JobRecord): JobRecord {
    rec.(subscribers := map s | s in rec.subscribers :: rec.subscribers[s].(live := false))
  }

  // ---- Lifecycle -----------------------------------------------------------

  function Start(id: JobId, rec: JobRecord): JobRecord {
    Append(id, rec.(status := Running, execution := Some(Resolving)), StatusEvent(Running))
  }

  /** Terminal status event, then the result event; a terminal job is left alone. */
  function Finish(id: JobId, rec: JobRecord, result: JobResult): JobRecord {
    if rec.status.Terminal() then rec
    else
      var settled := rec.(status := result.status, result := Some(result));
      Append(id, Append(id, settled, StatusEvent(result.status)), ResultEvent(result))
  }

  /** An executor's emission: allow-listed, not after the end, and well formed. */
  function Emit(id: JobId, rec: JobRecord, payload: Payload): JobRecord {
    if payload.Lifecycle? || rec.status.Terminal() || !payload.wellFormed then rec
    else Append(id, rec, Observed(payload.kind, payload.text))
  }

  function CanceledResult(id: JobId): JobResult { JobResult(id, Canceled, "CANCELED") }

  function WorkspaceUnavailable(id: JobId): JobResult { JobResult(id, Failed, "WORKSPACE_UNAVAILABLE") }

  function ExecutorThrew(id: JobId): JobResult { JobResult(id, Failed, "INTERNAL") }

  /** What `Executor.execute` promises of a resolved result. */
  predicate ContractResult(id: JobId, result: JobResult) {
    result.jobId == id && result.status.Terminal()
  }

  // ---- Invariant of one record --------------------------------------------

  ghost predicate Stamped(id: JobId, events: seq<JobEvent>) {
    forall i :: 0 <= i < |events| ==> events[i].seqNo == i && events[i].jobId == id
  }

  /** `[running]?` followed by executor observations only. */
  ghost predicate RunLog(events: seq<JobEvent>) {
    events == [] ||
    (events[0].body == StatusEvent(Running) &&
     forall i :: 1 <= i < |events| ==> events[i].body.Observed?)
  }

  /** A whole log: `[running]? observation* [status t, result]` with one verdict. */
  ghost predicate CompleteLog(id: JobId, events: seq<JobEvent>, result: JobResult) {
    |events| >= 2 &&
    RunLog(events[..|events| - 2]) &&
    events[|events| - 2].body == StatusEvent(result.status) &&
    events[|events| - 1].body == ResultEvent(result) &&
    ContractResult(id, result)
  }

  ghost predicate LogShape(id: JobId, rec: JobRecord) {
    match rec.status
    case Queued => rec.events == [] && rec.result == None
    case Running => rec.events != [] && RunLog(rec.events) && rec.result == None
    case _ => rec.result.Some? && rec.result.value.status == rec.status &&
              CompleteLog(id, rec.events, rec.result.value)
  }

  /** A subscription has been handed a gap-free stretch of the log, and while it is
      live that stretch reaches the end. */
  ghost predicate InStep(events: seq<JobEvent>, sub: Subscription) {
    sub.start + |sub.sent| <= |events| &&
    sub.sent == events[sub.start..sub.start + |sub.sent|] &&
    (sub.live ==> sub.start + |sub.sent| == |events|)
  }

  ghost predicate Streams(events: seq<JobEvent>, subscribers: map<SubscriberId, Subscription>) {
    forall s :: s in subscribers ==> InStep(events, subscribers[s])
  }

  ghost predicate NoneLive(subscribers: map<SubscriberId, Subscription>) {
    forall s :: s in subscribers ==> !subscribers[s].live
  }

  ghost predicate SubscribersOk(rec: JobRecord) {
    Streams(rec.events, rec.subscribers) &&
    (rec.status.Terminal() ==> NoneLive(rec.subscribers))
  }

  /** Calls outward match the point the run has reached. */
  ghost predicate CallsMatchStage(rec: JobRecord) {
    match rec.execution
    case None =>
      (rec.acquired == rec.released == rec.releaseSettled <= 1 && rec.executed <= rec.acquired) &&
      !rec.status.Running? &&
      (rec.status.Queued? ==> rec.acquired == 0 && !rec.aborted)
    case Some(Resolving) =>
      rec.status.Running? && rec.acquired == rec.executed == rec.released == rec.releaseSettled == 0
    case Some(Executing) =>
      rec.status.Running? && rec.acquired == rec.executed == 1 && rec.released == rec.releaseSettled == 0
    case Some(Releasing) =>
      rec.status.Terminal() && rec.acquired == rec.released == 1 && rec.releaseSettled == 0 && rec.executed <= 1
    case Some(Unwinding) =>
      rec.status.Terminal() && rec.acquired == rec.released == rec.releaseSettled <= 1 && rec.executed <= rec.acquired
  }

  ghost predicate RecordOk(id: JobId, rec: JobRecord) {
    Stamped(id, rec.events) && LogShape(id, rec) && SubscribersOk(rec) && CallsMatchStage(rec)
  }

  // ---- Each operation keeps it --------------------------------------------

  /** The source filters the buffer by sequence number; on a stamped log that is
      exactly dropping a prefix. */
  lemma {:induction false} ReplayIsSuffix(id: JobId, events: seq<JobEvent>, start: nat)
    requires Stamped(id, events)
    ensures Replay(events, start) == events[Min(start, |events|)..]
  {
    if events != [] {
      ReplayIsSuffix(id, Init(events), start);
      assert events == Init(events) + [Last(events)];
      assert Last(events).seqNo == |events| - 1;
    }
  }

  lemma HandKeepsStep(id: JobId, events: seq<JobEvent>, sub: Subscription, event: JobEvent)
    requires InStep(events, sub)
    ensures InStep(events + [event], Hand(sub, event))
  {
    var more := events + [event];
    assert sub.sent == more[sub.start..sub.start + |sub.sent|];
    if sub.live {
      assert Hand(sub, event).sent == more[sub.start..];
    }
  }

  lemma AppendKeepsStreams(id: JobId, rec: JobRecord, body: Body)
    requires Stamped(id, rec.events) && Streams(rec.events, rec.subscribers)
    ensures Stamped(id, Append(id, rec, body).events)
    ensures Streams(Append(id, rec, body).events, Append(id, rec, body).subscribers)
    ensures body.ResultEvent? ==> NoneLive(Append(id, rec, body).subscribers)
  {
    var event := JobEvent(id, |rec.events|, body);
    forall s | s in rec.subscribers
      ensures InStep(rec.events + [event], Hand(rec.subscribers[s], event))
    {
      HandKeepsStep(id, rec.events, rec.subscribers[s], event);
    }
  }

  lemma StartOk(id: JobId, rec: JobRecord)
    requires RecordOk(id, rec) && rec.status.Queued?
    ensures RecordOk(id, Start(id, rec))
  {
    AppendKeepsStreams(id, rec.(status := Running, execution := Some(Resolving)), StatusEvent(Running));
  }

  lemma EmitOk(id: JobId, rec: JobRecord, payload: Payload)
    requires RecordOk(id, rec) && rec.executed > 0
    ensures RecordOk(id, Emit(id, rec, payload))
    ensures Emit(id, rec, payload).status == rec.status && Emit(id, rec, payload).execution == rec.execution
    ensures Emit(id, rec, payload).aborted == rec.aborted
  {
    if payload.Reported? {
      AppendKeepsStreams(id, rec, Observed(payload.kind, payload.text));
    }
  }

  /** Finishing writes a complete log and detaches every stream. */
  lemma FinishLog(id: JobId, rec: JobRecord, result: JobResult)
    requires Stamped(id, rec.events) && Streams(rec.events, rec.subscribers) && RunLog(rec.events)
    requires !rec.status.Terminal() && ContractResult(id, result)
    ensures var next := Finish(id, rec, result);
      Stamped(id, next.events) && LogShape(id, next) && SubscribersOk(next) && rec.events <= next.events
  {
    var settled := rec.(status := result.status, result := Some(result));
    AppendKeepsStreams(id, settled, StatusEvent(result.status));
    AppendKeepsStreams(id, Append(id, settled, StatusEvent(result.status)), ResultEvent(result));
    var next := Finish(id, rec, result);
    assert next.events[..|next.events| - 2] == rec.events;
  }

  lemma SwapSubscribersOk(id: JobId, rec: JobRecord, subs: map<SubscriberId, Subscription>)
    requires RecordOk(id, rec) && SubscribersOk(rec.(subscribers := subs))
    ensures RecordOk(id, rec.(subscribers := subs))
  {}

  /** What a new subscription is handed: the log from `fromSeq` on, or nothing when
      that lies past its end. */
  lemma SubscribeReplays(id: JobId, rec: JobRecord, sub: SubscriberId, fromSeq: int)
    requires Stamped(id, rec.events)
    ensures var from := if fromSeq <= 0 then 0 else Min(fromSeq, |rec.events|);
      Subscribe(rec, sub, fromSeq).subscribers ==
      rec.subscribers[sub := Subscription(from, rec.events[from..], !rec.status.Terminal())]
  {
    ReplayIsSuffix(id, rec.events, if fromSeq > 0 then fromSeq else 0);
  }

  lemma SubscribeOk(id: JobId, rec: JobRecord, sub: SubscriberId, fromSeq: int)
    requires RecordOk(id, rec)
    ensures RecordOk(id, Subscribe(rec, sub, fromSeq))
    ensures Subscribe(rec, sub, fromSeq).status == rec.status && Subscribe(rec, sub, fromSeq).execution == rec.execution
    ensures Subscribe(rec, sub, fromSeq).aborted == rec.aborted
  {
    SubscribeReplays(id, rec, sub, fromSeq);
    var from := if fromSeq <= 0 then 0 else Min(fromSeq, |rec.events|);
    assert InStep(rec.events, Subscription(from, rec.events[from..], !rec.status.Terminal()));
    SwapSubscribersOk(id, rec, Subscribe(rec, sub, fromSeq).subscribers);
  }

  lemma UnsubscribeOk(id: JobId, rec: JobRecord, sub: SubscriberId)
    requires RecordOk(id, rec)
    ensures RecordOk(id, Unsubscribe(rec, sub))
    ensures Unsubscribe(rec, sub).status == rec.status && Unsubscribe(rec, sub).execution == rec.execution
    ensures Unsubscribe(rec, sub).aborted == rec.aborted
  {
    SwapSubscribersOk(id, rec, Unsubscribe(rec, sub).subscribers);
  }

  /** Reading a complete log: exactly one result event, and it is the last. */
  lemma {:induction false} ResultIsLast(id: JobId, rec: JobRecord)
    requires RecordOk(id, rec)
    ensures forall i :: 0 <= i < |rec.events| ==>
      (rec.events[i].body.ResultEvent? <==> rec.status.Terminal() && i == |rec.events| - 1)
  {
    if rec.status.Terminal() {
      var run := rec.events[..|rec.events| - 2];
      assert forall i :: 0 <= i < |run| ==> rec.events[i] == run[i];
    }
  }
}
