/** The known-nodes registry: an insertion-ordered, size-capped table whose saves are
    coalesced. A step is a stretch of the source between two awaits. */
module KnownNodes {
  import opened Basics
  import opened DurableStore
  import opened OrderedMaps

  type DeviceId = string

  datatype KnownNode = KnownNode(deviceId: DeviceId, name: Option<string>, host: string, port: nat, lastSeenAt: int, source: string)

  type Nodes = seq<KnownNode>

  const MAX_KNOWN_NODES: nat := 512

  // ---- The table -----------------------------------------------------------

  function Find(nodes: Nodes, id: DeviceId): (i: nat)
    ensures i <= |nodes|
    ensures i < |nodes| ==> nodes[i].deviceId == id
    ensures forall k :: 0 <= k < i ==> nodes[k].deviceId != id
  {
    IndexOf(nodes, (n: KnownNode) => n.deviceId, id)
  }

  function Set(nodes: Nodes, node: KnownNode): Nodes {
    Assign(nodes, (n: KnownNode) => n.deviceId, node)
  }

  function Oldest(nodes: Nodes): (i: nat)
    requires nodes != []
    ensures i < |nodes|
    ensures forall k :: 0 <= k < |nodes| ==> nodes[i].lastSeenAt <= nodes[k].lastSeenAt
    ensures forall k :: 0 <= k < i ==> nodes[i].lastSeenAt < nodes[k].lastSeenAt
  {
    FirstOldest(nodes, (n: KnownNode) => n.lastSeenAt)
  }

  function Trim(nodes: Nodes): Nodes
    decreases |nodes|
  {
    if |nodes| <= MAX_KNOWN_NODES then nodes else Trim(RemoveAt(nodes, Oldest(nodes)))
  }

  ghost predicate UniqueIds(nodes: Nodes) {
    forall i, j :: 0 <= i < j < |nodes| ==> nodes[i].deviceId != nodes[j].deviceId
  }

  lemma SetUnique(nodes: Nodes, node: KnownNode)
    requires UniqueIds(nodes)
    ensures UniqueIds(Set(nodes, node)) && node in Set(nodes, node)
    ensures forall n :: n in Set(nodes, node) ==> n == node || (n in nodes && n.deviceId != node.deviceId)
  {
    var i := Find(nodes, node.deviceId);
    var next := Set(nodes, node);
    assert next[i] == node;
  }

  /** Trimming stops at the cap and only ever drops sightings no newer than any kept. */
  lemma {:induction false} TrimKeepsNewest(nodes: Nodes)
    requires UniqueIds(nodes)
    ensures UniqueIds(Trim(nodes)) && |Trim(nodes)| == Min(|nodes|, MAX_KNOWN_NODES)
    ensures forall n :: n in Trim(nodes) ==> n in nodes
    ensures forall n, k :: n in nodes && n !in Trim(nodes) && k in Trim(nodes) ==> n.lastSeenAt <= k.lastSeenAt
    decreases |nodes|
  {
    if |nodes| > MAX_KNOWN_NODES {
      RemoveAtMembers(nodes, Oldest(nodes));
      TrimKeepsNewest(RemoveAt(nodes, Oldest(nodes)));
    }
  }

  lemma RemoveAtMembers(nodes: Nodes, i: nat)
    requires UniqueIds(nodes) && i < |nodes|
    ensures UniqueIds(RemoveAt(nodes, i))
    ensures forall n :: n in RemoveAt(nodes, i) <==> n in nodes && n != nodes[i]
  {
    var rest := RemoveAt(nodes, i);
    assert forall k :: 0 <= k < i ==> rest[k] == nodes[k];
    assert forall k :: i <= k < |rest| ==> rest[k] == nodes[k + 1];
    assert nodes == nodes[..i] + [nodes[i]] + nodes[i + 1..];
  }

  /** What recording does to the table: below the cap the node is put in its old place or
      at the end and every other entry stays; at the cap an entry can be lost, but only one
      that is no newer than all that are kept. */
  ghost predicate Recorded(before: Nodes, after: Nodes, node: KnownNode) {
    (forall n :: n in after ==> n == node || (n in before && n.deviceId != node.deviceId)) &&
    (forall n :: n == node || (n in before && n.deviceId != node.deviceId) ==>
      n in after || (|after| == MAX_KNOWN_NODES && forall k :: k in after ==> n.lastSeenAt <= k.lastSeenAt)) &&
    (|before| < MAX_KNOWN_NODES || (|before| == MAX_KNOWN_NODES && Known(before, node.deviceId)) ==> Placed(before, after, node))
  }

  predicate Known(nodes: Nodes, id: DeviceId) { exists n :: n in nodes && n.deviceId == id }

  ghost predicate Placed(before: Nodes, after: Nodes, node: KnownNode) {
    |after| == |before| + (if Known(before, node.deviceId) then 0 else 1) && node in after &&
    forall i :: 0 <= i < |before| ==> after[i] == if before[i].deviceId == node.deviceId then node else before[i]
  }

  lemma SetPlaces(nodes: Nodes, node: KnownNode)
    requires UniqueIds(nodes)
    ensures Placed(nodes, Set(nodes, node), node)
  {
    var i, after := Find(nodes, node.deviceId), Set(nodes, node);
    if i < |nodes| {
      assert nodes[i] in nodes && after[i] == node;
    } else {
      assert forall n :: n in nodes ==> n.deviceId != node.deviceId;
      assert after[i] == node;
    }
  }

  lemma PlacedMembers(before: Nodes, after: Nodes, node: KnownNode)
    requires Placed(before, after, node)
    ensures forall n :: n in before && n.deviceId != node.deviceId ==> n in after
  {
    forall n | n in before && n.deviceId != node.deviceId
      ensures n in after
    {
      var i :| 0 <= i < |before| && before[i] == n;
      assert after[i] == n;
    }
  }

  lemma RecordDoes(nodes: Nodes, node: KnownNode)
    requires UniqueIds(nodes)
    ensures Recorded(nodes, Trim(Set(nodes, node)), node)
  {
    hide Trim, Set, UniqueIds;
    var all := Set(nodes, node);
    SetUnique(nodes, node);
    SetPlaces(nodes, node);
    PlacedMembers(nodes, all, node);
    TrimKeepsNewest(all);
    TrimsNothing(all);
  }

  lemma TrimsNothing(nodes: Nodes)
    ensures |nodes| <= MAX_KNOWN_NODES ==> Trim(nodes) == nodes
  {}

  /** Removing takes out the node and nothing else. */
  ghost predicate TakenOut(before: Nodes, after: Nodes, id: DeviceId) {
    (forall n :: n in after <==> n in before && n.deviceId != id) &&
    (after == before || exists i :: 0 <= i < |before| && before[i].deviceId == id && after == RemoveAt(before, i))
  }

  lemma RemoveDoes(nodes: Nodes, id: DeviceId)
    requires UniqueIds(nodes)
    ensures TakenOut(nodes, Removed(nodes, id), id)
  {
    var i := Find(nodes, id);
    if i < |nodes| {
      RemoveAtMembers(nodes, i);
    }
  }

  // ---- The coalescing writer ----------------------------------------------

  /** What `writing` and the microtasks behind it are doing. */
  datatype Phase =
    | Idle                                                   // writing === null
    | Creating(waiters: seq<Caller>)                         // awaiting mkdir
    | Saving(waiters: seq<Caller>, content: Nodes)           // temp file written, rename to come
    | Settled                                                // settled, bookkeeping not yet run
    | Chained(waiters: seq<Caller>)                          // promoted follow-up about to start

  datatype Registry = Registry(
    entries: Nodes,
    file: Nodes,
    phase: Phase,
    pending: Option<seq<Caller>>,
    tempCounter: nat,
    // History of the run; `version` is that of the snapshot being saved.
    trail: Trail<Nodes>,
    version: nat,
    begun: nat,
    ended: nat,
    lastOk: bool)

  datatype Step =
    | Record(caller: Caller, node: KnownNode, valid: bool)
    | Remove(caller: Caller, id: DeviceId)
    | DirectoryReady
    | DirectoryFailed
    | SaveDone
    | SaveFailed
    | Promote
    | StartFollowUp

  function Load(content: Nodes): Registry {
    Registry(content, content, Idle, None, 0, Loaded(content), 0, 0, 0, true)
  }

  /** Joins `caller` to the write that will carry its change. */
  function Persist(m: Registry, caller: Caller): Registry {
    if m.phase.Idle? then m.(phase := Creating([caller]), begun := m.begun + 1)
    else
      var joined := match m.pending case None => [] case Some(waiters) => waiters;
      m.(pending := Some(joined + [caller]))
  }

  function Mutated(m: Registry, caller: Caller, entries: Nodes): Registry {
    Persist(m.(entries := entries, trail := Moved(m.trail, Mutate(caller, entries))), caller)
  }

  function Removed(nodes: Nodes, id: DeviceId): Nodes {
    var i := Find(nodes, id);
    if i < |nodes| then RemoveAt(nodes, i) else nodes
  }

  function Answer(m: Registry, callers: seq<Caller>, ok: bool): Registry {
    m.(phase := Settled, ended := m.ended + 1, lastOk := ok, trail := m.trail.(answers := Answered(m.trail.answers, callers, ok)))
  }

  function Apply(m: Registry, step: Step): Registry {
    match step
    case Record(c, node, valid) =>
      if !valid || c in m.trail.calls then m else Mutated(m, c, Trim(Set(m.entries, node)))
    case Remove(c, id) =>
      if Find(m.entries, id) == |m.entries| || c in m.trail.calls then m
      else Mutated(m, c, Removed(m.entries, id))
    case DirectoryReady =>
      if !m.phase.Creating? || m.trail.history == [] then m
      else m.(phase := Saving(m.phase.waiters, m.entries), version := |m.trail.history| - 1, tempCounter := m.tempCounter + 1)
    case DirectoryFailed =>
      if !m.phase.Creating? || m.trail.history == [] then m
      else Answer(m.(trail := Moved(m.trail, Fail(|m.trail.history| - 1))), m.phase.waiters, false)
    case SaveDone =>
      if !m.phase.Saving? then m
      else Answer(m.(file := m.phase.content, trail := Moved(m.trail, Commit(m.version))), m.phase.waiters, true)
    case SaveFailed =>
      if !m.phase.Saving? then m
      else Answer(m.(trail := Moved(m.trail, Fail(m.version))), m.phase.waiters, false)
    case Promote =>
      if !m.phase.Settled? then m
      else if m.pending.None? then m.(phase := Idle)
      else m.(phase := Chained(m.pending.value), pending := None)
    case StartFollowUp =>
      if !m.phase.Chained? then m else m.(phase := Creating(m.phase.waiters), begun := m.begun + 1)
  }

  function Run(m: Registry, steps: seq<Step>): Registry {
    if steps == [] then m else Apply(Run(m, Init(steps)), Last(steps))
  }

  // ---- Invariant -----------------------------------------------------------

  function InFlight(m: Registry): seq<Caller> {
    match m.phase
    case Creating(w) => w
    case Saving(w, _) => w
    case Chained(w) => w
    case _ => []
  }

  function Queued(m: Registry): seq<Caller> {
    match m.pending case None => [] case Some(w) => w
  }

  ghost predicate Linked(m: Registry) {
    m.trail.Sound() && m.entries == Last(m.trail.history) && m.file == m.trail.File() &&
    (m.phase.Saving? ==>
      m.version < |m.trail.history| && m.phase.content == m.trail.history[m.version] &&
      Last(m.trail.commits) <= m.version) &&
    (m.pending.Some? ==> m.pending.value != []) && (m.phase.Idle? ==> m.pending.None?) &&
    (forall c :: c in m.trail.calls ==> m.trail.calls[c] < |m.trail.history|)
  }

  /** Every unanswered caller waits in exactly one place. */
  ghost predicate Waiting(m: Registry) {
    Distinct(InFlight(m) + Queued(m)) && m.trail.answers.Keys <= m.trail.calls.Keys &&
    forall c :: c in InFlight(m) + Queued(m) <==> c in m.trail.calls && c !in m.trail.answers
  }

  /** A write in progress covers the callers waiting for it. */
  ghost predicate Covers(m: Registry) {
    m.phase.Saving? ==> forall c :: c in m.phase.waiters && c in m.trail.calls ==> m.trail.calls[c] <= m.version
  }

  /** A change not covered by the current or last write has a write to come. */
  ghost predicate NothingForgotten(m: Registry) {
    m.trail.Sound() &&
    match m.phase
    case Idle => m.lastOk ==> Last(m.trail.commits) == |m.trail.history| - 1
    case Settled => m.pending.None? && m.lastOk ==> Last(m.trail.commits) == |m.trail.history| - 1
    case Saving(_, _) => m.pending.None? ==> m.version == |m.trail.history| - 1
    case _ => true
  }

  /** Writes begun, counting the follow-up that is already owed. */
  function Cost(m: Registry): nat {
    m.begun + (if m.pending.Some? then 1 else 0) + (if m.phase.Chained? then 1 else 0)
  }

  /** One write at a time, and never more writes than calls. */
  ghost predicate Counted(m: Registry) {
    m.begun == m.ended + (if m.phase.Creating? || m.phase.Saving? then 1 else 0) &&
    m.tempCounter <= m.ended + (if m.phase.Saving? then 1 else 0) && Cost(m) <= |m.trail.calls|
  }

  ghost predicate Inv(m: Registry) {
    Linked(m) && Waiting(m) && Covers(m) && NothingForgotten(m) && Counted(m)
  }

  // ---- Refinement ----------------------------------------------------------

  /** The contract moves one step amounts to. */
  function Explain(m: Registry, step: Step): seq<Move<Nodes>> {
    match step
    case Record(c, node, valid) =>
      if !valid || c in m.trail.calls then [] else [Mutate(c, Trim(Set(m.entries, node)))]
    case Remove(c, id) =>
      if Find(m.entries, id) == |m.entries| || c in m.trail.calls then []
      else [Mutate(c, Removed(m.entries, id))]
    case DirectoryFailed =>
      if !m.phase.Creating? || m.trail.history == [] then []
      else [Move.Fail(|m.trail.history| - 1)] + Answers(m.phase.waiters, false)
    case SaveDone =>
      if !m.phase.Saving? then [] else [Commit(m.version)] + Answers(m.phase.waiters, true)
    case SaveFailed =>
      if !m.phase.Saving? then [] else [Move.Fail(m.version)] + Answers(m.phase.waiters, false)
    case _ => []
  }

  lemma EndAllowed(m: Registry, first: Move<Nodes>, ok: bool)
    requires Inv(m) && (m.phase.Creating? || m.phase.Saving?) && (ok ==> m.phase.Saving?)
    requires first == (if ok then Commit(m.version)
                       else Move.Fail(if m.phase.Saving? then m.version else |m.trail.history| - 1))
    ensures var moves := [first] + Answers(m.phase.waiters, ok);
      var next := Moved(m.trail, first);
      AllAllowed(m.trail, moves) &&
      Moves(m.trail, moves) == next.(answers := Answered(next.answers, m.phase.waiters, ok))
  {
    var waiters := m.phase.waiters;
    var next := Moved(m.trail, first);
    forall c | c in waiters
      ensures c in m.trail.calls && c !in m.trail.answers
    {
      assert c in InFlight(m) + Queued(m);
    }
    assert forall i :: 0 <= i < |waiters| ==> waiters[i] == (InFlight(m) + Queued(m))[i];
    AnswersAllowed(next, waiters, ok);
    assert ([first] + Answers(waiters, ok))[1..] == Answers<Nodes>(waiters, ok);
  }

  /** Every step of the coalescing registry is a list of moves its contract allows:
      in particular no caller is told "done" before a write whose snapshot is at
      least as new as its change has landed. */
  lemma StepRefines(m: Registry, step: Step)
    requires Inv(m)
    ensures AllAllowed(m.trail, Explain(m, step))
    ensures Apply(m, step).trail == Moves(m.trail, Explain(m, step))
  {
    hide Inv, Trim, Set, Find, RemoveAt;
    InvSound(m);
    match step
    case DirectoryFailed =>
      if m.phase.Creating? { EndAllowed(m, Move.Fail(|m.trail.history| - 1), false); }
    case SaveDone =>
      if m.phase.Saving? { EndAllowed(m, Commit(m.version), true); }
    case SaveFailed =>
      if m.phase.Saving? { EndAllowed(m, Move.Fail(m.version), false); }
    case _ =>
  }

  // ---- Every step keeps the invariant --------------------------------------

  lemma MutatedOk(m: Registry, caller: Caller, entries: Nodes)
    requires Inv(m) && caller !in m.trail.calls
    ensures Inv(Mutated(m, caller, entries))
  {
    MutatedWaiting(m, caller, entries);
    MutatedWrites(m, caller, entries);
  }

  lemma MutatedWrites(m: Registry, caller: Caller, entries: Nodes)
    requires Linked(m) && Covers(m) && NothingForgotten(m) && Counted(m) && caller !in m.trail.calls
    requires caller !in InFlight(m)
    ensures var n := Mutated(m, caller, entries);
      Linked(n) && Covers(n) && NothingForgotten(n) && Counted(n)
  {
    var n := Mutated(m, caller, entries);
    assert |n.trail.calls| == |m.trail.calls| + 1;
    assert n.trail.File() == m.trail.File();
  }

  lemma MutatedWaiting(m: Registry, caller: Caller, entries: Nodes)
    requires Waiting(m) && caller !in m.trail.calls && (m.phase.Idle? ==> m.pending.None?)
    ensures Waiting(Mutated(m, caller, entries))
    ensures caller !in InFlight(m)
  {
    var n := Mutated(m, caller, entries);
    assert caller !in InFlight(m) + Queued(m);
    assert InFlight(n) + Queued(n) == InFlight(m) + Queued(m) + [caller];
  }

  lemma BatchLeaves(waiters: seq<Caller>, rest: seq<Caller>, calls: map<Caller, nat>, answers: map<Caller, bool>, ok: bool)
    requires Distinct(waiters + rest) && answers.Keys <= calls.Keys
    requires forall c :: c in waiters + rest <==> c in calls && c !in answers
    ensures var now := Answered(answers, waiters, ok);
      Distinct(rest) && now.Keys <= calls.Keys && forall c :: c in rest <==> c in calls && c !in now
  {
    AnsweredKeys(answers, waiters, ok);
    var all := waiters + rest;
    assert forall i :: 0 <= i < |rest| ==> rest[i] == all[|waiters| + i];
    assert forall i :: 0 <= i < |waiters| ==> waiters[i] == all[i];
    assert forall c :: c in all <==> c in waiters || c in rest;
  }

  lemma AnswerWaiting(m: Registry, n: Registry, ok: bool)
    requires Waiting(m) && (m.phase.Creating? || m.phase.Saving?) && n.phase.Settled? && n.pending == m.pending
    requires n.trail.calls == m.trail.calls && n.trail.answers == Answered(m.trail.answers, m.phase.waiters, ok)
    ensures Waiting(n)
  {
    BatchLeaves(m.phase.waiters, Queued(m), m.trail.calls, m.trail.answers, ok);
    assert InFlight(n) + Queued(n) == Queued(m);
  }

  /** The steps that end a write. */
  lemma EndKeepsInv(m: Registry, step: Step)
    requires Inv(m) && (step.DirectoryFailed? || step.SaveDone? || step.SaveFailed?)
    ensures Inv(Apply(m, step))
  {
    hide Waiting, Trim, Set, Find, Removed, Mutated;
    var n := Apply(m, step);
    if n != m {
      AnswerWaiting(m, n, step.SaveDone?);
    }
  }

  lemma SameWaiting(m: Registry, n: Registry)
    requires Waiting(m) && n.trail == m.trail && InFlight(n) + Queued(n) == InFlight(m) + Queued(m)
    ensures Waiting(n)
  {}

  lemma SnapshotKeepsInv(m: Registry)
    requires Inv(m)
    ensures Inv(Apply(m, DirectoryReady))
  {
    WaitersCalled(m);
    hide Waiting, Trim, Set, Find, Removed, Mutated, Answered, Persist, Answer;
    SameWaiting(m, Apply(m, DirectoryReady));
  }

  /** The steps that hand the waiting callers from one write to the next. */
  lemma HandOverKeepsInv(m: Registry, step: Step)
    requires Inv(m) && (step.Promote? || step.StartFollowUp?)
    ensures Inv(Apply(m, step))
  {
    hide Waiting, Trim, Set, Find, Removed, Mutated, Answered, Persist, Answer;
    var n := Apply(m, step);
    assert InFlight(n) + Queued(n) == InFlight(m) + Queued(m);
    SameWaiting(m, n);
  }

  lemma StepKeepsInv(m: Registry, step: Step)
    requires Inv(m)
    ensures Inv(Apply(m, step))
  {
    hide Inv, Mutated, Trim, Set, InFlight, Queued;
    match step
    case Record(c, node, valid) =>
      if valid && c !in m.trail.calls { MutatedOk(m, c, Trim(Set(m.entries, node))); }
    case Remove(c, id) =>
      if Find(m.entries, id) < |m.entries| && c !in m.trail.calls { MutatedOk(m, c, Removed(m.entries, id)); }
    case DirectoryReady => SnapshotKeepsInv(m);
    case Promote => HandOverKeepsInv(m, step);
    case StartFollowUp => HandOverKeepsInv(m, step);
    case _ => EndKeepsInv(m, step);
  }

  lemma WaitersCalled(m: Registry)
    requires Inv(m)
    ensures forall c :: c in InFlight(m) ==> c in m.trail.calls
  {
    assert forall c :: c in InFlight(m) ==> c in InFlight(m) + Queued(m);
  }

  lemma {:induction false} RunKeepsInv(m: Registry, steps: seq<Step>)
    requires Inv(m)
    ensures Inv(Run(m, steps))
  {
    if steps != [] {
      RunKeepsInv(m, Init(steps));
      StepKeepsInv(Run(m, Init(steps)), Last(steps));
    }
  }

  lemma LoadInv(content: Nodes)
    ensures Inv(Load(content)) && Covered(Load(content).trail)
  {}

  lemma {:induction false} RunKeepsCovered(m: Registry, steps: seq<Step>)
    requires Inv(m) && Covered(m.trail)
    ensures Covered(Run(m, steps).trail) && Last(m.trail.commits) <= Last(Run(m, steps).trail.commits)
  {
    if steps != [] {
      RunKeepsInv(m, Init(steps));
      RunKeepsCovered(m, Init(steps));
      var before := Run(m, Init(steps));
      StepRefines(before, Last(steps));
      AllowedKeepsCovered(before.trail, Explain(before, Last(steps)));
    }
  }

  // ---- What callers and the disk see ---------------------------------------

  /** In every reachable state: at most one write is in progress; the file is some
      committed snapshot of memory; a caller told "done" finds its change, or a later
      version, in the file; and an unanswered caller waits for exactly one write. */
  lemma Durability(content: Nodes, steps: seq<Step>)
    ensures var m := Run(Load(content), steps);
      m.begun - m.ended <= 1 && m.trail.Sound() &&
      m.entries == Last(m.trail.history) && m.file == m.trail.history[Last(m.trail.commits)] &&
      (forall c :: c in m.trail.answers && m.trail.answers[c] ==>
        c in m.trail.calls && m.trail.calls[c] <= Last(m.trail.commits)) &&
      Distinct(InFlight(m) + Queued(m)) &&
      (forall c :: c in InFlight(m) + Queued(m) <==> c in m.trail.calls && c !in m.trail.answers)
  {
    LoadInv(content);
    RunKeepsInv(Load(content), steps);
    RunKeepsCovered(Load(content), steps);
  }

  /** Once idle, the file equals memory unless the last write failed. */
  lemma IdleFileIsMemory(content: Nodes, steps: seq<Step>)
    ensures var m := Run(Load(content), steps);
      m.phase.Idle? && m.lastOk ==> m.file == m.entries
  {
    LoadInv(content);
    RunKeepsInv(Load(content), steps);
  }

  lemma AtRest(m: Registry)
    requires Inv(m) && m.phase.Idle?
    ensures (m.lastOk ==> m.file == m.entries) && m.begun <= |m.trail.calls|
  {}

  predicate IsCall(step: Step) { step.Record? || step.Remove? }

  /** However many calls arrive while one write is in flight, they cost one more
      write between them. */
  lemma {:induction false} BurstCostsOneWrite(m: Registry, calls: seq<Step>)
    requires !m.phase.Idle? && forall i :: 0 <= i < |calls| ==> IsCall(calls[i])
    ensures var n := Run(m, calls);
      n.phase == m.phase && n.begun == m.begun && Cost(m) <= Cost(n) <= Cost(m) + 1 &&
      (m.pending.Some? ==> n.pending.Some?)
  {
    if calls != [] {
      assert forall i :: 0 <= i < |calls| - 1 ==> Init(calls)[i] == calls[i];
      BurstCostsOneWrite(m, Init(calls));
    }
  }

  /** The next thing that happens when no call arrives; `ok` decides a file operation. */
  function Next(m: Registry, ok: bool): Step {
    match m.phase
    case Creating(_) => if ok then DirectoryReady else DirectoryFailed
    case Saving(_, _) => if ok then SaveDone else SaveFailed
    case Chained(_) => StartFollowUp
    case _ => Promote
  }

  function Remaining(m: Registry): nat {
    (match m.phase
     case Idle => 0 case Settled => 1 case Saving(_, _) => 2 case Creating(_) => 3 case Chained(_) => 4) +
    (if m.pending.Some? then 5 else 0)
  }

  /** Left alone, whatever its file operations do. */
  function Drain(m: Registry, ok: nat -> bool, n: nat): Registry
    decreases Remaining(m)
  {
    if m.phase.Idle? || m.trail.history == [] then m
    else Drain(Apply(m, Next(m, ok(n))), ok, n + 1)
  }

  /** Left alone the registry comes to rest after at most the writes it owes, with
      every caller answered: a failed write never swallows the follow-up. */
  lemma {:induction false} DrainAnswersAll(m: Registry, ok: nat -> bool, n: nat)
    requires Inv(m)
    ensures var end := Drain(m, ok, n);
      Inv(end) && end.phase.Idle? && end.entries == m.entries && end.begun == Cost(m) &&
      (forall c :: c in m.trail.calls ==> c in end.trail.answers)
    decreases Remaining(m)
  {
    hide Linked, Waiting, Covers, NothingForgotten, Counted, Apply, Next;
    if m.phase.Idle? {
      RestingAnswered(m);
    } else {
      var step := Next(m, ok(n));
      InvSound(m);
      NextEffect(m, ok(n));
      StepKeepsInv(m, step);
      DrainAnswersAll(Apply(m, step), ok, n + 1);
    }
  }

  lemma InvSound(m: Registry)
    requires Inv(m)
    ensures m.trail.Sound()
  {}

  lemma RestingAnswered(m: Registry)
    requires Inv(m) && m.phase.Idle?
    ensures m.begun == Cost(m) && forall c :: c in m.trail.calls ==> c in m.trail.answers
  {
    assert InFlight(m) + Queued(m) == [];
  }

  lemma NextEffect(m: Registry, ok: bool)
    requires m.trail.Sound() && !m.phase.Idle?
    ensures var n := Apply(m, Next(m, ok));
      n.entries == m.entries && n.trail.calls == m.trail.calls && Cost(n) == Cost(m) && Remaining(n) < Remaining(m)
  {}

  /** No failed write is the last word. */
  ghost predicate Hopeful(m: Registry) {
    m.phase.Idle? || m.phase.Settled? ==> m.lastOk || m.pending.Some?
  }

  lemma NextStaysHopeful(m: Registry)
    requires m.trail.Sound() && !m.phase.Idle? && Hopeful(m)
    ensures Hopeful(Apply(m, Next(m, true)))
  {}

  lemma HopefulAtRest(m: Registry)
    requires Inv(m) && Hopeful(m) && m.phase.Idle?
    ensures m.file == m.entries
  {}

  /** If the file operations all succeed from here on, the file ends up as memory. */
  lemma {:induction false} DrainWrites(m: Registry, ok: nat -> bool, n: nat)
    requires Inv(m) && (forall k :: ok(k)) && Hopeful(m)
    ensures Drain(m, ok, n).file == m.entries
    decreases Remaining(m)
  {
    hide Inv, Apply, Next, Hopeful;
    if m.phase.Idle? {
      HopefulAtRest(m);
    } else {
      assert ok(n);
      InvSound(m);
      NextEffect(m, true);
      NextStaysHopeful(m);
      StepKeepsInv(m, Next(m, true));
      DrainWrites(Apply(m, Next(m, true)), ok, n + 1);
    }
  }

  /** The step opens a temporary file, whose name ends in the counter. */
  predicate Saves(m: Registry, step: Step) { !m.phase.Saving? && Apply(m, step).phase.Saving? }

  lemma {:induction false} CounterGrows(m: Registry, steps: seq<Step>)
    ensures m.tempCounter <= Run(m, steps).tempCounter
  {
    if steps != [] { CounterGrows(m, Init(steps)); }
  }

  /** No two writes share a temporary file, whatever comes between them. */
  lemma TempNamesDiffer(m: Registry, first: Step, steps: seq<Step>, second: Step)
    requires Saves(m, first) && Saves(Run(Apply(m, first), steps), second)
    ensures Apply(m, first).tempCounter < Apply(Run(Apply(m, first), steps), second).tempCounter
  {
    CounterGrows(Apply(m, first), steps);
    hide Run;
  }

  /** The registry never holds more than the cap once it has recorded anything, and a
      valid sighting is recorded unless it is older than everything kept. */
  lemma RecordBounded(m: Registry, c: Caller, node: KnownNode)
    requires UniqueIds(m.entries) && c !in m.trail.calls
    ensures var n := Apply(m, Record(c, node, true));
      UniqueIds(n.entries) && |n.entries| <= MAX_KNOWN_NODES &&
      (node !in n.entries ==> forall k :: k in n.entries ==> node.lastSeenAt <= k.lastSeenAt)
  {
    SetUnique(m.entries, node);
    TrimKeepsNewest(Set(m.entries, node));
  }
}
