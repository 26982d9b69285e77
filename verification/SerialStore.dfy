/** The trust store's persistence: every call chains one write of its own behind the
    last. The table it saves is left abstract. */
module SerialStore {
  import opened Basics
  import opened DurableStore
  import Coalescing = KnownNodes

  datatype Phase<E> = Idle | Creating | Saving(content: E, version: nat)

  /** `queue` holds the callers whose tasks are chained, the running one first. */
  datatype Store<E> = Store(
    entries: E,
    file: E,
    phase: Phase<E>,
    queue: seq<Caller>,
    trail: Trail<E>,
    begun: nat,
    lastOk: bool)

  datatype Step<E> =
    | Change(caller: Caller, content: E)
    | StartTask
    | DirectoryReady
    | DirectoryFailed
    | SaveDone
    | SaveFailed

  function Load<E>(content: E): Store<E> {
    Store(content, content, Idle, [], Loaded(content), 0, true)
  }

  function Finish<E>(s: Store<E>, first: Move<E>, ok: bool): Store<E>
    requires s.queue != []
  {
    s.(phase := Idle, queue := s.queue[1..], lastOk := ok,
       trail := Moved(Moved(s.trail, first), if ok then Succeed(s.queue[0]) else Reject(s.queue[0])))
  }

  function Apply<E>(s: Store<E>, step: Step<E>): Store<E> {
    match step
    case Change(c, content) =>
      if c in s.trail.calls then s
      else s.(entries := content, queue := s.queue + [c], trail := Moved(s.trail, Mutate(c, content)))
    case StartTask =>
      if !s.phase.Idle? || s.queue == [] then s else s.(phase := Creating, begun := s.begun + 1)
    case DirectoryReady =>
      if !s.phase.Creating? || s.trail.history == [] then s else s.(phase := Saving(s.entries, |s.trail.history| - 1))
    case DirectoryFailed =>
      if !s.phase.Creating? || s.trail.history == [] || s.queue == [] then s
      else Finish(s, Fail(|s.trail.history| - 1), false)
    case SaveDone =>
      if !s.phase.Saving? || s.queue == [] then s
      else Finish(s.(file := s.phase.content), Commit(s.phase.version), true)
    case SaveFailed =>
      if !s.phase.Saving? || s.queue == [] then s else Finish(s, Fail(s.phase.version), false)
  }

  function Run<E>(s: Store<E>, steps: seq<Step<E>>): Store<E> {
    if steps == [] then s else Apply(Run(s, Init(steps)), Last(steps))
  }

  ghost predicate Inv<E(!new)>(s: Store<E>) {
    s.trail.Sound() && s.entries == Last(s.trail.history) && s.file == s.trail.File() &&
    (!s.phase.Idle? ==> s.queue != []) &&
    (s.phase.Saving? ==>
      s.phase.version < |s.trail.history| && s.phase.content == s.trail.history[s.phase.version] &&
      Last(s.trail.commits) <= s.phase.version &&
      (s.queue[0] in s.trail.calls ==> s.trail.calls[s.queue[0]] <= s.phase.version)) &&
    Distinct(s.queue) && s.trail.answers.Keys <= s.trail.calls.Keys &&
    (forall c :: c in s.queue <==> c in s.trail.calls && c !in s.trail.answers) &&
    (forall c :: c in s.trail.calls ==> s.trail.calls[c] < |s.trail.history|) &&
    s.begun + |s.queue| == |s.trail.calls| + (if s.phase.Idle? then 0 else 1) &&
    (s.queue == [] && s.lastOk ==> Last(s.trail.commits) == |s.trail.history| - 1) &&
    (s.phase.Saving? && |s.queue| == 1 ==> s.phase.version == |s.trail.history| - 1)
  }

  function Explain<E>(s: Store<E>, step: Step<E>): seq<Move<E>> {
    match step
    case Change(c, content) => if c in s.trail.calls then [] else [Mutate(c, content)]
    case DirectoryFailed =>
      if !s.phase.Creating? || s.trail.history == [] || s.queue == [] then []
      else [Move.Fail(|s.trail.history| - 1), Reject(s.queue[0])]
    case SaveDone =>
      if !s.phase.Saving? || s.queue == [] then [] else [Commit(s.phase.version), Succeed(s.queue[0])]
    case SaveFailed =>
      if !s.phase.Saving? || s.queue == [] then [] else [Move.Fail(s.phase.version), Reject(s.queue[0])]
    case _ => []
  }

  lemma TwoMoves<E(!new)>(t: Trail<E>, a: Move<E>, b: Move<E>)
    requires Allowed(t, a) && Allowed(Moved(t, a), b)
    ensures AllAllowed(t, [a, b]) && Moves(t, [a, b]) == Moved(Moved(t, a), b)
  {
    assert [a, b][1..] == [b] && [b][1..] == [];
    assert Moves(Moved(t, a), [b]) == Moved(Moved(t, a), b);
  }

  /** The serial queue honours the same contract as the coalescing registry. */
  lemma StepRefines<E(!new)>(s: Store<E>, step: Step<E>)
    requires Inv(s)
    ensures AllAllowed(s.trail, Explain(s, step)) && Apply(s, step).trail == Moves(s.trail, Explain(s, step))
  {
    var moves := Explain(s, step);
    if |moves| == 2 {
      assert s.queue[0] in s.queue;
      TwoMoves(s.trail, moves[0], moves[1]);
      assert moves == [moves[0], moves[1]];
    }
  }

  lemma EndKeepsInv<E(!new)>(s: Store<E>, n: Store<E>, commit: bool, version: nat)
    requires Inv(s) && !s.phase.Idle? && version < |s.trail.history| && (commit ==> s.phase.Saving? && version == s.phase.version)
    requires n == Finish(if commit then s.(file := s.phase.content) else s, if commit then Commit(version) else Fail(version), commit)
    ensures Inv(n)
  {
    assert s.queue == [s.queue[0]] + n.queue;
    assert s.queue[0] in s.queue;
  }

  lemma ChangeKeepsInv<E(!new)>(s: Store<E>, c: Caller, content: E)
    requires Inv(s) && c !in s.trail.calls
    ensures Inv(Apply(s, Change(c, content)))
  {
    var n := Apply(s, Change(c, content));
    assert n.trail.File() == s.trail.File();
    assert c !in s.queue;
    assert |n.trail.calls| == |s.trail.calls| + 1;
  }

  lemma StepKeepsInv<E(!new)>(s: Store<E>, step: Step<E>)
    requires Inv(s)
    ensures Inv(Apply(s, step))
  {
    match step
    case Change(c, content) => if c !in s.trail.calls { ChangeKeepsInv(s, c, content); }
    case StartTask =>
    case DirectoryReady => assert s.queue != [] ==> s.queue[0] in s.queue;
    case DirectoryFailed =>
      if s.phase.Creating? { EndKeepsInv(s, Apply(s, step), false, |s.trail.history| - 1); }
    case SaveDone =>
      if s.phase.Saving? { EndKeepsInv(s, Apply(s, step), true, s.phase.version); }
    case SaveFailed =>
      if s.phase.Saving? { EndKeepsInv(s, Apply(s, step), false, s.phase.version); }
  }

  lemma {:induction false} RunKeepsInv<E(!new)>(s: Store<E>, steps: seq<Step<E>>)
    requires Inv(s)
    ensures Inv(Run(s, steps))
  {
    if steps != [] {
      RunKeepsInv(s, Init(steps));
      StepKeepsInv(Run(s, Init(steps)), Last(steps));
    }
  }

  /** Whatever the interleavings, once both are at rest and their last writes landed,
      a coalescing registry and a serial store holding the same content have the same
      file, and after equally many calls the coalescing one never wrote more often. */
  lemma CoalescingAgreesWithSerial(
    content: Coalescing.Nodes, steps: seq<Coalescing.Step>,
    initial: Coalescing.Nodes, serialSteps: seq<Step<Coalescing.Nodes>>)
    ensures var m := Coalescing.Run(Coalescing.Load(content), steps);
      var s := Run(Load(initial), serialSteps);
      m.phase.Idle? && s.queue == [] ==>
        (m.lastOk && s.lastOk && m.entries == s.entries ==> m.file == s.file) &&
        (|m.trail.calls| <= |s.trail.calls| ==> m.begun <= s.begun)
  {
    Coalescing.LoadInv(content);
    Coalescing.RunKeepsInv(Coalescing.Load(content), steps);
    RunKeepsInv(Load(initial), serialSteps);
    var m := Coalescing.Run(Coalescing.Load(content), steps);
    var s := Run(Load(initial), serialSteps);
    hide Inv, Coalescing.Inv, Run, Coalescing.Run;
    if m.phase.Idle? && s.queue == [] {
      Coalescing.AtRest(m);
      AtRest(s);
    }
  }

  lemma AtRest<E(!new)>(s: Store<E>)
    requires Inv(s) && s.queue == []
    ensures (s.lastOk ==> s.file == s.entries) && s.begun == |s.trail.calls|
  {}

  // ---- Every coalescing run is a serial run, answered sooner ---------------

  /** What the serial queue does while the coalescing registry takes one step. */
  function MirrorStep(m: Coalescing.Registry, step: Coalescing.Step): seq<Step<Coalescing.Nodes>> {
    var n := Coalescing.Apply(m, step);
    match step
    case Record(c, _, _) => MirrorCall(m, n, c)
    case Remove(c, _) => MirrorCall(m, n, c)
    case DirectoryReady => [DirectoryReady]
    case DirectoryFailed => [DirectoryFailed]
    case SaveDone => [SaveDone]
    case SaveFailed => [SaveFailed]
    case Promote => []
    case StartFollowUp => if m.phase.Chained? then [StartTask] else []
  }

  function MirrorCall(m: Coalescing.Registry, n: Coalescing.Registry, c: Caller): seq<Step<Coalescing.Nodes>> {
    if n == m then [] else [Change(c, n.entries)] + if m.phase.Idle? then [StartTask] else []
  }

  function Mirror(m: Coalescing.Registry, steps: seq<Coalescing.Step>): seq<Step<Coalescing.Nodes>> {
    if steps == [] then [] else Mirror(m, Init(steps)) + MirrorStep(Coalescing.Run(m, Init(steps)), Last(steps))
  }

  predicate SamePhase(m: Coalescing.Registry, phase: Phase<Coalescing.Nodes>) {
    match m.phase
    case Creating(_) => phase.Creating?
    case Saving(_, content) => phase == Saving(content, m.version)
    case _ => phase.Idle?
  }

  ghost predicate EndsIn<T(!new)>(s: seq<T>, end: seq<T>) {
    |end| <= |s| && s[|s| - |end|..] == end
  }

  /** Whoever the coalescing registry has yet to answer stands at the end of `queue`. */
  ghost predicate Lined(m: Coalescing.Registry, queue: seq<Caller>) {
    EndsIn(queue, Coalescing.InFlight(m) + Coalescing.Queued(m)) &&
    (m.phase.Creating? || m.phase.Saving? || m.phase.Chained? ==> Coalescing.InFlight(m) != [])
  }

  /** The same memory, file and writes, and the same callers still waiting. */
  ghost predicate Mirrors(m: Coalescing.Registry, s: Store<Coalescing.Nodes>) {
    s.entries == m.entries && s.file == m.file && s.begun == m.begun && s.lastOk == m.lastOk &&
    s.trail == m.trail.(answers := s.trail.answers) && SamePhase(m, s.phase) && Lined(m, s.queue)
  }

  lemma SameLine(m: Coalescing.Registry, n: Coalescing.Registry, queue: seq<Caller>)
    requires Lined(m, queue) && Coalescing.InFlight(n) + Coalescing.Queued(n) == Coalescing.InFlight(m) + Coalescing.Queued(m)
    requires n.phase.Creating? || n.phase.Saving? || n.phase.Chained? ==> Coalescing.InFlight(n) != []
    ensures Lined(n, queue)
  {}

  lemma LongerLine(m: Coalescing.Registry, n: Coalescing.Registry, queue: seq<Caller>, c: Caller)
    requires Lined(m, queue)
    requires Coalescing.InFlight(n) + Coalescing.Queued(n) == Coalescing.InFlight(m) + Coalescing.Queued(m) + [c]
    requires n.phase.Creating? || n.phase.Saving? || n.phase.Chained? ==> Coalescing.InFlight(n) != []
    ensures Lined(n, queue + [c])
  {}

  lemma ShorterLine(m: Coalescing.Registry, n: Coalescing.Registry, queue: seq<Caller>)
    requires Lined(m, queue) && (m.phase.Creating? || m.phase.Saving?)
    requires n.phase.Settled? && n.pending == m.pending
    ensures queue != [] && Lined(n, queue[1..])
  {
    assert Coalescing.InFlight(n) + Coalescing.Queued(n) == Coalescing.Queued(m);
    assert EndsIn(queue[1..], Coalescing.Queued(m));
  }

  lemma LineHasHead(m: Coalescing.Registry, queue: seq<Caller>)
    requires Lined(m, queue) && (m.phase.Creating? || m.phase.Saving? || m.phase.Chained?)
    ensures Coalescing.InFlight(m) != [] && queue != []
  {}

  lemma MirrorCallOk(m: Coalescing.Registry, s: Store<Coalescing.Nodes>, c: Caller, entries: Coalescing.Nodes)
    requires Mirrors(m, s) && c !in m.trail.calls && (m.phase.Idle? ==> m.pending.None?)
    ensures Mirrors(Coalescing.Mutated(m, c, entries),
                    Run(s, [Change(c, entries)] + if m.phase.Idle? then [StartTask] else []))
  {
    var n := Coalescing.Mutated(m, c, entries);
    if m.phase.Creating? || m.phase.Saving? || m.phase.Chained? { LineHasHead(m, s.queue); }
    assert Coalescing.InFlight(n) + Coalescing.Queued(n) == Coalescing.InFlight(m) + Coalescing.Queued(m) + [c];
    hide Lined, Coalescing.InFlight, Coalescing.Queued, Run;
    LongerLine(m, n, s.queue, c);
    if m.phase.Idle? {
      RunTwo(s, Change(c, entries), StartTask);
      assert [Change(c, entries)] + [StartTask] == [Change(c, entries), StartTask];
    } else {
      RunOne(s, Change(c, entries));
      assert [Change(c, entries)] + [] == [Change(c, entries)];
    }
  }

  lemma RunOne<E>(s: Store<E>, a: Step<E>)
    ensures Run(s, [a]) == Apply(s, a)
  {
    assert Init([a]) == [];
  }

  lemma RunTwo<E>(s: Store<E>, a: Step<E>, b: Step<E>)
    ensures Run(s, [a, b]) == Apply(Apply(s, a), b)
  {
    RunOne(s, a);
    assert Init([a, b]) == [a];
  }

  /** A write that ends answers the batch on one side and the head of the queue on the
      other. */
  lemma MirrorEnd(m: Coalescing.Registry, s: Store<Coalescing.Nodes>, step: Coalescing.Step)
    requires Mirrors(m, s) && m.trail.history != []
    requires (step.DirectoryFailed? && m.phase.Creating?) || ((step.SaveDone? || step.SaveFailed?) && m.phase.Saving?)
    ensures Mirrors(Coalescing.Apply(m, step), Run(s, MirrorStep(m, step)))
  {
    hide Lined, Answered, Run, Coalescing.Trim, Coalescing.Set, Coalescing.Find, Coalescing.Mutated;
    RunOne(s, MirrorStep(m, step)[0]);
    ShorterLine(m, Coalescing.Apply(m, step), s.queue);
  }

  /** The end of a write neither has in hand. */
  lemma MirrorIgnored(m: Coalescing.Registry, s: Store<Coalescing.Nodes>, step: Coalescing.Step)
    requires Mirrors(m, s)
    requires (step.DirectoryFailed? && !m.phase.Creating?) || ((step.SaveDone? || step.SaveFailed?) && !m.phase.Saving?)
    ensures Coalescing.Apply(m, step) == m && Run(s, MirrorStep(m, step)) == s
  {
    RunOne(s, MirrorStep(m, step)[0]);
  }

  lemma MirrorStepOk(m: Coalescing.Registry, s: Store<Coalescing.Nodes>, step: Coalescing.Step)
    requires Mirrors(m, s) && Coalescing.Inv(m)
    ensures Mirrors(Coalescing.Apply(m, step), Run(s, MirrorStep(m, step)))
  {
    hide Mirrors, Coalescing.Inv, Coalescing.Trim, Coalescing.Set, Coalescing.Removed, Coalescing.Find, Coalescing.Mutated, Run;
    Coalescing.InvSound(m);
    PendingOk(m);
    match step
    case Record(c, node, valid) =>
      MutatedDiffers(m, c, Coalescing.Trim(Coalescing.Set(m.entries, node)));
      if valid && c !in m.trail.calls { MirrorCallOk(m, s, c, Coalescing.Trim(Coalescing.Set(m.entries, node))); }
      else { RunNone(s); }
    case Remove(c, id) =>
      MutatedDiffers(m, c, Coalescing.Removed(m.entries, id));
      if Coalescing.Find(m.entries, id) != |m.entries| && c !in m.trail.calls { MirrorCallOk(m, s, c, Coalescing.Removed(m.entries, id)); }
      else { RunNone(s); }
    case DirectoryReady => MirrorQuiet(m, s, step);
    case Promote => MirrorQuiet(m, s, step);
    case StartFollowUp => MirrorQuiet(m, s, step);
    case _ =>
      if (step.DirectoryFailed? && m.phase.Creating?) || (!step.DirectoryFailed? && m.phase.Saving?) {
        MirrorEnd(m, s, step);
      } else {
        MirrorIgnored(m, s, step);
      }
  }

  lemma RunNone<E>(s: Store<E>)
    ensures Run(s, []) == s
  {}

  lemma PendingOk(m: Coalescing.Registry)
    requires Coalescing.Inv(m)
    ensures (m.phase.Idle? ==> m.pending.None?) && (m.pending.Some? ==> m.pending.value != [])
  {}

  lemma MutatedDiffers(m: Coalescing.Registry, c: Caller, entries: Coalescing.Nodes)
    ensures var n := Coalescing.Mutated(m, c, entries);
      n.entries == entries && n != m
  {
    assert |Coalescing.Mutated(m, c, entries).trail.history| > |m.trail.history|;
  }

  /** The steps that neither call nor answer anyone. */
  lemma MirrorQuiet(m: Coalescing.Registry, s: Store<Coalescing.Nodes>, step: Coalescing.Step)
    requires Mirrors(m, s) && m.trail.history != [] && (m.pending.Some? ==> m.pending.value != [])
    requires step.DirectoryReady? || step.Promote? || step.StartFollowUp?
    ensures Mirrors(Coalescing.Apply(m, step), Run(s, MirrorStep(m, step)))
  {
    hide Lined, Answered, Run, Coalescing.Trim, Coalescing.Set, Coalescing.Find, Coalescing.Mutated;
    if m.phase.Creating? || m.phase.Saving? || m.phase.Chained? { LineHasHead(m, s.queue); }
    var n := Coalescing.Apply(m, step);
    assert Coalescing.InFlight(n) + Coalescing.Queued(n) == Coalescing.InFlight(m) + Coalescing.Queued(m);
    SameLine(m, n, s.queue);
    var mirrored := MirrorStep(m, step);
    if mirrored == [] { RunNone(s); } else { RunOne(s, mirrored[0]); }
  }

  lemma {:induction false} RunConcat<E>(s: Store<E>, before: seq<Step<E>>, after: seq<Step<E>>)
    ensures Run(s, before + after) == Run(Run(s, before), after)
  {
    hide Apply;
    if after == [] {
      assert before + after == before;
    } else {
      RunConcat(s, before, Init(after));
      assert Init(before + after) == before + Init(after);
    }
  }

  lemma {:induction false} MirrorOk(content: Coalescing.Nodes, steps: seq<Coalescing.Step>)
    ensures Mirrors(Coalescing.Run(Coalescing.Load(content), steps), Run(Load(content), Mirror(Coalescing.Load(content), steps)))
  {
    var m0, s0 := Coalescing.Load(content), Load(content);
    if steps != [] {
      hide Mirrors, MirrorStep, Apply, Coalescing.Apply, Coalescing.Inv;
      MirrorOk(content, Init(steps));
      Coalescing.LoadInv(content);
      Coalescing.RunKeepsInv(m0, Init(steps));
      var m := Coalescing.Run(m0, Init(steps));
      MirrorStepOk(m, Run(s0, Mirror(m0, Init(steps))), Last(steps));
      RunConcat(s0, Mirror(m0, Init(steps)), MirrorStep(m, Last(steps)));
    }
  }

  /** Whatever a coalescing registry does to memory and file, at every moment, a serial
      store could have done: some serial run goes through the same versions, has written
      the same ones in the same order, and has answered no one the registry has not. */
  lemma CoalescingRefinesSerial(content: Coalescing.Nodes, steps: seq<Coalescing.Step>)
    ensures var m := Coalescing.Run(Coalescing.Load(content), steps);
      var s := Run(Load(content), Mirror(Coalescing.Load(content), steps));
      s.entries == m.entries && s.file == m.file && s.begun == m.begun &&
      s.trail.history == m.trail.history && s.trail.calls == m.trail.calls &&
      s.trail.commits == m.trail.commits && s.trail.failures == m.trail.failures &&
      s.trail.answers.Keys <= m.trail.answers.Keys
  {
    var m0, s0 := Coalescing.Load(content), Load(content);
    MirrorOk(content, steps);
    Coalescing.LoadInv(content);
    Coalescing.RunKeepsInv(m0, steps);
    RunKeepsInv(s0, Mirror(m0, steps));
    StillQueued(Coalescing.Run(m0, steps), Run(s0, Mirror(m0, steps)));
  }

  lemma StillQueued(m: Coalescing.Registry, s: Store<Coalescing.Nodes>)
    requires Mirrors(m, s) && Coalescing.Inv(m) && Inv(s)
    ensures s.trail.answers.Keys <= m.trail.answers.Keys
  {
    EndMembers(s.queue, Coalescing.InFlight(m) + Coalescing.Queued(m));
  }

  lemma EndMembers<T(!new)>(s: seq<T>, end: seq<T>)
    requires EndsIn(s, end)
    ensures forall x :: x in end ==> x in s
  {
    assert s == s[..|s| - |end|] + end;
  }

  // ---- And the answers are where they differ -------------------------------

  /** The serial queue spends one write on every answer. */
  lemma {:induction false} OneAnswerPerWrite<E(!new)>(content: E, steps: seq<Step<E>>)
    ensures var t := Run(Load(content), steps).trail;
      |t.commits| + |t.failures| == |t.answers| + 1
  {
    if steps != [] {
      OneAnswerPerWrite(content, Init(steps));
      RunKeepsInv(Load(content), Init(steps));
      StepAnswers(Run(Load(content), Init(steps)), Last(steps));
    }
  }

  lemma StepAnswers<E(!new)>(s: Store<E>, step: Step<E>)
    requires Inv(s) && |s.trail.commits| + |s.trail.failures| == |s.trail.answers| + 1
    ensures var t := Apply(s, step).trail;
      |t.commits| + |t.failures| == |t.answers| + 1
  {
    if s.queue != [] {
      assert s.queue[0] in s.queue;
    }
  }

  /** A call, then two more while its write is under way; the write, and its follow-up. */
  function Burst(node: Coalescing.KnownNode): seq<Coalescing.Step> {
    [Coalescing.Record(0, node, true), Coalescing.DirectoryReady, Coalescing.Record(1, node, true)] +
    [Coalescing.Record(2, node, true), Coalescing.SaveDone, Coalescing.Promote] +
    [Coalescing.StartFollowUp, Coalescing.DirectoryReady, Coalescing.SaveDone]
  }

  lemma RunMore(m: Coalescing.Registry, before: seq<Coalescing.Step>, a: Coalescing.Step)
    ensures Coalescing.Run(m, before + [a]) == Coalescing.Apply(Coalescing.Run(m, before), a)
  {
    assert Init(before + [a]) == before;
  }

  lemma RunThree(m: Coalescing.Registry, before: seq<Coalescing.Step>, a: Coalescing.Step, b: Coalescing.Step, c: Coalescing.Step)
    ensures Coalescing.Run(m, before + [a, b, c]) ==
      Coalescing.Apply(Coalescing.Apply(Coalescing.Apply(Coalescing.Run(m, before), a), b), c)
  {
    hide Coalescing.Apply;
    RunMore(m, before, a);
    RunMore(m, before + [a], b);
    RunMore(m, before + [a] + [b], c);
    assert before + [a, b, c] == before + [a] + [b] + [c];
  }

  lemma BurstHalf(content: Coalescing.Nodes, node: Coalescing.KnownNode, steps: seq<Coalescing.Step>)
    requires steps == Burst(node)[..6]
    ensures var m := Coalescing.Run(Coalescing.Load(content), steps);
      m.phase == Coalescing.Chained([1, 2]) && m.pending.None? && |m.trail.history| == 4 &&
      m.trail.answers == map[0 := true] && m.trail.commits == [0, 1] && m.trail.failures == []
  {
    hide Coalescing.Trim, Coalescing.Set, Coalescing.Run;
    var m := Coalescing.Load(content);
    var first: seq<Coalescing.Step> := [Coalescing.Record(0, node, true), Coalescing.DirectoryReady, Coalescing.Record(1, node, true)];
    RunNothing(m);
    RunThree(m, [], first[0], first[1], first[2]);
    RunThree(m, first, Coalescing.Record(2, node, true), Coalescing.SaveDone, Coalescing.Promote);
    assert [] + first == first && steps == first + [Coalescing.Record(2, node, true), Coalescing.SaveDone, Coalescing.Promote];
    var one := Coalescing.Run(m, first);
    assert one.phase.Saving? && one.phase.waiters == [0] && one.pending.Some? && one.pending.value == [1] && one.version == 1 && one.trail.answers == map[];
  }

  lemma BurstAnswers(content: Coalescing.Nodes, node: Coalescing.KnownNode)
    ensures var t := Coalescing.Run(Coalescing.Load(content), Burst(node)).trail;
      t.commits == [0, 1, 3] && t.failures == [] && |t.answers| == 3
  {
    hide Coalescing.Run, Answered;
    var half := Burst(node)[..6];
    BurstHalf(content, node, half);
    RunThree(Coalescing.Load(content), half, Coalescing.StartFollowUp, Coalescing.DirectoryReady, Coalescing.SaveDone);
    assert Burst(node) == half + [Coalescing.StartFollowUp, Coalescing.DirectoryReady, Coalescing.SaveDone];
    var t := Coalescing.Run(Coalescing.Load(content), Burst(node)).trail;
    assert t.answers == Answered(map[0 := true], [1, 2], true);
    AnsweredKeys(map[0 := true], [1, 2], true);
    assert t.answers.Keys == {0, 1, 2};
    assert |t.answers.Keys| == 3;
  }

  lemma RunNothing(m: Coalescing.Registry)
    ensures Coalescing.Run(m, []) == m
  {}

  /** So the coalescing registry is not the serial queue: no serial run commits what the
      burst commits and has answered all three. */
  lemma BurstIsNotSerial(content: Coalescing.Nodes, node: Coalescing.KnownNode, initial: Coalescing.Nodes, steps: seq<Step<Coalescing.Nodes>>)
    ensures var m, s := Coalescing.Run(Coalescing.Load(content), Burst(node)), Run(Load(initial), steps);
      !(s.trail.commits == m.trail.commits && s.trail.failures == m.trail.failures && s.trail.answers == m.trail.answers)
  {
    BurstAnswers(content, node);
    OneAnswerPerWrite(initial, steps);
  }
}
