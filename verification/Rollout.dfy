/** Upgrading a fleet one peer at a time, this node last. The rollout is the machine
    whose steps are the answers it awaits, from any peers, network and clock. */
module Rollouts {
  import opened Basics

  /** Schema-checked versions are `X.Y.Z`; anything else only ever fails `isSemver`. */
  datatype Version = Semver(major: nat, minor: nat, patch: nat) | Other(text: string)

  type Release = v: Version | v.Semver? witness Semver(0, 0, 0)

  /** `isSemver(a) && compareSemver(a, b) >= 0` */
  predicate AtLeast(a: Version, b: Release) {
    a.Semver? &&
    (a.major > b.major || (a.major == b.major && (a.minor > b.minor || (a.minor == b.minor && a.patch >= b.patch))))
  }

  /** Compared as numbers, major first. */
  predicate Below(a: Version, b: Release) {
    a.Semver? && (a.major < b.major || (a.major == b.major && a.minor < b.minor) ||
                  (a.major == b.major && a.minor == b.minor && a.patch < b.patch))
  }

  lemma AtLeastIsNotBelow(a: Version, b: Release)
    ensures AtLeast(a, b) <==> a.Semver? && !Below(a, b)
  {}

  datatype Outcome = Success | Rollback | Failure

  datatype LastUpgrade = LastUpgrade(version: Version, outcome: Outcome, reason: Option<string>, at: int)

  datatype NodeInfo = NodeInfo(version: Version, lastUpgrade: Option<LastUpgrade>)

  datatype Entry = Entry(deviceId: string, name: string, hasHost: bool, reachable: bool, info: Option<NodeInfo>)

  datatype PeerState =
    | Pending | Pushing | Restarting
    | Succeeded | Refused | TooOld | Unreachable
    | RolledBack | Failed | TimedOut
  {
    predicate Active() { Pushing? || Restarting? }

    /** The rollout goes on after these. */
    predicate Passed() { Succeeded? || Refused? || TooOld? || Unreachable? }

    /** The rollout stops at these. */
    predicate Harmed() { RolledBack? || Failed? || TimedOut? }
  }

  datatype Peer = Peer(entry: Entry, state: PeerState, reason: Option<string>)

  datatype RolloutState = Running | Stopped | Done

  datatype SelfState =
    | SelfPending | SelfSkipped | SelfRestarting | SelfRefused
    | SelfSucceeded | SelfRolledBack | SelfFailed

  datatype SelfStatus = SelfStatus(state: SelfState, reason: Option<string>)

  datatype Status = Status(target: Release, startedAt: int, state: RolloutState, peers: seq<Peer>, self: SelfStatus)

  // ---- Selection -----------------------------------------------------------

  /** Whom a rollout targets: the named nodes, or every reachable older one. */
  predicate Chosen(entry: Entry, target: Release, nodes: Option<set<string>>) {
    match nodes
    case Some(ids) => entry.deviceId in ids
    case None => entry.reachable && entry.info.Some? && !AtLeast(entry.info.value.version, target)
  }

  function InitialPeer(entry: Entry, nodes: Option<set<string>>): Peer {
    if nodes.Some? && !entry.hasHost
    then Peer(entry, Unreachable, Some("no known address for this node"))
    else Peer(entry, Pending, None)
  }

  function Select(entries: seq<Entry>, target: Release, nodes: Option<set<string>>): seq<Peer> {
    if entries == [] then []
    else Select(Init(entries), target, nodes) +
         if Chosen(Last(entries), target, nodes) then [InitialPeer(Last(entries), nodes)] else []
  }

  function Begin(entries: seq<Entry>, target: Release, nodes: Option<set<string>>, current: Release, includeSelf: bool, now: int): Status {
    Status(target, now, Running, Select(entries, target, nodes),
           SelfStatus(if includeSelf && !AtLeast(current, target) then SelfPending else SelfSkipped, None))
  }

  lemma {:induction false} SelectMembers(entries: seq<Entry>, target: Release, nodes: Option<set<string>>)
    ensures forall p :: p in Select(entries, target, nodes) ==> p.state.Pending? || p.state.Unreachable?
  {
    if entries != [] { SelectMembers(Init(entries), target, nodes); }
  }

  /** Named nodes are targeted whatever their version; with no names given, those that
      are reachable and older than the target, or of a version that cannot be compared. */
  predicate Targeted(entry: Entry, target: Release, nodes: Option<set<string>>) {
    if nodes.Some? then entry.deviceId in nodes.value
    else entry.reachable && entry.info.Some? && (entry.info.value.version.Other? || Below(entry.info.value.version, target))
  }

  /** `picked` are the places of the peers among the entries. */
  ghost predicate PicksExactly(entries: seq<Entry>, peers: seq<Peer>, picked: seq<nat>, target: Release, nodes: Option<set<string>>) {
    |picked| == |peers| && (forall i, j :: 0 <= i < j < |picked| ==> picked[i] < picked[j]) &&
    (forall k :: 0 <= k < |picked| ==> picked[k] < |entries| && peers[k].entry == entries[picked[k]] && Targeted(entries[picked[k]], target, nodes)) &&
    forall i :: 0 <= i < |entries| && Targeted(entries[i], target, nodes) ==> i in picked
  }

  lemma {:induction false} SelectPicks(entries: seq<Entry>, target: Release, nodes: Option<set<string>>) returns (picked: seq<nat>)
    ensures PicksExactly(entries, Select(entries, target, nodes), picked, target, nodes)
  {
    if entries == [] {
      picked := [];
    } else {
      hide InitialPeer, Chosen, Targeted, PicksExactly;
      var last := Last(entries);
      picked := SelectPicks(Init(entries), target, nodes);
      EntryKept(last, nodes);
      ChosenIsTargeted(last, target, nodes);
      PicksNext(Init(entries), last, Select(Init(entries), target, nodes), InitialPeer(last, nodes), picked, target, nodes);
      assert entries == Init(entries) + [last];
      if Targeted(last, target, nodes) { picked := picked + [|entries| - 1]; }
    }
  }

  lemma PicksNext(entries: seq<Entry>, entry: Entry, peers: seq<Peer>, peer: Peer, picked: seq<nat>, target: Release, nodes: Option<set<string>>)
    requires PicksExactly(entries, peers, picked, target, nodes) && peer.entry == entry
    ensures if Targeted(entry, target, nodes) then PicksExactly(entries + [entry], peers + [peer], picked + [|entries|], target, nodes)
            else PicksExactly(entries + [entry], peers + [], picked, target, nodes)
  {
    hide Targeted;
    var more := entries + [entry];
    assert peers + [] == peers;
    assert more[|entries|] == entry && forall i :: 0 <= i < |entries| ==> more[i] == entries[i];
    var p := picked + [|entries|];
    assert p[|picked|] == |entries| && forall k :: 0 <= k < |picked| ==> p[k] == picked[k];
  }

  lemma ChosenIsTargeted(entry: Entry, target: Release, nodes: Option<set<string>>)
    ensures Chosen(entry, target, nodes) <==> Targeted(entry, target, nodes)
  {
    if entry.info.Some? { AtLeastIsNotBelow(entry.info.value.version, target); }
  }

  /** A rollout's peers are exactly the targeted nodes, in the directory's order, each once
      for each time it is listed; they wait their turn, but for a named node without an
      address. This node goes along if asked for and older than the target. */
  lemma SelectIsExact(entries: seq<Entry>, target: Release, nodes: Option<set<string>>, current: Release, includeSelf: bool, now: int)
    ensures var s := Begin(entries, target, nodes, current, includeSelf, now);
      s.target == target && s.startedAt == now && s.state.Running? &&
      (exists picked :: PicksExactly(entries, s.peers, picked, target, nodes)) &&
      (forall k :: 0 <= k < |s.peers| ==>
        if nodes.Some? && !s.peers[k].entry.hasHost then s.peers[k].state.Unreachable? && s.peers[k].reason.Some?
        else s.peers[k].state.Pending? && s.peers[k].reason.None?) &&
      s.self == SelfStatus(if includeSelf && Below(current, target) then SelfPending else SelfSkipped, None)
  {
    var picked := SelectPicks(entries, target, nodes);
    AtLeastIsNotBelow(current, target);
    SelectStates(entries, target, nodes);
  }

  lemma {:induction false} SelectStates(entries: seq<Entry>, target: Release, nodes: Option<set<string>>)
    ensures forall p :: p in Select(entries, target, nodes) ==>
      if nodes.Some? && !p.entry.hasHost then p.state.Unreachable? && p.reason.Some? else p.state.Pending? && p.reason.None?
  {
    if entries != [] { SelectStates(Init(entries), target, nodes); }
  }

  lemma EntryKept(entry: Entry, nodes: Option<set<string>>)
    ensures InitialPeer(entry, nodes).entry == entry
  {}

  // ---- The machine ---------------------------------------------------------

  datatype Job = Job(pollMs: nat, waitMs: int)

  /** Which answer is awaited. `before` is the failure record known before the push. */
  datatype Phase =
    | Between
    | AskingBefore(peer: nat)
    | AwaitingPush(peer: nat, before: Option<LastUpgrade>, pushedAt: int)
    | Sleeping(peer: nat, before: Option<LastUpgrade>, pushedAt: int, polls: nat)
    | Checking(peer: nat, before: Option<LastUpgrade>, pushedAt: int, polls: nat)
    | AwaitingSelf
    | Ended

  /** `pushes` and `selfCalls` record the calls made, `clock` the last reading of it. */
  datatype Run = Run(status: Status, phase: Phase, aborted: bool, clock: int, pushes: seq<nat>, selfCalls: nat)

  datatype PushOutcome = Accepted | NoRoute | HttpRefused(message: string) | Broken(message: string)

  /** An answer carries the clock reading the program takes next. */
  datatype Event =
    | Abort
    | Said(info: Option<NodeInfo>, now: int)
    | PushAnswered(outcome: PushOutcome, now: int)
    | Woke
    | SleepFailed(message: string)
    | SelfAnswered(failure: Option<string>)

  const ABORTED_REASON := "the daemon stopped during the rollout"
  const TOO_OLD_REASON :=
    "too old for remote upgrade; run \"homefleet upgrade\" there (npm i -g on v0.4 or older)"
  const TIMEOUT_REASON := "unknown \U{2014} check the node"

  function Mark(s: Run, i: nat, state: PeerState, reason: Option<string>): Run {
    if i < |s.status.peers|
    then s.(status := s.status.(peers := s.status.peers[i := s.status.peers[i].(state := state, reason := reason)]))
    else s
  }

  function StopAborted(s: Run): Run {
    s.(status := s.status.(state := Stopped, self := s.status.self.(reason := Some(ABORTED_REASON))), phase := Ended)
  }

  /** After `rolloutPeer` has answered false. */
  function Stop(s: Run): Run {
    if s.aborted then StopAborted(s) else s.(status := s.status.(state := Stopped), phase := Ended)
  }

  function Push(s: Run, i: nat, before: Option<LastUpgrade>, now: int): Run {
    s.(phase := AwaitingPush(i, before, now), pushes := s.pushes + [i])
  }

  /** The start of `rolloutPeer`, up to its first await. */
  function Enter(s: Run, i: nat, now: int): Run
    requires i < |s.status.peers|
  {
    var pushing := Mark(s, i, Pushing, s.status.peers[i].reason);
    match s.status.peers[i].entry.info
    case Some(info) => Push(pushing, i, info.lastUpgrade, now)
    case None => pushing.(phase := AskingBefore(i))
  }

  /** The end of `run`, once every peer has been passed. */
  function Finale(s: Run): Run {
    if s.aborted then StopAborted(s)
    else if s.status.self.state != SelfPending then s.(status := s.status.(state := Done), phase := Ended)
    else s.(phase := AwaitingSelf, selfCalls := s.selfCalls + 1)
  }

  /** The loop of `run` from peer `i` to its next await. */
  function Advance(s: Run, i: nat, now: int): Run
    requires i <= |s.status.peers|
    decreases |s.status.peers| - i
  {
    if i == |s.status.peers| then Finale(s)
    else if s.status.peers[i].state.Unreachable? then Advance(s, i + 1, now)
    else if s.aborted then StopAborted(s)
    else Enter(s, i, now)
  }

  /** The guard of the poll loop. */
  function Poll(job: Job, s: Run, i: nat, before: Option<LastUpgrade>, pushedAt: int, polls: nat, now: int): Run {
    if now - pushedAt < job.waitMs then s.(phase := Sleeping(i, before, pushedAt, polls))
    else Stop(Mark(s, i, TimedOut, Some(TIMEOUT_REASON)))
  }

  /** A failure record for the target that the peer did not have before the push. */
  predicate Fresh(last: Option<LastUpgrade>, before: Option<LastUpgrade>, target: Release) {
    last.Some? && last.value.version == target && !last.value.outcome.Success? && last != before
  }

  function Verdict(outcome: Outcome): PeerState {
    match outcome case Success => Succeeded case Rollback => RolledBack case Failure => Failed
  }

  function Skipped(s: Run, i: nat, outcome: PushOutcome): Run
    requires !outcome.Accepted?
  {
    match outcome
    case NoRoute => Mark(s, i, TooOld, Some(TOO_OLD_REASON))
    case HttpRefused(message) => Mark(s, i, Refused, Some(message))
    case Broken(message) => Mark(s, i, Unreachable, Some(message))
  }

  function AfterPush(job: Job, s: Run, i: nat, before: Option<LastUpgrade>, pushedAt: int, outcome: PushOutcome, now: int): Run
    requires i < |s.status.peers|
  {
    if outcome.Accepted?
    then Poll(job, Mark(s, i, Restarting, s.status.peers[i].reason), i, before, pushedAt, 0, now)
    else Advance(Skipped(s, i, outcome), i + 1, now)
  }

  function AfterHello(job: Job, s: Run, at: Phase, info: Option<NodeInfo>, now: int): Run
    requires at.Checking? && at.peer < |s.status.peers|
  {
    var last := if info.None? then None else info.value.lastUpgrade;
    if info.Some? && AtLeast(info.value.version, s.status.target)
    then Advance(Mark(s, at.peer, Succeeded, s.status.peers[at.peer].reason), at.peer + 1, now)
    else if Fresh(last, at.before, s.status.target)
    then Stop(Mark(s, at.peer, Verdict(last.value.outcome),
                   if last.value.reason.Some? then last.value.reason else s.status.peers[at.peer].reason))
    else Poll(job, s, at.peer, at.before, at.pushedAt, at.polls, now)
  }

  /** The catch handler of `start`. */
  function Caught(s: Run, message: string): Run {
    var i := FirstActive(s.status.peers);
    var failed := if i < |s.status.peers| then Mark(s, i, Failed, Some(message))
                  else s.(status := s.status.(self := s.status.self.(reason := Some(message))));
    failed.(status := failed.status.(state := Stopped), phase := Ended)
  }

  function FirstActive(peers: seq<Peer>): (i: nat)
    ensures i <= |peers| && (i < |peers| ==> peers[i].state.Active())
    ensures forall j :: 0 <= j < i ==> !peers[j].state.Active()
    decreases |peers|
  {
    if peers == [] || peers[0].state.Active() then 0
    else
      var i := 1 + FirstActive(peers[1..]);
      assert forall j :: 1 <= j < i ==> peers[j] == peers[1..][j - 1];
      i
  }

  /** The machine while it is working on an answer. */
  function Idle(s: Run, e: Event): Run {
    s.(phase := Between, clock := if e.Said? || e.PushAnswered? then e.now else s.clock)
  }

  /** An answer nobody awaits does not occur. */
  function Next(job: Job, s: Run, e: Event): Run {
    if e.Abort? then s.(aborted := true)
    else
      var idle := Idle(s, e);
      match s.phase
      case AskingBefore(i) =>
        if e.Said? then Push(idle, i, if e.info.None? then None else e.info.value.lastUpgrade, e.now) else s
      case AwaitingPush(i, before, pushedAt) =>
        if e.PushAnswered? && i < |s.status.peers| then AfterPush(job, idle, i, before, pushedAt, e.outcome, e.now) else s
      case Sleeping(i, before, pushedAt, polls) =>
        if e.Woke? then
          if s.aborted then StopAborted(idle) else s.(phase := Checking(i, before, pushedAt, polls + 1))
        else if e.SleepFailed? then Caught(idle, e.message) else s
      case Checking(i, before, pushedAt, polls) =>
        if e.Said? && i < |s.status.peers| then AfterHello(job, idle, s.phase, e.info, e.now) else s
      case AwaitingSelf =>
        if !e.SelfAnswered? then s
        else if e.failure.None?
        then idle.(status := s.status.(self := s.status.self.(state := SelfRestarting)), phase := Ended)
        else idle.(status := s.status.(self := SelfStatus(SelfRefused, e.failure), state := Done), phase := Ended)
      case _ => s
  }

  function Execute(job: Job, s: Run, events: seq<Event>): Run {
    if events == [] then s else Next(job, Execute(job, s, Init(events)), Last(events))
  }

  /** What a rollout may start from. */
  predicate Initial(status: Status) {
    status.state.Running? && (status.self.state == SelfPending || status.self.state == SelfSkipped) &&
    forall i :: 0 <= i < |status.peers| ==> status.peers[i].state.Pending? || status.peers[i].state.Unreachable?
  }

  lemma BeginIsInitial(entries: seq<Entry>, target: Release, nodes: Option<set<string>>, current: Release, includeSelf: bool, now: int)
    ensures Initial(Begin(entries, target, nodes, current, includeSelf, now))
  {
    SelectMembers(entries, target, nodes);
    var peers := Select(entries, target, nodes);
    assert forall i :: 0 <= i < |peers| ==> peers[i] in peers;
  }

  function Start(status: Status, now: int): Run {
    Advance(Run(status, Between, false, now, [], 0), 0, now)
  }

  // ---- Invariant -----------------------------------------------------------

  predicate AllPassed(peers: seq<Peer>, n: nat) {
    n <= |peers| && forall j :: 0 <= j < n ==> peers[j].state.Passed()
  }

  predicate Untouched(first: seq<Peer>, peers: seq<Peer>, n: nat) {
    |peers| == |first| && forall j :: n <= j < |peers| ==> peers[j] == first[j]
  }

  predicate PushedBelow(pushes: seq<nat>, n: nat) {
    (forall k :: 0 <= k < |pushes| ==> pushes[k] < n) && forall k, l :: 0 <= k < l < |pushes| ==> pushes[k] < pushes[l]
  }

  /** Work has reached peer `i`: all before it passed, all after it untouched. */
  ghost predicate Reached(first: Status, s: Run, i: nat) {
    i <= |s.status.peers| && AllPassed(s.status.peers, i) && Untouched(first.peers, s.status.peers, i + 1) &&
    s.status.target == first.target && s.status.startedAt == first.startedAt
  }

  /** This node's own upgrade has not been asked for. */
  predicate SelfWaits(first: Status, s: Run) {
    s.selfCalls == 0 && s.status.self.state == first.self.state
  }

  ghost predicate AtPeer(first: Status, s: Run, i: nat) {
    i < |s.status.peers| && Reached(first, s, i) && SelfWaits(first, s) && s.status.state.Running?
  }

  ghost predicate Good(first: Status, s: Run) {
    match s.phase
    case Between => false
    case AskingBefore(i) => AtPeer(first, s, i) && s.status.peers[i].state.Pushing? && PushedBelow(s.pushes, i)
    case AwaitingPush(i, _, _) => AtPeer(first, s, i) && s.status.peers[i].state.Pushing? && PushedBelow(s.pushes, i + 1)
    case Sleeping(i, _, _, _) => AtPeer(first, s, i) && s.status.peers[i].state.Restarting? && PushedBelow(s.pushes, i + 1)
    case Checking(i, _, _, _) => AtPeer(first, s, i) && s.status.peers[i].state.Restarting? && PushedBelow(s.pushes, i + 1)
    case AwaitingSelf =>
      Reached(first, s, |s.status.peers|) && s.selfCalls == 1 && first.self.state == SelfPending &&
      s.status.self.state == SelfPending && s.status.state.Running? && PushedBelow(s.pushes, |s.status.peers|)
    case Ended => exists i :: EndedAt(first, s, i)
  }

  /** Where and how it ended. */
  ghost predicate EndedAt(first: Status, s: Run, i: nat) {
    Reached(first, s, i) && PushedBelow(s.pushes, i + 1) &&
    if i < |s.status.peers| then
      s.status.state.Stopped? && SelfWaits(first, s) &&
      (s.status.peers[i].state.Harmed() || (s.aborted && (s.status.peers[i].state.Restarting? || s.status.peers[i] == first.peers[i])))
    else if s.selfCalls == 0 then
      SelfWaits(first, s) && ((s.status.state.Stopped? && s.aborted) || (s.status.state.Done? && first.self.state == SelfSkipped))
    else
      s.selfCalls == 1 && first.self.state == SelfPending &&
      (if s.status.self.state == SelfRestarting then s.status.state.Running?
       else s.status.self.state == SelfRefused && s.status.state.Done?)
  }

  /** The state of `run` when its loop looks at peer `i`. */
  ghost predicate Ready(first: Status, s: Run, i: nat) {
    i <= |s.status.peers| && AllPassed(s.status.peers, i) && Untouched(first.peers, s.status.peers, i) &&
    s.status.target == first.target && s.status.startedAt == first.startedAt &&
    SelfWaits(first, s) && s.status.state.Running? && PushedBelow(s.pushes, i)
  }

  lemma {:induction false} AdvanceGood(first: Status, s: Run, i: nat, now: int)
    requires Initial(first) && Ready(first, s, i)
    ensures Good(first, Advance(s, i, now))
    decreases |s.status.peers| - i
  {
    var n := Advance(s, i, now);
    if i == |s.status.peers| {
      FinaleGood(first, s);
    } else if s.status.peers[i].state.Unreachable? {
      assert Ready(first, s, i + 1);
      AdvanceGood(first, s, i + 1, now);
    } else if s.aborted {
      assert EndedAt(first, n, i);
    }
  }

  lemma FinaleGood(first: Status, s: Run)
    requires Initial(first) && Ready(first, s, |s.status.peers|)
    ensures Good(first, Finale(s))
  {
    var n := Finale(s);
    if n.phase.Ended? {
      assert EndedAt(first, n, |s.status.peers|);
    }
  }

  /** Marking the current peer leaves the others alone. */
  lemma MarkReady(first: Status, s: Run, i: nat, state: PeerState, reason: Option<string>)
    requires AtPeer(first, s, i) && PushedBelow(s.pushes, i + 1)
    ensures state.Passed() ==> Ready(first, Mark(s, i, state, reason), i + 1)
    ensures AtPeer(first, Mark(s, i, state, reason), i)
  {}

  lemma SkippedReady(first: Status, s: Run, i: nat, outcome: PushOutcome)
    requires AtPeer(first, s, i) && PushedBelow(s.pushes, i + 1) && !outcome.Accepted?
    ensures Ready(first, Skipped(s, i, outcome), i + 1)
  {
    hide Ready, PushedBelow, AtPeer, Mark;
    match outcome
    case NoRoute => MarkReady(first, s, i, TooOld, Some(TOO_OLD_REASON));
    case HttpRefused(message) => MarkReady(first, s, i, Refused, Some(message));
    case Broken(message) => MarkReady(first, s, i, Unreachable, Some(message));
  }

  lemma StopGood(first: Status, s: Run, i: nat)
    requires AtPeer(first, s, i) && PushedBelow(s.pushes, i + 1) && s.status.peers[i].state.Harmed()
    ensures Good(first, Stop(s))
  {
    assert EndedAt(first, Stop(s), i);
  }

  lemma PollGood(first: Status, job: Job, s: Run, i: nat, before: Option<LastUpgrade>, pushedAt: int, polls: nat, now: int)
    requires AtPeer(first, s, i) && PushedBelow(s.pushes, i + 1) && s.status.peers[i].state.Restarting?
    ensures Good(first, Poll(job, s, i, before, pushedAt, polls, now))
  {
    if now - pushedAt >= job.waitMs {
      hide Good, PushedBelow;
      MarkReady(first, s, i, TimedOut, Some(TIMEOUT_REASON));
      StopGood(first, Mark(s, i, TimedOut, Some(TIMEOUT_REASON)), i);
    }
  }

  lemma AfterPushGood(first: Status, job: Job, s: Run, i: nat, before: Option<LastUpgrade>, pushedAt: int, outcome: PushOutcome, now: int)
    requires Initial(first) && AtPeer(first, s, i) && PushedBelow(s.pushes, i + 1)
    ensures Good(first, AfterPush(job, s, i, before, pushedAt, outcome, now))
  {
    hide Initial, Good, PushedBelow, Ready, Reached, Advance, Poll;
    if outcome.Accepted? {
      MarkReady(first, s, i, Restarting, s.status.peers[i].reason);
      PollGood(first, job, Mark(s, i, Restarting, s.status.peers[i].reason), i, before, pushedAt, 0, now);
    } else {
      SkippedReady(first, s, i, outcome);
      AdvanceGood(first, Skipped(s, i, outcome), i + 1, now);
    }
  }

  lemma AfterHelloGood(first: Status, job: Job, s: Run, at: Phase, info: Option<NodeInfo>, now: int)
    requires Initial(first) && at.Checking? && AtPeer(first, s, at.peer) && PushedBelow(s.pushes, at.peer + 1)
    requires s.status.peers[at.peer].state.Restarting?
    ensures Good(first, AfterHello(job, s, at, info, now))
  {
    hide Initial, Good, PushedBelow, Ready, Reached, Advance, Poll, AtLeast;
    var i, reason := at.peer, s.status.peers[at.peer].reason;
    var last := if info.None? then None else info.value.lastUpgrade;
    if info.Some? && AtLeast(info.value.version, s.status.target) {
      MarkReady(first, s, i, Succeeded, reason);
      AdvanceGood(first, Mark(s, i, Succeeded, reason), i + 1, now);
    } else if Fresh(last, at.before, s.status.target) {
      var why := if last.value.reason.Some? then last.value.reason else reason;
      MarkReady(first, s, i, Verdict(last.value.outcome), why);
      StopGood(first, Mark(s, i, Verdict(last.value.outcome), why), i);
    } else {
      PollGood(first, job, s, i, at.before, at.pushedAt, at.polls, now);
    }
  }

  lemma CaughtGood(first: Status, s: Run, i: nat, message: string)
    requires AtPeer(first, s, i) && PushedBelow(s.pushes, i + 1) && s.status.peers[i].state.Active()
    ensures Good(first, Caught(s, message))
  {
    assert FirstActive(s.status.peers) == i;
    assert EndedAt(first, Caught(s, message), i);
  }

  lemma AbortGood(first: Status, s: Run)
    requires Good(first, s)
    ensures Good(first, s.(aborted := true))
  {
    if s.phase.Ended? {
      var i :| EndedAt(first, s, i);
      assert EndedAt(first, s.(aborted := true), i);
    }
  }

  lemma NextGood(first: Status, job: Job, s: Run, e: Event)
    requires Initial(first) && Good(first, s)
    ensures Good(first, Next(job, s, e))
  {
    hide Initial, Reached, PushedBelow, AfterPush, AfterHello, Caught, EndedAt;
    var idle := Idle(s, e);
    if e.Abort? {
      AbortGood(first, s);
    } else {
      match s.phase
      case AskingBefore(i) =>
        if e.Said? { PushGood(first, s, i, if e.info.None? then None else e.info.value.lastUpgrade, e.now); }
      case AwaitingPush(i, before, pushedAt) =>
        if e.PushAnswered? { AtPeerPhase(first, s, e, i); AfterPushGood(first, job, idle, i, before, pushedAt, e.outcome, e.now); }
      case Sleeping(i, before, pushedAt, polls) =>
        if e.Woke? {
          WokeGood(first, s, i);
        } else if e.SleepFailed? {
          AtPeerPhase(first, s, e, i);
          CaughtGood(first, idle, i, e.message);
        }
      case Checking(i, before, pushedAt, polls) =>
        if e.Said? { AtPeerPhase(first, s, e, i); AfterHelloGood(first, job, idle, s.phase, e.info, e.now); }
      case AwaitingSelf =>
        if e.SelfAnswered? { SelfGood(first, job, s, e); }
      case _ =>
    }
  }

  lemma AtPeerPhase(first: Status, s: Run, e: Event, i: nat)
    requires AtPeer(first, s, i)
    ensures AtPeer(first, Idle(s, e), i)
  {}

  lemma PushGood(first: Status, s: Run, i: nat, before: Option<LastUpgrade>, now: int)
    requires AtPeer(first, s, i) && s.status.peers[i].state.Pushing? && PushedBelow(s.pushes, i)
    ensures Good(first, Push(s.(phase := Between, clock := now), i, before, now))
  {}

  lemma WokeGood(first: Status, s: Run, i: nat)
    requires AtPeer(first, s, i) && s.status.peers[i].state.Restarting? && PushedBelow(s.pushes, i + 1)
    ensures s.aborted ==> Good(first, StopAborted(s.(phase := Between)))
    ensures forall before, pushedAt, polls :: Good(first, s.(phase := Checking(i, before, pushedAt, polls)))
  {
    if s.aborted {
      assert EndedAt(first, StopAborted(s.(phase := Between)), i);
    }
  }

  lemma SelfGood(first: Status, job: Job, s: Run, e: Event)
    requires Good(first, s) && s.phase.AwaitingSelf? && e.SelfAnswered?
    ensures Good(first, Next(job, s, e))
  {
    assert EndedAt(first, Next(job, s, e), |s.status.peers|);
  }

  lemma {:induction false} ExecuteGood(job: Job, first: Status, now: int, events: seq<Event>)
    requires Initial(first)
    ensures Good(first, Execute(job, Start(first, now), events))
  {
    if events == [] {
      AdvanceGood(first, Run(first, Between, false, now, [], 0), 0, now);
    } else {
      hide Good, Next, Start, Initial;
      ExecuteGood(job, first, now, Init(events));
      NextGood(first, job, Execute(job, Start(first, now), Init(events)), Last(events));
    }
  }

  // ---- Safety over whole rollouts ------------------------------------------

  /** At no moment are two peers being pushed to or restarting. */
  lemma OnePeerAtATime(job: Job, first: Status, now: int, events: seq<Event>, i: nat, j: nat)
    requires Initial(first)
    ensures var peers := Execute(job, Start(first, now), events).status.peers;
      i < j < |peers| ==> !(peers[i].state.Active() && peers[j].state.Active())
  {
    ExecuteGood(job, first, now, events);
    var s := Execute(job, Start(first, now), events);
    hide Execute, Start, PushedBelow;
    if s.phase.Ended? {
      var k :| EndedAt(first, s, k);
    }
  }

  /** A peer that rolled back, failed or timed out: everything before it had passed,
      nobody after it was touched or pushed to, and this node was not upgraded. */
  lemma HarmStopsTheRollout(job: Job, first: Status, now: int, events: seq<Event>, k: nat)
    requires Initial(first)
    requires var peers := Execute(job, Start(first, now), events).status.peers;
      k < |peers| && peers[k].state.Harmed()
    ensures var s := Execute(job, Start(first, now), events);
      s.phase.Ended? && s.status.state.Stopped? && s.selfCalls == 0 && s.status.self.state == first.self.state &&
      AllPassed(s.status.peers, k) && Untouched(first.peers, s.status.peers, k + 1) &&
      forall p :: p in s.pushes ==> p <= k
  {
    ExecuteGood(job, first, now, events);
    var s := Execute(job, Start(first, now), events);
    hide Execute, Start;
    if s.phase.Ended? {
      var i :| EndedAt(first, s, i);
    }
  }

  /** This node is upgraded at most once, last, and only after every selected peer has
      succeeded, refused, or could not take the upgrade. Peers are pushed to at most
      once each, in order. */
  lemma SelfGoesLast(job: Job, first: Status, now: int, events: seq<Event>)
    requires Initial(first)
    ensures var s := Execute(job, Start(first, now), events);
      s.selfCalls <= 1 &&
      (s.selfCalls == 1 ==> AllPassed(s.status.peers, |s.status.peers|) && first.self.state == SelfPending) &&
      (s.status.state.Done? ==> AllPassed(s.status.peers, |s.status.peers|)) &&
      (s.status.self.state == SelfRestarting ==> s.selfCalls == 1) &&
      forall k, l :: 0 <= k < l < |s.pushes| ==> s.pushes[k] < s.pushes[l]
  {
    ExecuteGood(job, first, now, events);
    var s := Execute(job, Start(first, now), events);
    hide Execute, Start;
    if s.phase.Ended? {
      var i :| EndedAt(first, s, i);
    }
  }

  // ---- Stale records -------------------------------------------------------

  function LastOf(info: Option<NodeInfo>): Option<LastUpgrade> {
    if info.None? then None else info.value.lastUpgrade
  }

  predicate Waiting(phase: Phase) { phase.AwaitingPush? || phase.Sleeping? || phase.Checking? }

  /** What peer `i` was known to have recorded before it was pushed to: what the directory
      said of it, failing that what it answered when asked. */
  function KnownBefore(job: Job, first: Status, now: int, events: seq<Event>, i: nat): Option<LastUpgrade>
    requires i < |first.peers|
  {
    if first.peers[i].entry.info.Some? then first.peers[i].entry.info.value.lastUpgrade
    else if events == [] then None
    else if Execute(job, Start(first, now), Init(events)).phase == AskingBefore(i) && Last(events).Said? then LastOf(Last(events).info)
    else KnownBefore(job, first, now, Init(events), i)
  }

  /** Where the loop turns next. */
  ghost predicate TurnsTo(s: Run, n: Run, now: int) {
    match n.phase
    case AskingBefore(i) => i < |s.status.peers| && s.status.peers[i].entry.info.None? && n.pushes == s.pushes
    case AwaitingPush(i, before, pushedAt) =>
      i < |s.status.peers| && s.status.peers[i].entry.info.Some? && before == LastOf(s.status.peers[i].entry.info) &&
      pushedAt == now && n.pushes == s.pushes + [i]
    case AwaitingSelf => n.pushes == s.pushes
    case Ended => n.pushes == s.pushes
    case _ => false
  }

  ghost predicate SameEntries(s: Run, n: Run) {
    |n.status.peers| == |s.status.peers| && forall j :: 0 <= j < |s.status.peers| ==> n.status.peers[j].entry == s.status.peers[j].entry
  }

  lemma {:induction false} AdvanceTurns(s: Run, i: nat, now: int)
    requires i <= |s.status.peers|
    ensures TurnsTo(s, Advance(s, i, now), now) && SameEntries(s, Advance(s, i, now))
    decreases |s.status.peers| - i
  {
    if i < |s.status.peers| && s.status.peers[i].state.Unreachable? { AdvanceTurns(s, i + 1, now); }
  }

  predicate SameWait(a: Phase, b: Phase) {
    Waiting(a) && Waiting(b) && a.peer == b.peer && a.before == b.before && a.pushedAt == b.pushedAt
  }

  predicate Unknown(s: Run, i: nat) { i < |s.status.peers| && s.status.peers[i].entry.info.None? }

  /** The record remembered with a push, and its time, are those of the moment of the push:
      an answer leads to a push with the clock just read, or leaves both as they were. */
  ghost predicate Remembers(s: Run, e: Event, n: Run) {
    if n.pushes == s.pushes then
      (Waiting(n.phase) ==> SameWait(s.phase, n.phase)) &&
      (n.phase.AskingBefore? && n.phase != s.phase ==> Unknown(s, n.phase.peer))
    else
      n.phase.AwaitingPush? && n.pushes == s.pushes + [n.phase.peer] && (e.Said? || e.PushAnswered?) && n.phase.pushedAt == e.now &&
      if s.phase.AskingBefore? then e.Said? && n.phase.peer == s.phase.peer && n.phase.before == LastOf(e.info)
      else n.phase.peer < |s.status.peers| && s.status.peers[n.phase.peer].entry.info.Some? &&
           n.phase.before == LastOf(s.status.peers[n.phase.peer].entry.info)
  }

  lemma TurnRemembers(s: Run, e: Event, mid: Run, n: Run)
    requires e.Said? || e.PushAnswered?
    requires !s.phase.AskingBefore? && TurnsTo(mid, n, e.now) && SameEntries(mid, n)
    requires mid.pushes == s.pushes && SameEntries(s, mid)
    ensures Remembers(s, e, n) && SameEntries(s, n)
  {}

  lemma MarkSame(s: Run, i: nat, state: PeerState, reason: Option<string>)
    ensures SameEntries(s, Mark(s, i, state, reason)) && Mark(s, i, state, reason).pushes == s.pushes
  {}

  lemma PollRemembers(job: Job, s: Run, e: Event, mid: Run, now: int)
    requires Waiting(s.phase) && mid.pushes == s.pushes && SameEntries(s, mid)
    ensures var n := Poll(job, mid, s.phase.peer, s.phase.before, s.phase.pushedAt, if s.phase.Checking? then s.phase.polls else 0, now);
      Remembers(s, e, n) && SameEntries(s, n)
  {}

  lemma PushRemembers(job: Job, s: Run, e: Event)
    requires s.phase.AwaitingPush? && e.PushAnswered? && s.phase.peer < |s.status.peers|
    ensures Remembers(s, e, Next(job, s, e)) && SameEntries(s, Next(job, s, e))
  {
    hide Advance, Poll, Remembers, TurnsTo, SameEntries, Mark;
    var i, idle := s.phase.peer, Idle(s, e);
    if e.outcome.Accepted? {
      MarkSame(idle, i, Restarting, s.status.peers[i].reason);
      IdleSame(s, e);
      SameTwice(s, idle, Mark(idle, i, Restarting, s.status.peers[i].reason));
      PollRemembers(job, s, e, Mark(idle, i, Restarting, s.status.peers[i].reason), e.now);
    } else {
      var mid := Skipped(idle, i, e.outcome);
      SkippedSame(idle, i, e.outcome);
      AdvanceTurns(mid, i + 1, e.now);
      IdleSame(s, e);
      SameTwice(s, idle, mid);
      TurnRemembers(s, e, mid, Next(job, s, e));
    }
  }

  lemma IdleSame(s: Run, e: Event)
    ensures SameEntries(s, Idle(s, e))
  {}

  lemma SameTwice(a: Run, b: Run, c: Run)
    requires SameEntries(a, b) && SameEntries(b, c)
    ensures SameEntries(a, c)
  {}

  lemma SkippedSame(s: Run, i: nat, outcome: PushOutcome)
    requires !outcome.Accepted?
    ensures SameEntries(s, Skipped(s, i, outcome)) && Skipped(s, i, outcome).pushes == s.pushes
    ensures |Skipped(s, i, outcome).status.peers| == |s.status.peers|
  {}

  lemma StopRemembers(s: Run, e: Event, mid: Run)
    requires mid.pushes == s.pushes && SameEntries(s, mid)
    ensures Remembers(s, e, Stop(mid)) && SameEntries(s, Stop(mid))
  {}

  lemma HelloRemembers(job: Job, s: Run, e: Event)
    requires s.phase.Checking? && e.Said? && s.phase.peer < |s.status.peers|
    ensures Remembers(s, e, Next(job, s, e)) && SameEntries(s, Next(job, s, e))
  {
    hide Advance, Poll, Remembers, TurnsTo, SameEntries, Mark, AtLeast, Fresh, Stop;
    var i, idle, reason := s.phase.peer, Idle(s, e), s.status.peers[s.phase.peer].reason;
    IdleSame(s, e);
    if e.info.Some? && AtLeast(e.info.value.version, s.status.target) {
      var mid := Mark(idle, i, Succeeded, reason);
      MarkSame(idle, i, Succeeded, reason);
      SameTwice(s, idle, mid);
      assert |mid.status.peers| == |s.status.peers| by { SameLength(s, mid); }
      AdvanceTurns(mid, i + 1, e.now);
      TurnRemembers(s, e, mid, Next(job, s, e));
    } else {
      var last := LastOf(e.info);
      if Fresh(last, s.phase.before, s.status.target) {
        FreshIsSome(last, s.phase.before, s.status.target);
        var why := if last.value.reason.Some? then last.value.reason else reason;
        var mid := Mark(idle, i, Verdict(last.value.outcome), why);
        MarkSame(idle, i, Verdict(last.value.outcome), why);
        SameTwice(s, idle, mid);
        StopRemembers(s, e, mid);
      } else {
        PollRemembers(job, s, e, idle, e.now);
      }
    }
  }

  lemma SameLength(a: Run, b: Run)
    requires SameEntries(a, b)
    ensures |b.status.peers| == |a.status.peers|
  {}

  lemma FreshIsSome(last: Option<LastUpgrade>, before: Option<LastUpgrade>, target: Release)
    requires Fresh(last, before, target)
    ensures last.Some?
  {}

  lemma OthersRemember(job: Job, s: Run, e: Event)
    requires !(s.phase.AwaitingPush? && e.PushAnswered?) && !(s.phase.Checking? && e.Said?)
    ensures Remembers(s, e, Next(job, s, e)) && SameEntries(s, Next(job, s, e))
  {
    hide Advance, AtLeast, Fresh, Poll, AfterHello, AfterPush;
  }

  lemma WaitIsRemembered(job: Job, s: Run, e: Event)
    ensures Remembers(s, e, Next(job, s, e)) && SameEntries(s, Next(job, s, e))
  {
    hide Next, Remembers, SameEntries;
    if s.phase.AwaitingPush? && e.PushAnswered? {
      if s.phase.peer < |s.status.peers| { PushRemembers(job, s, e); } else { NobodyThere(job, s, e); }
    } else if s.phase.Checking? && e.Said? {
      if s.phase.peer < |s.status.peers| { HelloRemembers(job, s, e); } else { NobodyThere(job, s, e); }
    } else {
      OthersRemember(job, s, e);
    }
  }

  lemma NobodyThere(job: Job, s: Run, e: Event)
    requires (s.phase.AwaitingPush? || s.phase.Checking?) && s.phase.peer >= |s.status.peers| && !e.Abort?
    ensures Remembers(s, e, Next(job, s, e)) && SameEntries(s, Next(job, s, e))
  {}

  /** In every run the record a peer's answers are compared with is the one known of it
      before the push. */
  lemma {:induction false} BeforeIsKnown(job: Job, first: Status, now: int, events: seq<Event>)
    ensures var s := Execute(job, Start(first, now), events);
      SameEntries(Run(first, Between, false, now, [], 0), s) &&
      (s.phase.AskingBefore? ==> s.phase.peer < |first.peers| && first.peers[s.phase.peer].entry.info.None?) &&
      (Waiting(s.phase) ==>
        s.phase.peer < |first.peers| && s.phase.before == KnownBefore(job, first, now, events, s.phase.peer))
  {
    if events == [] {
      AdvanceTurns(Run(first, Between, false, now, [], 0), 0, now);
    } else {
      hide Start, Next;
      BeforeIsKnown(job, first, now, Init(events));
      WaitIsRemembered(job, Execute(job, Start(first, now), Init(events)), Last(events));
    }
  }

  /** The answer brings no failure record the peer did not have before. */
  predicate BringsNothingNew(s: Run, e: Event, before: Option<LastUpgrade>) {
    !e.SleepFailed? &&
    (s.phase.Checking? && e.Said? && e.info.Some? ==> e.info.value.lastUpgrade.None? || e.info.value.lastUpgrade == before)
  }

  predicate NothingNew(job: Job, first: Status, now: int, events: seq<Event>) {
    events == [] || (
      var s := Execute(job, Start(first, now), Init(events));
      NothingNew(job, first, now, Init(events)) &&
      BringsNothingNew(s, Last(events),
        if Waiting(s.phase) && s.phase.peer < |first.peers| then KnownBefore(job, first, now, Init(events), s.phase.peer) else None))
  }

  predicate NoVerdict(s: Run) {
    forall i :: 0 <= i < |s.status.peers| ==> !s.status.peers[i].state.RolledBack? && !s.status.peers[i].state.Failed?
  }

  lemma {:induction false} AdvanceNoVerdict(s: Run, i: nat, now: int)
    requires NoVerdict(s) && i <= |s.status.peers|
    ensures NoVerdict(Advance(s, i, now))
    decreases |s.status.peers| - i
  {
    if i < |s.status.peers| && s.status.peers[i].state.Unreachable? {
      AdvanceNoVerdict(s, i + 1, now);
    }
  }

  lemma MarkNoVerdict(s: Run, i: nat, state: PeerState, reason: Option<string>)
    requires NoVerdict(s) && !state.RolledBack? && !state.Failed?
    ensures NoVerdict(Mark(s, i, state, reason)) && |Mark(s, i, state, reason).status.peers| == |s.status.peers|
  {}

  lemma SkippedNoVerdict(s: Run, i: nat, outcome: PushOutcome)
    requires NoVerdict(s) && !outcome.Accepted?
    ensures NoVerdict(Skipped(s, i, outcome)) && |Skipped(s, i, outcome).status.peers| == |s.status.peers|
  {}

  lemma NextNoVerdict(job: Job, s: Run, e: Event)
    requires NoVerdict(s) && BringsNothingNew(s, e, if Waiting(s.phase) then s.phase.before else None)
    ensures NoVerdict(Next(job, s, e))
  {
    var idle := Idle(s, e);
    assert NoVerdict(idle);
    match s.phase
    case AwaitingPush(i, before, pushedAt) =>
      if e.PushAnswered? && i < |s.status.peers| {
        hide Advance, NoVerdict;
        var reason := s.status.peers[i].reason;
        MarkNoVerdict(idle, i, Restarting, reason);
        PollNoVerdict(job, Mark(idle, i, Restarting, reason), i, before, pushedAt, 0, e.now);
        if !e.outcome.Accepted? {
          SkippedNoVerdict(idle, i, e.outcome);
          AdvanceNoVerdict(Skipped(idle, i, e.outcome), i + 1, e.now);
        }
      }
    case Checking(i, before, pushedAt, polls) =>
      if e.Said? && i < |s.status.peers| {
        hide Advance, NoVerdict, Poll;
        var reason := s.status.peers[i].reason;
        MarkNoVerdict(idle, i, Succeeded, reason);
        AdvanceNoVerdict(Mark(idle, i, Succeeded, reason), i + 1, e.now);
        PollNoVerdict(job, idle, i, before, pushedAt, polls, e.now);
      }
    case _ =>
  }

  lemma PollNoVerdict(job: Job, s: Run, i: nat, before: Option<LastUpgrade>, pushedAt: int, polls: nat, now: int)
    requires NoVerdict(s)
    ensures NoVerdict(Poll(job, s, i, before, pushedAt, polls, now))
  {}

  /** A record equal to the one known before the push never stops a rollout: if
      nothing newer is reported, no peer is taken to have rolled back or failed. */
  lemma {:induction false} StaleRecordNeverStops(job: Job, first: Status, now: int, events: seq<Event>)
    requires Initial(first) && NothingNew(job, first, now, events)
    ensures NoVerdict(Execute(job, Start(first, now), events))
  {
    if events == [] {
      AdvanceNoVerdict(Run(first, Between, false, now, [], 0), 0, now);
    } else {
      hide NoVerdict, Next, Start, Initial, BringsNothingNew;
      StaleRecordNeverStops(job, first, now, Init(events));
      BeforeIsKnown(job, first, now, Init(events));
      NextNoVerdict(job, Execute(job, Start(first, now), Init(events)), Last(events));
    }
  }

  lemma {:induction false} AdvanceKeeps(s: Run, i: nat, now: int)
    requires i <= |s.status.peers|
    ensures |Advance(s, i, now).status.peers| == |s.status.peers| && Advance(s, i, now).status.peers[..i] == s.status.peers[..i]
    ensures Advance(s, i, now).clock == s.clock && Advance(s, i, now).aborted == s.aborted
    decreases |s.status.peers| - i
  {
    if i < |s.status.peers| && s.status.peers[i].state.Unreachable? {
      AdvanceKeeps(s, i + 1, now);
      assert Advance(s, i, now).status.peers[..i] == Advance(s, i, now).status.peers[..i + 1][..i];
    }
  }

  /** How a restarting peer is judged on what it says: back on the target, or past it, it
      has succeeded; a failure record for the target that it did not have before the push
      ends the rollout with that verdict and its reason; anything else is waited out until
      the deadline. */
  lemma PeerIsJudged(job: Job, s: Run, e: Event)
    requires s.phase.Checking? && e.Said? && s.phase.peer < |s.status.peers| && s.status.peers[s.phase.peer].state.Restarting?
    ensures var i, n, target := s.phase.peer, Next(job, s, e), s.status.target;
      var last := if e.info.Some? then e.info.value.lastUpgrade else None;
      var back := e.info.Some? && e.info.value.version.Semver? && !Below(e.info.value.version, target);
      var news := last.Some? && last.value.version == target && !last.value.outcome.Success? && last != s.phase.before;
      |n.status.peers| == |s.status.peers| &&
      (n.status.peers[i].state.Succeeded? <==> back) &&
      (n.status.peers[i].state.RolledBack? <==> !back && news && last.value.outcome.Rollback?) &&
      (n.status.peers[i].state.Failed? <==> !back && news && last.value.outcome.Failure?) &&
      (n.status.peers[i].state.TimedOut? <==> !back && !news && e.now - s.phase.pushedAt >= job.waitMs) &&
      (n.status.peers[i].state.Harmed() ==> n.phase.Ended? && n.status.state.Stopped?) &&
      (!back && news && last.value.reason.Some? ==> n.status.peers[i].reason == last.value.reason) &&
      (!back && !news && e.now - s.phase.pushedAt < job.waitMs ==> n.phase.Sleeping? && n.phase.peer == i && n.status == s.status)
  {
    hide Advance, AtLeast, Below;
    var i, idle := s.phase.peer, Idle(s, e);
    if e.info.Some? { AtLeastIsNotBelow(e.info.value.version, s.status.target); }
    var marked := Mark(idle, i, Succeeded, s.status.peers[i].reason);
    AdvanceKeeps(marked, i + 1, e.now);
    assert Advance(marked, i + 1, e.now).status.peers[i] == marked.status.peers[..i + 1][i];
  }

  /** How a push is judged on its answer: a node without the route is too old, one that
      answers with an error has refused, one that does not answer is unreachable, and one
      that accepts is waited for, unless the wait is over before it has begun. */
  lemma PushIsJudged(job: Job, s: Run, e: Event)
    requires s.phase.AwaitingPush? && e.PushAnswered? && s.phase.peer < |s.status.peers|
    ensures var i, n := s.phase.peer, Next(job, s, e);
      |n.status.peers| == |s.status.peers| &&
      match e.outcome
      case NoRoute => n.status.peers[i].state.TooOld? && n.status.peers[i].reason == Some(TOO_OLD_REASON)
      case HttpRefused(message) => n.status.peers[i].state.Refused? && n.status.peers[i].reason == Some(message)
      case Broken(message) => n.status.peers[i].state.Unreachable? && n.status.peers[i].reason == Some(message)
      case Accepted =>
        if e.now - s.phase.pushedAt < job.waitMs then
          n.status.peers[i].state.Restarting? && n.phase == Sleeping(i, s.phase.before, s.phase.pushedAt, 0)
        else n.status.peers[i].state.TimedOut? && n.status.state.Stopped?
  {
    hide Advance;
    var i, idle := s.phase.peer, Idle(s, e);
    if !e.outcome.Accepted? {
      var marked := Skipped(idle, i, e.outcome);
      AdvanceKeeps(marked, i + 1, e.now);
      assert Advance(marked, i + 1, e.now).status.peers[i] == marked.status.peers[..i + 1][i];
    }
  }

  /** How this node's own step is judged: once started, the rollout goes on saying it runs
      while the daemon restarts; refused, it is done. */
  lemma SelfIsJudged(job: Job, s: Run, failure: Option<string>)
    requires s.phase.AwaitingSelf?
    ensures var n := Next(job, s, SelfAnswered(failure));
      n.phase.Ended? && n.status.peers == s.status.peers &&
      if failure.None? then n.status.self.state == SelfRestarting && n.status.state == s.status.state
      else n.status.self == SelfStatus(SelfRefused, failure) && n.status.state.Done?
  {}

  /** How a wait ends that is not seen through: an abort stops the rollout and says so, and
      a sleep that throws fails the peer waited for, with its message. */
  lemma WaitIsBrokenOff(job: Job, first: Status, s: Run, message: string)
    requires Good(first, s) && s.phase.Sleeping?
    ensures s.aborted ==>
      Next(job, s, Woke).phase.Ended? &&
      Next(job, s, Woke).status == s.status.(state := Stopped, self := s.status.self.(reason := Some(ABORTED_REASON)))
    ensures var i, n := s.phase.peer, Next(job, s, SleepFailed(message));
      i < |s.status.peers| && n.phase.Ended? &&
      n.status == s.status.(state := Stopped, peers := s.status.peers[i := s.status.peers[i].(state := Failed, reason := Some(message))])
  {
    assert FirstActive(s.status.peers) == s.phase.peer;
  }

  // ---- How long a peer is waited for ---------------------------------------

  /** Each sleep moves the clock on by at least `pollMs`; it never goes back. */
  predicate Steady(job: Job, s: Run, e: Event) {
    (e.PushAnswered? ==> e.now >= s.clock) &&
    (e.Said? ==> e.now >= s.clock + if s.phase.Checking? then job.pollMs else 0)
  }

  predicate AllSteady(job: Job, s: Run, events: seq<Event>) {
    events == [] || (AllSteady(job, s, Init(events)) && Steady(job, Execute(job, s, Init(events)), Last(events)))
  }

  /** What the poll counter says about the clock. */
  predicate Paced(job: Job, s: Run) {
    match s.phase
    case AwaitingPush(_, _, pushedAt) => pushedAt <= s.clock
    case Sleeping(_, _, pushedAt, polls) => pushedAt + polls * job.pollMs <= s.clock < pushedAt + job.waitMs
    case Checking(_, _, pushedAt, polls) =>
      polls >= 1 && pushedAt + (polls - 1) * job.pollMs <= s.clock < pushedAt + job.waitMs
    case _ => true
  }

  lemma {:induction false} AdvancePaced(job: Job, s: Run, i: nat, now: int)
    requires i <= |s.status.peers| && now <= s.clock
    ensures Paced(job, Advance(s, i, now))
    decreases |s.status.peers| - i
  {
    if i < |s.status.peers| && s.status.peers[i].state.Unreachable? {
      AdvancePaced(job, s, i + 1, now);
    }
  }

  lemma NextPaced(job: Job, s: Run, e: Event)
    requires Paced(job, s) && Steady(job, s, e)
    ensures Paced(job, Next(job, s, e))
  {
    var idle := Idle(s, e);
    match s.phase
    case AwaitingPush(i, before, pushedAt) =>
      if e.PushAnswered? && i < |s.status.peers| && !e.outcome.Accepted? {
        AdvancePaced(job, Skipped(idle, i, e.outcome), i + 1, e.now);
      }
    case Checking(i, before, pushedAt, polls) =>
      if e.Said? && i < |s.status.peers| {
        AdvancePaced(job, Mark(idle, i, Succeeded, s.status.peers[i].reason), i + 1, e.now);
        assert (polls - 1) * job.pollMs + job.pollMs == polls * job.pollMs;
      }
    case _ =>
  }

  lemma {:induction false} ExecutePaced(job: Job, first: Status, now: int, events: seq<Event>)
    requires AllSteady(job, Start(first, now), events)
    ensures Paced(job, Execute(job, Start(first, now), events))
  {
    if events == [] {
      AdvancePaced(job, Run(first, Between, false, now, [], 0), 0, now);
    } else {
      hide Paced, Next, Start, Steady;
      ExecutePaced(job, first, now, Init(events));
      NextPaced(job, Execute(job, Start(first, now), Init(events)), Last(events));
    }
  }

  function Ceiling(a: nat, b: nat): nat
    requires b > 0
  {
    (a + b - 1) / b
  }

  lemma {:induction false} TimesMonotone(a: nat, b: nat, c: nat)
    requires a <= b
    ensures a * c <= b * c
  {
    if c > 0 {
      TimesMonotone(a, b, c - 1);
      assert a * c == a * (c - 1) + a && b * c == b * (c - 1) + b;
    }
  }

  lemma BelowCeiling(polls: nat, a: nat, b: nat)
    requires b > 0 && polls >= 1 && (polls - 1) * b < a
    ensures polls <= Ceiling(a, b)
  {
    var q, r := Ceiling(a, b), (a + b - 1) % b;
    assert q * b + r == a + b - 1 && r < b;
    assert (q + 1) * b == q * b + b;
    if q < polls {
      TimesMonotone(q, polls - 1, b);
    }
  }

  /** No peer is asked more often than the wait divided by the poll interval. */
  lemma PollsAreBounded(job: Job, first: Status, now: int, events: seq<Event>)
    requires job.pollMs > 0 && job.waitMs >= 0 && AllSteady(job, Start(first, now), events)
    ensures var phase := Execute(job, Start(first, now), events).phase;
      phase.Checking? ==> phase.polls <= Ceiling(job.waitMs, job.pollMs)
  {
    ExecutePaced(job, first, now, events);
    var phase := Execute(job, Start(first, now), events).phase;
    if phase.Checking? {
      BelowCeiling(phase.polls, job.waitMs, job.pollMs);
    }
  }

  // ---- Abort ---------------------------------------------------------------

  /** After an abort nobody new is pushed to, except a peer the rollout had already
      turned to, and this node is not upgraded. */
  lemma {:induction false} AbortIsFinal(job: Job, s: Run, events: seq<Event>)
    requires s.aborted
    ensures var n := Execute(job, s, events);
      n.aborted && n.selfCalls == s.selfCalls &&
      ((n.pushes == s.pushes && n.phase == s.phase) ||
       (s.phase.AskingBefore? && n.pushes == s.pushes + [s.phase.peer] && !n.phase.AskingBefore?) ||
       (!s.phase.AskingBefore? && n.pushes == s.pushes && !n.phase.AskingBefore?))
  {
    if events != [] {
      AbortIsFinal(job, s, Init(events));
      hide Execute;
      NextAborted(job, Execute(job, s, Init(events)), Last(events));
    }
  }

  lemma NextAborted(job: Job, s: Run, e: Event)
    requires s.aborted
    ensures var n := Next(job, s, e);
      n.aborted && n.selfCalls == s.selfCalls &&
      ((n.phase == s.phase && n.pushes == s.pushes) ||
       (!n.phase.AskingBefore? && n.pushes == if s.phase.AskingBefore? then s.pushes + [s.phase.peer] else s.pushes))
  {
    var idle := Idle(s, e);
    match s.phase
    case AwaitingPush(i, before, pushedAt) =>
      if e.PushAnswered? && i < |s.status.peers| && !e.outcome.Accepted? {
        AdvanceAborted(Skipped(idle, i, e.outcome), i + 1, e.now);
      }
    case Checking(i, before, pushedAt, polls) =>
      if e.Said? && i < |s.status.peers| {
        AdvanceAborted(Mark(idle, i, Succeeded, s.status.peers[i].reason), i + 1, e.now);
      }
    case _ =>
  }

  lemma {:induction false} AdvanceAborted(s: Run, i: nat, now: int)
    requires s.aborted && i <= |s.status.peers|
    ensures Advance(s, i, now) == StopAborted(s)
    decreases |s.status.peers| - i
  {
    if i < |s.status.peers| && s.status.peers[i].state.Unreachable? {
      AdvanceAborted(s, i + 1, now);
    }
  }

  // ---- Restoring a saved status --------------------------------------------

  /** What the restarted daemon knows of itself: its version and its own last result. */
  datatype Settled = Settled(version: Version, last: Option<LastUpgrade>)

  function SelfVerdict(outcome: Outcome): SelfState {
    match outcome case Success => SelfSucceeded case Rollback => SelfRolledBack case Failure => SelfFailed
  }

  function Restore(saved: Status, now: Settled): Status {
    var ended := if saved.state.Running? then saved.(state := Done) else saved;
    if ended.self.state != SelfRestarting then ended
    else if AtLeast(now.version, ended.target) then ended.(self := SelfStatus(SelfSucceeded, None))
    else if now.last.Some? && now.last.value.version == ended.target && !now.last.value.outcome.Success? &&
            now.last.value.at >= ended.startedAt
    then ended.(self := SelfStatus(SelfVerdict(now.last.value.outcome), now.last.value.reason))
    else ended
  }

  /** A restored status never says running; restoring again changes nothing, and once
      this node's own step is settled no later knowledge unsettles it. Peers, target and
      start are as saved. */
  lemma RestoreIsIdempotent(saved: Status, now: Settled, later: Settled)
    ensures var r := Restore(saved, now);
      !r.state.Running? && Restore(r, now) == r && r.peers == saved.peers && r.target == saved.target &&
      r.startedAt == saved.startedAt &&
      (r.self.state != SelfRestarting ==> Restore(r, later) == r) &&
      (saved.self.state != SelfRestarting ==> r.self == saved.self) &&
      (r.self.state == SelfSucceeded && saved.self.state == SelfRestarting <==>
        saved.self.state == SelfRestarting && AtLeast(now.version, saved.target))
  {}

  /** What the restarted daemon makes of its own step: succeeded on the target or past it,
      otherwise what a failure record for the target written since the start says, and
      otherwise still unknown. */
  lemma RestoreIsExact(saved: Status, now: Settled)
    ensures var r := Restore(saved, now);
      r.state == (if saved.state.Running? then Done else saved.state) &&
      if saved.self.state != SelfRestarting then r.self == saved.self
      else if now.version.Semver? && !Below(now.version, saved.target) then r.self == SelfStatus(SelfSucceeded, None)
      else if now.last.Some? && now.last.value.version == saved.target && now.last.value.at >= saved.startedAt &&
              (now.last.value.outcome.Rollback? || now.last.value.outcome.Failure?)
      then r.self.reason == now.last.value.reason &&
           r.self.state == (if now.last.value.outcome.Rollback? then SelfRolledBack else SelfFailed)
      else r.self == saved.self
  {
    AtLeastIsNotBelow(now.version, saved.target);
  }
}
