/** The rollout as the program runs it, against a network that answers anything. */
module FleetRollouts {
  import opened Basics
  import opened Rollouts

  /** How `rolloutPeer` ends: the rollout goes on, stops, or the sleep has thrown. */
  datatype Ending = Proceed | Halt | Threw(message: string)

  /** The fields a rollout updates. The ghost fields are its history: what was awaited
      and answered, the machine of `Rollouts` fed with it, and the calls made. */
  class FleetRollout {
    const job: Job
    const target: Release
    const startedAt: int
    var peers: seq<Peer>
    var state: RolloutState
    var self: SelfStatus
    var aborted: bool
    var clock: int
    ghost const start: Run
    ghost var answers: seq<Event>
    ghost var run: Run
    ghost var pushes: seq<nat>
    ghost var selfCalls: nat

    /** What the fields say. */
    ghost function Here(): Run
      reads this
    {
      Run(Status(target, startedAt, state, peers, self), Between, aborted, run.clock, pushes, selfCalls)
    }

    /** The history is one of the machine's. */
    ghost predicate Faithful()
      reads this
    {
      run == Execute(job, start, answers)
    }

    /** `start`, up to the loop's first await. */
    constructor (job: Job, entries: seq<Entry>, target: Release, nodes: Option<set<string>>, current: Release, includeSelf: bool, now: int)
      ensures var status := Begin(entries, target, nodes, current, includeSelf, now);
        Initial(status) && start == Start(status, now) && Here() == Run(status, Between, false, now, [], 0)
      ensures Faithful() && answers == [] && this.job == job && clock == now && state.Running? && run == Advance(Here(), 0, clock)
    {
      var status := Begin(entries, target, nodes, current, includeSelf, now);
      BeginIsInitial(entries, target, nodes, current, includeSelf, now);
      AdvanceKeeps(Run(status, Between, false, now, [], 0), 0, now);
      this.job, this.target, startedAt := job, status.target, status.startedAt;
      peers, state, self, aborted, clock := status.peers, status.state, status.self, false, now;
      start, answers, run, pushes, selfCalls := Start(status, now), [], Start(status, now), [], 0;
    }

    // ---- The world outside -------------------------------------------------

    /** Time passes at an await, and the daemon may begin to stop meanwhile, which cuts it
        short. */
    method Wait(least: nat)
      requires Faithful()
      modifies `aborted, `clock, `answers, `run
      ensures Faithful() && clock >= old(clock) + (if aborted then 0 else least) && (old(aborted) ==> aborted)
      ensures run == if aborted then old(run).(aborted := true) else old(run)
    {
      var stopping: bool, extra: nat := *, *;
      aborted := aborted || stopping;
      clock := clock + extra + if aborted then 0 else least;
      if aborted { Answered(Abort); }
    }

    ghost method Answered(e: Event)
      requires Faithful()
      modifies `answers, `run
      ensures Faithful() && run == Next(job, old(run), e)
    {
      hide Next;
      answers := answers + [e];
      run := Next(job, run, e);
      assert Init(answers) == old(answers);
    }

    method Hello() returns (info: Option<NodeInfo>)
      requires Faithful()
      modifies `aborted, `clock, `answers, `run
      ensures Faithful() && clock >= old(clock) && (old(aborted) ==> aborted)
      ensures run == Next(job, old(run).(aborted := old(run).aborted || aborted), Said(info, clock))
    {
      hide Next;
      info := *;
      Wait(0);
      Answered(Said(info, clock));
    }

    method PushTo() returns (outcome: PushOutcome)
      requires Faithful()
      modifies `aborted, `clock, `answers, `run
      ensures Faithful() && clock >= old(clock) && (old(aborted) ==> aborted)
      ensures run == Next(job, old(run).(aborted := old(run).aborted || aborted), PushAnswered(outcome, clock))
    {
      hide Next;
      outcome := *;
      Wait(0);
      Answered(PushAnswered(outcome, clock));
    }

    /** A sleep takes its time, and a timer never less than a millisecond; with a message
        it has thrown instead. */
    method Sleep() returns (message: Option<string>)
      requires Faithful()
      modifies `aborted, `clock, `answers, `run
      ensures Faithful() && clock >= old(clock) + (if aborted then 0 else Max(1, job.pollMs)) && (old(aborted) ==> aborted)
      ensures var e := if message.Some? then SleepFailed(message.value) else Woke;
        run == Next(job, old(run).(aborted := old(run).aborted || aborted), e)
    {
      hide Next;
      message := *;
      Wait(Max(1, job.pollMs));
      Answered(if message.Some? then SleepFailed(message.value) else Woke);
    }

    method UpgradeSelf() returns (failure: Option<string>)
      requires Faithful()
      modifies `aborted, `clock, `answers, `run
      ensures Faithful() && (old(aborted) ==> aborted)
      ensures run == Next(job, old(run).(aborted := old(run).aborted || aborted), SelfAnswered(failure))
    {
      hide Next;
      failure := *;
      Wait(0);
      Answered(SelfAnswered(failure));
    }

    // ---- The program -------------------------------------------------------

    method SetPeer(i: nat, to: PeerState, reason: Option<string>)
      requires i < |peers|
      modifies `peers
      ensures |peers| == |old(peers)| && Here() == Mark(old(Here()), i, to, reason)
    {
      peers := peers[i := peers[i].(state := to, reason := reason)];
    }

    method SkipPeer(i: nat, outcome: PushOutcome)
      requires i < |peers| && !outcome.Accepted?
      modifies `peers
      ensures |peers| == |old(peers)| && Here() == Skipped(old(Here()), i, outcome)
    {
      match outcome
      case NoRoute => SetPeer(i, TooOld, Some(TOO_OLD_REASON));
      case HttpRefused(message) => SetPeer(i, Refused, Some(message));
      case Broken(message) => SetPeer(i, Unreachable, Some(message));
    }

    /** How the machine stands when work on peer `i` has ended so. */
    ghost predicate Settled(i: nat, end: Ending)
      reads this
      requires i < |peers|
    {
      match end
      case Proceed => run == Advance(Here(), i + 1, clock)
      case Halt => run == Stop(Here())
      case Threw(message) => run == Caught(Here(), message)
    }

    /** The poll loop of `rolloutPeer`. */
    method AwaitPeer(i: nat, before: Option<LastUpgrade>, pushedAt: int) returns (end: Ending)
      requires Faithful() && i < |peers| && state.Running?
      requires run.clock == clock && run == Poll(job, Here(), i, before, pushedAt, 0, clock)
      modifies `peers, `aborted, `clock, `answers, `run
      ensures Faithful() && |peers| == |old(peers)| && Settled(i, end)
    {
      hide Execute, AtLeast, Advance, Next, AfterHello, Stop, Caught, Fresh;
      ghost var polls := 0;
      while clock - pushedAt < job.waitMs
        invariant Faithful() && i < |peers| == |old(peers)| && state.Running?
        invariant run.clock == clock && run == Poll(job, Here(), i, before, pushedAt, polls, clock)
        decreases job.waitMs - (clock - pushedAt)
      {
        ghost var was := Here();
        var thrown := Sleep();
        OnWaking(job, was.(aborted := aborted), i, before, pushedAt, polls, thrown);
        EndKeeps(was.(aborted := aborted), if thrown.Some? then thrown.value else "");
        if thrown.Some? {
          return Threw(thrown.value);
        }
        if aborted {
          return Halt;
        }
        polls := polls + 1;
        var info := Hello();
        ghost var s := was.(aborted := aborted, clock := clock);
        OnHello(job, s, was.clock, Checking(i, before, pushedAt, polls), info, clock);
        if info.Some? && AtLeast(info.value.version, target) {
          SetPeer(i, Succeeded, peers[i].reason);
          AdvanceKeeps(Here().(clock := clock), i + 1, clock);
          return Proceed;
        }
        var last := if info.None? then None else info.value.lastUpgrade;
        if Fresh(last, before, target) {
          IsVerdict(last, before, target);
          SetPeer(i, Verdict(last.value.outcome),
                  if last.value.reason.Some? then last.value.reason else peers[i].reason);
          EndKeeps(Here().(clock := clock), "");
          return Halt;
        }
        PollKeeps(job, s, i, before, pushedAt, polls, clock);
      }
      SetPeer(i, TimedOut, Some(TIMEOUT_REASON));
      return Halt;
    }

    /** `rolloutPeer`. When the rollout is to go on, the machine is at the next peer;
        when it is to stop, the machine has stopped. */
    method RolloutPeer(i: nat) returns (end: Ending)
      requires Faithful() && i < |peers| && !aborted && state.Running?
      requires run == Enter(Here(), i, clock)
      modifies `peers, `aborted, `clock, `answers, `run, `pushes
      ensures Faithful() && |peers| == |old(peers)| && Settled(i, end)
    {
      hide Execute, AtLeast, Advance, Next, Poll, Fresh, Stop, Caught;
      SetPeer(i, Pushing, peers[i].reason);
      ghost var was := Here();
      var before: Option<LastUpgrade>;
      if peers[i].entry.info.Some? {
        before := peers[i].entry.info.value.lastUpgrade;
      } else {
        var info := Hello();
        before := if info.None? then None else info.value.lastUpgrade;
        OnFirstHello(job, was.(aborted := aborted), i, info, clock);
      }
      var pushedAt := clock;
      pushes := pushes + [i];
      was := Here();
      assert run == was.(phase := AwaitingPush(i, before, pushedAt));
      var outcome := PushTo();
      ghost var s := was.(aborted := aborted, clock := clock);
      OnPushed(job, s, was.clock, i, before, pushedAt, outcome, clock);
      if outcome.Accepted? {
        SetPeer(i, Restarting, peers[i].reason);
        PollKeeps(job, Here().(clock := clock), i, before, pushedAt, 0, clock);
        end := AwaitPeer(i, before, pushedAt);
      } else {
        SkipPeer(i, outcome);
        AdvanceKeeps(Here().(clock := clock), i + 1, clock);
        end := Proceed;
      }
    }

    method MarkStopped(abort: bool)
      modifies `state, `self
      ensures Here() == (if abort then StopAborted(old(Here())) else Stop(old(Here()).(aborted := false)).(aborted := aborted)).(phase := Between)
    {
      state := Stopped;
      if abort { self := self.(reason := Some(ABORTED_REASON)); }
    }

    /** `run` with the catch handler of `start`: it ends as the machine does on the same
        answers. */
    method RunAll()
      requires Faithful() && state.Running? && run == Advance(Here(), 0, clock)
      modifies this
      ensures Faithful() && run.phase.Ended? && Here() == run.(phase := Between)
    {
      hide Execute, Advance;
      var i := 0;
      while i < |peers|
        invariant 0 <= i <= |peers| && Faithful() && state.Running? && run == Advance(Here(), i, clock)
      {
        AdvanceUnfolds(Here(), i, clock);
        if peers[i].state.Unreachable? {
          i := i + 1;
          continue;
        }
        if aborted {
          MarkStopped(true);
          return;
        }
        var end := RolloutPeer(i);
        match end
        case Proceed => i := i + 1;
        case Halt =>
          MarkStopped(aborted);
          return;
        case Threw(message) =>
          var k := FirstActive(peers);
          if k < |peers| {
            SetPeer(k, Failed, Some(message));
          } else {
            self := self.(reason := Some(message));
          }
          state := Stopped;
          return;
      }
      AdvanceUnfolds(Here(), i, clock);
      if aborted {
        MarkStopped(true);
        return;
      }
      if self.state != SelfPending {
        state := Done;
        return;
      }
      selfCalls := selfCalls + 1;
      var failure := UpgradeSelf();
      if failure.None? {
        self := self.(state := SelfRestarting);
      } else {
        self := SelfStatus(SelfRefused, failure);
        state := Done;
      }
    }
  }

  // ---- What the machine does with each answer ------------------------------

  lemma OnFirstHello(job: Job, s: Run, i: nat, info: Option<NodeInfo>, now: int)
    ensures Next(job, s.(phase := AskingBefore(i)), Said(info, now)) ==
            Push(s.(clock := now), i, if info.None? then None else info.value.lastUpgrade, now)
  {}

  lemma OnPushed(job: Job, s: Run, read: int, i: nat, before: Option<LastUpgrade>, pushedAt: int, outcome: PushOutcome, now: int)
    requires i < |s.status.peers| && s.clock == now && s.phase.Between?
    ensures Next(job, s.(phase := AwaitingPush(i, before, pushedAt), clock := read), PushAnswered(outcome, now)) ==
            AfterPush(job, s, i, before, pushedAt, outcome, now)
  {
    hide AfterPush;
    var r := s.(phase := AwaitingPush(i, before, pushedAt), clock := read);
    assert Idle(r, PushAnswered(outcome, now)) == s;
  }

  lemma OnWaking(job: Job, s: Run, i: nat, before: Option<LastUpgrade>, pushedAt: int, polls: nat, thrown: Option<string>)
    requires s.phase.Between?
    ensures var e := if thrown.Some? then SleepFailed(thrown.value) else Woke;
      Next(job, s.(phase := Sleeping(i, before, pushedAt, polls)), e) ==
      if thrown.Some? then Caught(s, thrown.value)
      else if s.aborted then Stop(s)
      else s.(phase := Checking(i, before, pushedAt, polls + 1))
  {
    hide Caught;
    var r := s.(phase := Sleeping(i, before, pushedAt, polls));
    assert Idle(r, Woke) == s && forall message :: Idle(r, SleepFailed(message)) == s;
  }

  lemma OnHello(job: Job, s: Run, read: int, at: Phase, info: Option<NodeInfo>, now: int)
    requires at.Checking? && at.peer < |s.status.peers| && s.clock == now && s.phase.Between?
    ensures var last := if info.None? then None else info.value.lastUpgrade;
      Next(job, s.(phase := at, clock := read), Said(info, now)) ==
      if info.Some? && AtLeast(info.value.version, s.status.target)
      then Advance(Mark(s, at.peer, Succeeded, s.status.peers[at.peer].reason), at.peer + 1, now)
      else if Fresh(last, at.before, s.status.target)
      then Stop(Mark(s, at.peer, Verdict(last.value.outcome),
                     if last.value.reason.Some? then last.value.reason else s.status.peers[at.peer].reason))
      else Poll(job, s, at.peer, at.before, at.pushedAt, at.polls, now)
  {
    hide Advance, AtLeast, Poll, Stop;
    assert Idle(s.(phase := at, clock := read), Said(info, now)) == s;
  }

  lemma IsVerdict(last: Option<LastUpgrade>, before: Option<LastUpgrade>, target: Release)
    requires Fresh(last, before, target)
    ensures last.Some?
  {}

  lemma EndKeeps(s: Run, message: string)
    ensures Stop(s).clock == s.clock && Caught(s, message).clock == s.clock
  {}

  lemma PollKeeps(job: Job, s: Run, i: nat, before: Option<LastUpgrade>, pushedAt: int, polls: nat, now: int)
    ensures Poll(job, s, i, before, pushedAt, polls, now).clock == s.clock
  {}

  lemma AdvanceUnfolds(s: Run, i: nat, now: int)
    requires i <= |s.status.peers|
    ensures Advance(s, i, now) ==
            if i == |s.status.peers| then Finale(s)
            else if s.status.peers[i].state.Unreachable? then Advance(s, i + 1, now)
            else if s.aborted then StopAborted(s) else Enter(s, i, now)
  {}
}
