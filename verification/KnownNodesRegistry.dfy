/** The registry as the object it is; each method is one step of `KnownNodes`. */
module KnownNodesRegistries {
  import opened Basics
  import opened DurableStore
  import opened KnownNodes
  import opened OrderedMaps

  class KnownNodesRegistry {
    var entries: Nodes
    var file: Nodes
    var phase: Phase
    var pending: Option<seq<Caller>>
    var tempCounter: nat
    // The run so far.
    ghost var trail: Trail<Nodes>
    ghost var version: nat
    ghost var begun: nat
    ghost var ended: nat
    ghost var lastOk: bool

    ghost function State(): Registry
      reads this
    {
      Registry(entries, file, phase, pending, tempCounter, trail, version, begun, ended, lastOk)
    }

    ghost predicate Valid()
      reads this
    {
      Inv(State()) && UniqueIds(entries)
    }

    constructor (content: Nodes)
      requires UniqueIds(content)
      ensures Valid() && State() == Load(content)
    {
      entries, file, phase, pending, tempCounter := content, content, Idle, None, 0;
      trail, version, begun, ended, lastOk := Loaded(content), 0, 0, 0, true;
    }

    /** Scans for the first entry with the least `lastSeenAt` and drops it. */
    method EvictOldest()
      requires entries != []
      modifies this`entries
      ensures entries == RemoveAt(old(entries), Oldest(old(entries)))
    {
      var oldest, i := 0, 1;
      while i < |entries|
        invariant 1 <= i <= |entries| && oldest == Oldest(entries[..i])
      {
        assert Init(entries[..i + 1]) == entries[..i];
        if entries[i].lastSeenAt < entries[oldest].lastSeenAt {
          oldest := i;
        }
        i := i + 1;
      }
      assert entries[..|entries|] == entries;
      entries := entries[..oldest] + entries[oldest + 1..];
    }

    method PersistFor(caller: Caller)
      modifies this`phase, this`pending, this`begun
      ensures State() == Persist(old(State()), caller)
    {
      if phase.Idle? {
        phase := Creating([caller]);
        begun := begun + 1;
        return;
      }
      if pending.None? {
        pending := Some([]);
      }
      pending := Some(pending.value + [caller]);
    }

    /** Sets the entry, then evicts while the table is over its cap. */
    method Insert(node: KnownNode)
      modifies this`entries
      ensures entries == Trim(Set(old(entries), node))
    {
      entries := Set(entries, node);
      while |entries| > MAX_KNOWN_NODES
        invariant Trim(entries) == Trim(Set(old(entries), node))
        decreases |entries|
      {
        EvictOldest();
      }
    }

    /** Returns false when the sighting does not validate. */
    method Record(caller: Caller, node: KnownNode, valid: bool) returns (accepted: bool)
      requires Valid() && caller !in trail.calls
      modifies this
      ensures Valid() && accepted == valid && State() == Apply(old(State()), Step.Record(caller, node, valid))
      ensures accepted ==> |entries| <= MAX_KNOWN_NODES && Recorded(old(entries), entries, node)
      ensures !accepted ==> entries == old(entries)
    {
      StepKeepsInv(State(), Step.Record(caller, node, valid));
      RecordBounded(State(), caller, node);
      RecordDoes(entries, node);
      hide Inv, Trim, Set, Recorded;
      if !valid {
        return false;
      }
      Insert(node);
      trail := Moved(trail, Mutate(caller, entries));
      PersistFor(caller);
      return true;
    }

    method Forget(caller: Caller, id: DeviceId) returns (removed: bool)
      requires Valid() && caller !in trail.calls
      modifies this
      ensures Valid() && State() == Apply(old(State()), Remove(caller, id))
      ensures removed <==> Known(old(entries), id)
      ensures TakenOut(old(entries), entries, id)
    {
      hide Inv;
      StepKeepsInv(State(), Remove(caller, id));
      RemoveDoes(entries, id);
      var i := Find(entries, id);
      if i == |entries| {
        return false;
      }
      RemoveAtMembers(entries, i);
      entries := RemoveAt(entries, i);
      trail := Moved(trail, Mutate(caller, entries));
      PersistFor(caller);
      return true;
    }

    /** `mkdir` has succeeded: the snapshot is taken there and then. */
    method DirectoryCreated()
      requires Valid() && phase.Creating?
      modifies this
      ensures Valid() && State() == Apply(old(State()), DirectoryReady)
    {
      hide Inv;
      InvSound(State());
      StepKeepsInv(State(), DirectoryReady);
      tempCounter := tempCounter + 1;
      phase := Saving(phase.waiters, entries);
      version := |trail.history| - 1;
    }

    method DirectoryRefused()
      requires Valid() && phase.Creating?
      modifies this
      ensures Valid() && State() == Apply(old(State()), DirectoryFailed)
    {
      hide Inv, Answered;
      InvSound(State());
      StepKeepsInv(State(), DirectoryFailed);
      trail := Moved(trail, Move.Fail(|trail.history| - 1));
      Settle(false);
    }

    /** The rename has landed. */
    method Renamed()
      requires Valid() && phase.Saving?
      modifies this
      ensures Valid() && State() == Apply(old(State()), SaveDone)
    {
      hide Inv, Answered;
      StepKeepsInv(State(), SaveDone);
      file := phase.content;
      trail := Moved(trail, Commit(version));
      Settle(true);
    }

    /** The temp file could not be written or renamed. */
    method WriteRefused()
      requires Valid() && phase.Saving?
      modifies this
      ensures Valid() && State() == Apply(old(State()), SaveFailed)
    {
      hide Inv, Answered;
      StepKeepsInv(State(), SaveFailed);
      trail := Moved(trail, Move.Fail(version));
      Settle(false);
    }

    method Settle(ok: bool)
      requires phase.Creating? || phase.Saving?
      modifies this`phase, this`trail, this`ended, this`lastOk
      ensures State() == Answer(old(State()), old(phase.waiters), ok)
    {
      trail := trail.(answers := Answered(trail.answers, phase.waiters, ok));
      ended := ended + 1;
      lastOk := ok;
      phase := Settled;
    }

    /** The bookkeeping behind a settled write. */
    method PromoteFollowUp()
      requires Valid() && phase.Settled?
      modifies this
      ensures Valid() && State() == Apply(old(State()), Promote)
    {
      hide Inv;
      StepKeepsInv(State(), Promote);
      phase := if pending.None? then Idle else Chained(pending.value);
      pending := None;
    }

    method RunFollowUp()
      requires Valid() && phase.Chained?
      modifies this
      ensures Valid() && State() == Apply(old(State()), StartFollowUp)
    {
      hide Inv;
      StepKeepsInv(State(), StartFollowUp);
      phase := Creating(phase.waiters);
      begun := begun + 1;
    }
  }
}
