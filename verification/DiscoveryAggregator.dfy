/** The aggregator as the object it is, each method proved against `Aggregators`. */
module DiscoveryAggregators {
  import opened Basics
  import opened KnownNodes
  import opened OrderedMaps
  import opened Aggregators

  datatype Lifecycle = New | Started | Stopped

  class DiscoveryAggregator {
    var entries: Slots
    var lastQueued: map<DeviceId, KnownNode>
    var lifecycle: Lifecycle
    var mdns: bool             // the channel is held
    var udp: bool
    var udpPort: Option<nat>   // bound
    ghost var writes: seq<KnownNode>

    ghost function State(): Table
      reads this
    {
      Table(entries, lastQueued, writes)
    }

    /** No channel is held before the start or after the stop. */
    predicate Quiet()
      reads this
    {
      (udpPort.Some? ==> udp) && (!lifecycle.Started? ==> !mdns && !udp)
    }

    constructor ()
      ensures State() == Aggregators.EMPTY && lifecycle == New && Quiet()
    {
      entries, lastQueued, lifecycle, writes := [], map[], New, [];
      mdns, udp, udpPort := false, false, None;
    }

    method EvictOldest()
      requires entries != []
      modifies this`entries, this`lastQueued
      ensures State() == EvictOldestSlot(old(State()))
    {
      var oldest := 0;
      for i := 1 to |entries|
        invariant oldest < i
        invariant forall k :: 0 <= k < i ==> entries[oldest].candidate.lastSeenAt <= entries[k].candidate.lastSeenAt
        invariant forall k :: 0 <= k < oldest ==> entries[oldest].candidate.lastSeenAt < entries[k].candidate.lastSeenAt
      {
        if entries[i].candidate.lastSeenAt < entries[oldest].candidate.lastSeenAt {
          oldest := i;
        }
      }
      var gone := entries[oldest].candidate.deviceId;
      entries := RemoveAt(entries, oldest);
      if gone.Some? {
        lastQueued := lastQueued - {gone.value};
      }
    }

    method QueueFor(id: DeviceId, c: Candidate)
      modifies this`lastQueued, this`writes
      ensures State() == QueueRecord(old(State()), id, c)
    {
      var node := ToNode(id, c);
      if id in lastQueued && NearlySame(lastQueued[id], node) {
        return;
      }
      lastQueued := lastQueued[id := node];
      writes := writes + [node];
    }

    /** Whether an identified entry stands at an endpoint. */
    method Shadowed(host: string, port: nat) returns (found: bool)
      ensures found == IdentifiedAt(entries, host, port)
    {
      for i := 0 to |entries|
        invariant forall k :: 0 <= k < i ==>
          !(entries[k].candidate.deviceId.Some? && entries[k].candidate.host == host && entries[k].candidate.port == port)
      {
        var entry := entries[i].candidate;
        if entry.deviceId.Some? && entry.host == host && entry.port == port {
          return true;
        }
      }
      return false;
    }

    /** Nothing is taken in before the start or after the stop. */
    method IngestSighting(c: Candidate, persist: bool)
      modifies this`entries, this`lastQueued, this`writes
      ensures State() == if old(lifecycle).Started? then Ingest(old(State()), c, persist) else old(State())
    {
      hide TrimSlots, EvictOldestSlot, At, QueueRecord, IdentifiedAt, RemoveAt;
      if lifecycle != Started {
        return;
      }
      var key := KeyOf(c);
      if c.deviceId.None? {
        var shadowed := Shadowed(c.host, c.port);
        if shadowed {
          return;
        }
      }
      var existing := Lookup(entries, key);
      if existing.Some? && c.lastSeenAt < existing.value.lastSeenAt {
        return;
      }
      if c.deviceId.Some? {
        entries := Delete(entries, Endpoint(c.host, c.port));
      }
      var merged := Merged(c, existing);
      entries := Put(entries, key, merged);
      ghost var inserted := State();
      assert inserted == Inserted(old(State()), c);
      while |entries| > MAX_KNOWN_NODES
        invariant TrimSlots(State()) == TrimSlots(inserted)
      {
        TrimOnce(State());
        EvictOldest();
      }
      TrimDone(State());
      if persist && merged.deviceId.Some? {
        QueueFor(merged.deviceId.value, merged);
      }
    }

    /** The registry's nodes are seeded, each clamped to the clock as then read and not
        written back; then the configured nodes are sighted; then the channels are opened,
        up to the wait for the UDP port. There is no second start. */
    method Start(nodes: seq<KnownNode>, statics: seq<StaticNode>, clock: nat -> int, mdnsEnabled: bool, udpEnabled: bool)
      returns (accepted: bool)
      requires Quiet()
      modifies this
      ensures Quiet() && accepted == old(lifecycle).New?
      ensures !accepted ==> unchanged(this)
      ensures accepted ==> lifecycle.Started? && mdns == mdnsEnabled && udp == udpEnabled && udpPort.None?
      ensures accepted ==>
        State() == Aggregators.Run(old(State()), Seeds(nodes, clock) + Sights(StaticCandidates(statics, clock(|nodes|))))
    {
      hide Ingest;
      if !lifecycle.New? {
        return false;
      }
      lifecycle := Started;
      for i := 0 to |nodes|
        invariant lifecycle.Started? && unchanged(`mdns) && unchanged(`udp) && unchanged(`udpPort)
        invariant State() == Aggregators.Run(old(State()), Seeds(nodes[..i], clock))
      {
        lastQueued := lastQueued[nodes[i].deviceId := nodes[i]];
        IngestSighting(SeedCandidate(nodes[i], clock(i)), false);
        SeedsStep(nodes, i, clock);
      }
      assert nodes[..|nodes|] == nodes;
      SightAll(StaticCandidates(statics, clock(|nodes|)));
      RunConcat(old(State()), Seeds(nodes, clock), Sights(StaticCandidates(statics, clock(|nodes|))));
      mdns, udp := mdnsEnabled, udpEnabled;
      return true;
    }

    method SightAll(cs: seq<Candidate>)
      requires lifecycle.Started?
      modifies this`entries, this`lastQueued, this`writes
      ensures State() == Aggregators.Run(old(State()), Sights(cs))
    {
      hide Ingest;
      for i := 0 to |cs|
        invariant State() == Aggregators.Run(old(State()), Sights(cs[..i]))
      {
        IngestSighting(cs[i], true);
        SightsStep(cs, i);
      }
      assert cs[..|cs|] == cs;
    }

    /** The UDP port is bound; a stop may have come in between. */
    method UdpBound(port: nat)
      requires Quiet()
      modifies this`udpPort
      ensures Quiet() && udpPort == if udp then Some(port) else old(udpPort)
    {
      if lifecycle.Started? && udp {
        udpPort := Some(port);
      }
    }

    /** Idempotent; afterwards no channel is held and nothing more is taken in. */
    method Stop()
      requires Quiet()
      modifies this
      ensures Quiet() && lifecycle.Stopped? && !mdns && !udp && udpPort.None? && State() == old(State())
      ensures old(lifecycle).Stopped? ==> unchanged(this)
    {
      if lifecycle.Stopped? {
        return;
      }
      lifecycle := Stopped;
      mdns, udp, udpPort := false, false, None;
    }
  }

  datatype StaticNode = StaticNode(host: string, port: nat, expectedDeviceId: Option<DeviceId>)

  function StaticCandidates(nodes: seq<StaticNode>, now: int): seq<Candidate> {
    seq(|nodes|, i requires 0 <= i < |nodes| =>
      Candidate(nodes[i].expectedDeviceId, None, nodes[i].host, nodes[i].port, "static", now))
  }

  function Seeds(nodes: seq<KnownNode>, clock: nat -> int): seq<Aggregators.Step> {
    if nodes == [] then [] else Seeds(Init(nodes), clock) + [Seed(Last(nodes), clock(|nodes| - 1))]
  }

  lemma SeedsStep(nodes: seq<KnownNode>, i: nat, clock: nat -> int)
    requires i < |nodes|
    ensures var steps := Seeds(nodes[..i + 1], clock);
      steps != [] && Init(steps) == Seeds(nodes[..i], clock) && Last(steps) == Seed(nodes[i], clock(i))
  {
    assert Init(nodes[..i + 1]) == nodes[..i];
  }

  lemma SightsStep(cs: seq<Candidate>, i: nat)
    requires i < |cs|
    ensures var steps := Sights(cs[..i + 1]);
      steps != [] && Init(steps) == Sights(cs[..i]) && Last(steps) == Sight(cs[i])
  {
    assert Init(cs[..i + 1]) == cs[..i];
  }

  lemma {:induction false} RunConcat(t: Table, before: seq<Aggregators.Step>, after: seq<Aggregators.Step>)
    ensures Aggregators.Run(t, before + after) == Aggregators.Run(Aggregators.Run(t, before), after)
  {
    hide Aggregators.Apply;
    if after == [] {
      assert before + after == before;
    } else {
      RunConcat(t, before, Init(after));
      assert Init(before + after) == before + Init(after);
    }
  }

  lemma TrimOnce(t: Table)
    requires |t.entries| > MAX_KNOWN_NODES
    ensures TrimSlots(t) == TrimSlots(EvictOldestSlot(t)) && |EvictOldestSlot(t).entries| < |t.entries|
  {}

  lemma TrimDone(t: Table)
    requires |t.entries| <= MAX_KNOWN_NODES
    ensures TrimSlots(t) == t
  {}
}
