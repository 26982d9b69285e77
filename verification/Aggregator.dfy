/** Discovery: sightings from every channel merged into one bounded set of candidates,
    and the bounded stream of writes to the known-nodes registry that follows. */
module Aggregators {
  import opened Basics
  import U = Utf8
  import opened Numerals
  import opened KnownNodes
  import opened OrderedMaps

  datatype Candidate = Candidate(
    deviceId: Option<DeviceId>,
    name: Option<string>,
    host: string,
    port: nat,
    source: string,
    lastSeenAt: int)

  /** The program's keys are strings; see `EndpointKeysAreInjective`. */
  datatype Key = Device(id: DeviceId) | Endpoint(host: string, port: nat)

  datatype Slot = Slot(key: Key, candidate: Candidate)

  type Slots = seq<Slot>

  const LAST_SEEN_PERSIST_THRESHOLD_MS := 60_000

  function KeyOf(c: Candidate): Key {
    if c.deviceId.Some? then Device(c.deviceId.value) else Endpoint(c.host, c.port)
  }

  // ---- The entries ---------------------------------------------------------

  function At(slots: Slots, key: Key): (i: nat)
    ensures i <= |slots| && (i < |slots| ==> slots[i].key == key)
    ensures forall k :: 0 <= k < i ==> slots[k].key != key
  {
    IndexOf(slots, (s: Slot) => s.key, key)
  }

  function Lookup(slots: Slots, key: Key): Option<Candidate> {
    var i := At(slots, key);
    if i < |slots| then Some(slots[i].candidate) else None
  }

  function Put(slots: Slots, key: Key, c: Candidate): Slots {
    Assign(slots, (s: Slot) => s.key, Slot(key, c))
  }

  function Delete(slots: Slots, key: Key): Slots {
    var i := At(slots, key);
    if i < |slots| then RemoveAt(slots, i) else slots
  }

  function OldestSlot(slots: Slots): (i: nat)
    requires slots != []
    ensures i < |slots|
    ensures forall k :: 0 <= k < |slots| ==> slots[i].candidate.lastSeenAt <= slots[k].candidate.lastSeenAt
    ensures forall k :: 0 <= k < i ==> slots[i].candidate.lastSeenAt < slots[k].candidate.lastSeenAt
  {
    FirstOldest(slots, (s: Slot) => s.candidate.lastSeenAt)
  }

  // ---- The aggregator ------------------------------------------------------

  /** `writes` is the history of `knownNodes.record` calls. */
  datatype Table = Table(entries: Slots, lastQueued: map<DeviceId, KnownNode>, writes: seq<KnownNode>)

  const EMPTY := Table([], map[], [])

  function SeedCandidate(node: KnownNode, now: int): Candidate {
    Candidate(Some(node.deviceId), node.name, node.host, node.port, node.source, Min(node.lastSeenAt, now))
  }

  predicate SameExceptLastSeen(a: KnownNode, b: KnownNode) {
    a.deviceId == b.deviceId && a.name == b.name && a.host == b.host && a.port == b.port && a.source == b.source
  }

  predicate NearlySame(a: KnownNode, b: KnownNode) {
    SameExceptLastSeen(a, b) && -LAST_SEEN_PERSIST_THRESHOLD_MS < a.lastSeenAt - b.lastSeenAt < LAST_SEEN_PERSIST_THRESHOLD_MS
  }

  function ToNode(id: DeviceId, c: Candidate): KnownNode {
    KnownNode(id, c.name, c.host, c.port, c.lastSeenAt, c.source)
  }

  function Merged(c: Candidate, existing: Option<Candidate>): Candidate {
    if existing.None? then c
    else c.(deviceId := if c.deviceId.Some? then c.deviceId else existing.value.deviceId,
            name := if c.name.Some? then c.name else existing.value.name)
  }

  predicate IdentifiedAt(slots: Slots, host: string, port: nat) {
    exists i :: 0 <= i < |slots| && slots[i].candidate.deviceId.Some? &&
                slots[i].candidate.host == host && slots[i].candidate.port == port
  }

  /** The sighting is dropped: stale, or shadowed by an identified node there. */
  predicate Ignored(t: Table, c: Candidate) {
    var existing := Lookup(t.entries, KeyOf(c));
    (existing.Some? && c.lastSeenAt < existing.value.lastSeenAt) ||
    (c.deviceId.None? && IdentifiedAt(t.entries, c.host, c.port))
  }

  function EvictOldestSlot(t: Table): Table
    requires t.entries != []
  {
    var i := OldestSlot(t.entries);
    var gone := t.entries[i].candidate.deviceId;
    t.(entries := RemoveAt(t.entries, i), lastQueued := if gone.Some? then t.lastQueued - {gone.value} else t.lastQueued)
  }

  function TrimSlots(t: Table): Table
    decreases |t.entries|
  {
    if |t.entries| <= MAX_KNOWN_NODES then t else TrimSlots(EvictOldestSlot(t))
  }

  function QueueRecord(t: Table, id: DeviceId, c: Candidate): Table {
    var node := ToNode(id, c);
    if id in t.lastQueued && NearlySame(t.lastQueued[id], node) then t
    else t.(lastQueued := t.lastQueued[id := node], writes := t.writes + [node])
  }

  /** The entries once an accepted sighting is in, before any eviction. */
  function Inserted(t: Table, c: Candidate): Table {
    var existing := Lookup(t.entries, KeyOf(c));
    var absorbed := if c.deviceId.Some? then Delete(t.entries, Endpoint(c.host, c.port)) else t.entries;
    t.(entries := Put(absorbed, KeyOf(c), Merged(c, existing)))
  }

  function Ingest(t: Table, c: Candidate, persist: bool): Table {
    if Ignored(t, c) then t
    else
      var merged := Merged(c, Lookup(t.entries, KeyOf(c)));
      var kept := TrimSlots(Inserted(t, c));
      if persist && merged.deviceId.Some? then QueueRecord(kept, merged.deviceId.value, merged) else kept
  }

  datatype Step = Seed(node: KnownNode, now: int) | Sight(candidate: Candidate)

  function Apply(t: Table, step: Step): Table {
    match step
    case Seed(node, now) =>
      Ingest(t.(lastQueued := t.lastQueued[node.deviceId := node]), SeedCandidate(node, now), false)
    case Sight(c) => Ingest(t, c, true)
  }

  function Run(t: Table, steps: seq<Step>): Table {
    if steps == [] then t else Apply(Run(t, Init(steps)), Last(steps))
  }

  // ---- Invariant -----------------------------------------------------------

  ghost predicate UniqueKeys(slots: Slots) {
    forall i, j :: 0 <= i < j < |slots| ==> slots[i].key != slots[j].key
  }

  predicate UnderOwnKey(slots: Slots) {
    forall i :: 0 <= i < |slots| ==> slots[i].key == KeyOf(slots[i].candidate)
  }

  /** No anonymous entry stands where an identified one does. */
  predicate NoShadow(slots: Slots) {
    forall i, j :: 0 <= i < |slots| && 0 <= j < |slots| ==> !Shadows(slots[i].candidate, slots[j].candidate)
  }

  predicate Shadows(a: Candidate, b: Candidate) {
    a.deviceId.None? && b.deviceId.Some? && a.host == b.host && a.port == b.port
  }

  ghost predicate SlotsOk(slots: Slots) { UniqueKeys(slots) && UnderOwnKey(slots) && NoShadow(slots) }

  ghost predicate Inv(t: Table) { SlotsOk(t.entries) && |t.entries| <= MAX_KNOWN_NODES }

  lemma LookupIff(slots: Slots, key: Key)
    ensures Lookup(slots, key).Some? <==> exists i :: 0 <= i < |slots| && slots[i].key == key
    ensures UniqueKeys(slots) ==>
      forall i :: 0 <= i < |slots| && slots[i].key == key ==> Lookup(slots, key) == Some(slots[i].candidate)
  {}

  lemma DropOk(slots: Slots, i: nat)
    requires SlotsOk(slots) && i < |slots|
    ensures SlotsOk(RemoveAt(slots, i))
    ensures forall k :: k in RemoveAt(slots, i) <==> k in slots && k != slots[i]
  {
    var rest := RemoveAt(slots, i);
    assert forall k :: 0 <= k < |rest| ==> rest[k] == if k < i then slots[k] else slots[k + 1];
    assert slots == slots[..i] + [slots[i]] + slots[i + 1..];
  }

  lemma LookupMember(slots: Slots, key: Key, c: Candidate)
    requires SlotsOk(slots)
    ensures Lookup(slots, key) == Some(c) <==> Slot(key, c) in slots
  {
    LookupIff(slots, key);
  }

  lemma LookupKey(slots: Slots, key: Key)
    requires SlotsOk(slots)
    ensures Lookup(slots, key).Some? ==> KeyOf(Lookup(slots, key).value) == key
  {}

  lemma PutOk(slots: Slots, c: Candidate)
    requires SlotsOk(slots)
    requires forall s :: s in slots && s.key != KeyOf(c) ==> !Shadows(c, s.candidate) && !Shadows(s.candidate, c)
    ensures SlotsOk(Put(slots, KeyOf(c), c))
    ensures forall s :: s in Put(slots, KeyOf(c), c) <==> s == Slot(KeyOf(c), c) || (s in slots && s.key != KeyOf(c))
  {
    hide Shadows;
    var key := KeyOf(c);
    var i, next := At(slots, key), Put(slots, key, c);
    assert next[i] == Slot(key, c);
    assert forall k :: 0 <= k < |next| && k != i ==> next[k] == slots[k] && slots[k] in slots && slots[k].key != key;
    forall a, b | 0 <= a < |next| && 0 <= b < |next|
      ensures !Shadows(next[a].candidate, next[b].candidate)
    {
      if a == b { ShadowNotSelf(next[a].candidate); }
    }
  }

  lemma ShadowNotSelf(c: Candidate)
    ensures !Shadows(c, c)
  {}

  lemma DeleteOk(slots: Slots, key: Key)
    requires SlotsOk(slots)
    ensures SlotsOk(Delete(slots, key))
    ensures forall s :: s in Delete(slots, key) <==> s in slots && s.key != key
  {
    var i := At(slots, key);
    if i < |slots| { DropOk(slots, i); }
  }

  /** Merging changes neither where a sighting belongs nor where it was seen. */
  lemma MergedKey(t: Table, c: Candidate)
    requires SlotsOk(t.entries)
    ensures var merged := Merged(c, Lookup(t.entries, KeyOf(c)));
      KeyOf(merged) == KeyOf(c) && merged.deviceId == c.deviceId && merged.host == c.host && merged.port == c.port &&
      merged.source == c.source && merged.lastSeenAt == c.lastSeenAt
  {
    LookupKey(t.entries, KeyOf(c));
  }

  /** An entry that an accepted sighting neither replaces nor absorbs. */
  predicate Untouched(t: Table, c: Candidate, s: Slot) {
    s in t.entries && s.key != KeyOf(c) && !(c.deviceId.Some? && s.key == Endpoint(c.host, c.port))
  }

  /** An accepted sighting is the entry under its key; the other entries are as they were,
      but for an anonymous one it absorbs. */
  lemma InsertedOk(t: Table, c: Candidate)
    requires Inv(t) && !Ignored(t, c)
    ensures var merged := Merged(c, Lookup(t.entries, KeyOf(c)));
      SlotsOk(Inserted(t, c).entries) && |Inserted(t, c).entries| <= |t.entries| + 1 &&
      (forall s :: s in Inserted(t, c).entries <==> (s == Slot(KeyOf(c), merged) || Untouched(t, c, s)))
  {
    var merged := Merged(c, Lookup(t.entries, KeyOf(c)));
    MergedKey(t, c);
    hide Merged;
    if c.deviceId.Some? {
      var absorbed := Delete(t.entries, Endpoint(c.host, c.port));
      DeleteOk(t.entries, Endpoint(c.host, c.port));
      PutOk(absorbed, merged);
    } else {
      PutOk(t.entries, merged);
    }
  }

  lemma EvictOk(t: Table)
    requires SlotsOk(t.entries) && t.entries != []
    ensures SlotsOk(EvictOldestSlot(t).entries) && |EvictOldestSlot(t).entries| == |t.entries| - 1
    ensures forall s :: s in EvictOldestSlot(t).entries ==> s in t.entries
  {
    DropOk(t.entries, OldestSlot(t.entries));
  }

  lemma {:induction false} TrimOk(t: Table)
    requires SlotsOk(t.entries)
    ensures SlotsOk(TrimSlots(t).entries) && |TrimSlots(t).entries| == Min(|t.entries|, MAX_KNOWN_NODES)
    ensures forall s :: s in TrimSlots(t).entries ==> s in t.entries
    decreases |t.entries|
  {
    if |t.entries| > MAX_KNOWN_NODES {
      EvictOk(t);
      TrimOk(EvictOldestSlot(t));
    }
  }

  lemma IngestKeepsInv(t: Table, c: Candidate, persist: bool)
    requires Inv(t)
    ensures Inv(Ingest(t, c, persist))
  {
    if !Ignored(t, c) {
      InsertedOk(t, c);
      TrimOk(Inserted(t, c));
    }
  }

  /** What an accepted sighting does to any key: its own now holds the merged sighting,
      any other is as before; or the key has been evicted. */
  lemma IngestLookup(t: Table, c: Candidate, persist: bool, key: Key)
    requires Inv(t) && !Ignored(t, c)
    ensures var was, now := Lookup(t.entries, key), Lookup(Ingest(t, c, persist).entries, key);
      now.Some? ==> now == if key == KeyOf(c) then Some(Merged(c, was)) else was
    ensures key == KeyOf(c) && Lookup(Ingest(t, c, persist).entries, key).Some? ==>
      Refreshed(c, Lookup(t.entries, key), Lookup(Ingest(t, c, persist).entries, key).value)
  {
    MergedIsRefreshed(t, c);
    InsertedOk(t, c);
    TrimOk(Inserted(t, c));
    var merged := Merged(c, Lookup(t.entries, KeyOf(c)));
    var now := Ingest(t, c, persist).entries;
    assert now == TrimSlots(Inserted(t, c)).entries;
    hide Ingest, Inserted, TrimSlots, Merged, Ignored;
    if Lookup(now, key).Some? {
      LookupMember(now, key, Lookup(now, key).value);
      LookupMember(t.entries, key, Lookup(now, key).value);
    }
  }

  // ---- Main results --------------------------------------------------------

  /** Over any sightings at all: each entry is under its own key, no anonymous entry
      shares an endpoint with an identified one, and the cap holds. */
  lemma {:induction false} RunKeepsInv(steps: seq<Step>)
    ensures Inv(Run(EMPTY, steps))
  {
    hide Inv, Ingest;
    if steps == [] {
      EmptyInv();
    } else {
      RunKeepsInv(Init(steps));
      var before := Run(EMPTY, Init(steps));
      match Last(steps)
      case Seed(node, now) =>
        SameEntries(before, before.(lastQueued := before.lastQueued[node.deviceId := node]));
        IngestKeepsInv(before.(lastQueued := before.lastQueued[node.deviceId := node]), SeedCandidate(node, now), false);
      case Sight(c) => IngestKeepsInv(before, c, true);
    }
  }

  lemma EmptyInv()
    ensures Inv(EMPTY)
  {}

  lemma SameEntries(t: Table, u: Table)
    requires Inv(t) && u.entries == t.entries
    ensures Inv(u)
  {}

  function SightingOf(step: Step): Candidate {
    match step case Seed(node, now) => SeedCandidate(node, now) case Sight(c) => c
  }

  /** The key is never evicted. */
  predicate Stays(t: Table, steps: seq<Step>, key: Key) {
    Lookup(Run(t, steps).entries, key).Some? && (steps == [] || Stays(t, Init(steps), key))
  }

  lemma StepLookup(t: Table, step: Step, key: Key)
    requires Inv(t)
    ensures var was, now, c := Lookup(t.entries, key), Lookup(Apply(t, step).entries, key), SightingOf(step);
      now.Some? ==> now == was || (key == KeyOf(c) && now == Some(Merged(c, was)))
  {
    hide Inv, Ingest, Merged;
    var c := SightingOf(step);
    var u := if step.Seed? then t.(lastQueued := t.lastQueued[step.node.deviceId := step.node]) else t;
    SameEntries(t, u);
    if !Ignored(u, c) {
      IngestLookup(u, c, step.Sight?, key);
    } else {
      IgnoredIsSame(u, c, step.Sight?);
    }
  }

  lemma IgnoredIsSame(t: Table, c: Candidate, persist: bool)
    requires Ignored(t, c)
    ensures Ingest(t, c, persist) == t
  {}

  /** A name once known is never lost to sightings that lack one. */
  lemma {:induction false} KnownNameSurvives(t: Table, steps: seq<Step>, key: Key)
    requires Inv(t) && Stays(t, steps, key) && Lookup(t.entries, key).Some? && Lookup(t.entries, key).value.name.Some?
    ensures Lookup(Run(t, steps).entries, key).value.name.Some?
    ensures Inv(Run(t, steps))
  {
    hide Inv, Ingest;
    if steps != [] {
      KnownNameSurvives(t, Init(steps), key);
      var before, step := Run(t, Init(steps)), Last(steps);
      StepLookup(before, step, key);
      var u := if step.Seed? then before.(lastQueued := before.lastQueued[step.node.deviceId := step.node]) else before;
      SameEntries(before, u);
      IngestKeepsInv(u, SightingOf(step), step.Sight?);
    }
  }

  // ---- What one sighting does ----------------------------------------------

  /** The key a sighting belongs under: its device, or its endpoint while that is unknown. */
  function PlaceOf(c: Candidate): Key {
    match c.deviceId case Some(id) => Device(id) case None => Endpoint(c.host, c.port)
  }

  /** Something fresher is known, or an identified node stands at its endpoint. */
  predicate Superseded(t: Table, c: Candidate) {
    (exists s :: s in t.entries && s.key == PlaceOf(c) && c.lastSeenAt < s.candidate.lastSeenAt) ||
    (c.deviceId.None? && exists s :: s in t.entries && s.candidate.deviceId.Some? && s.candidate.host == c.host && s.candidate.port == c.port)
  }

  lemma SupersededIsIgnored(t: Table, c: Candidate)
    requires Inv(t)
    ensures Superseded(t, c) <==> Ignored(t, c)
  {
    LookupIff(t.entries, PlaceOf(c));
    if IdentifiedAt(t.entries, c.host, c.port) {
      var i :| 0 <= i < |t.entries| && t.entries[i].candidate.deviceId.Some? &&
               t.entries[i].candidate.host == c.host && t.entries[i].candidate.port == c.port;
      assert t.entries[i] in t.entries;
    }
  }

  /** An entry with everything the sighting says, and with its old name if the sighting has
      none. */
  predicate Refreshed(c: Candidate, was: Option<Candidate>, now: Candidate) {
    now.deviceId == c.deviceId && now.host == c.host && now.port == c.port && now.source == c.source && now.lastSeenAt == c.lastSeenAt &&
    now.name == if c.name.Some? then c.name else if was.Some? then was.value.name else None
  }

  lemma {:induction false} TrimKeepsNewestSlots(t: Table)
    requires SlotsOk(t.entries)
    ensures forall s, k :: s in t.entries && s !in TrimSlots(t).entries && k in TrimSlots(t).entries ==>
      s.candidate.lastSeenAt <= k.candidate.lastSeenAt
    decreases |t.entries|
  {
    if |t.entries| > MAX_KNOWN_NODES {
      var n := EvictOldestSlot(t);
      EvictOk(t);
      DropOk(t.entries, OldestSlot(t.entries));
      TrimOk(n);
      TrimKeepsNewestSlots(n);
    }
  }

  /** Another entry is lost only to a full table, as one of the oldest, or absorbed. */
  lemma OthersStay(t: Table, c: Candidate, persist: bool, key: Key)
    requires Inv(t) && !Ignored(t, c) && key != KeyOf(c) && Lookup(t.entries, key).Some? && Lookup(Ingest(t, c, persist).entries, key).None?
    ensures var n, was := Ingest(t, c, persist), Lookup(t.entries, key).value;
      (c.deviceId.Some? && key == Endpoint(c.host, c.port)) ||
      (|n.entries| == MAX_KNOWN_NODES && forall k :: k in n.entries ==> was.lastSeenAt <= k.candidate.lastSeenAt)
  {
    var was, all := Lookup(t.entries, key).value, Inserted(t, c);
    InsertedOk(t, c);
    TrimOk(all);
    TrimKeepsNewestSlots(all);
    assert Ingest(t, c, persist).entries == TrimSlots(all).entries;
    hide Ingest, Inserted, TrimSlots, Ignored, Merged;
    LookupMember(t.entries, key, was);
    LookupMember(TrimSlots(all).entries, key, was);
    if !(c.deviceId.Some? && key == Endpoint(c.host, c.port)) {
      assert Untouched(t, c, Slot(key, was));
      if |TrimSlots(all).entries| < MAX_KNOWN_NODES { SmallStays(all); }
    }
  }

  lemma SmallStays(t: Table)
    requires SlotsOk(t.entries) && |TrimSlots(t).entries| < MAX_KNOWN_NODES
    ensures TrimSlots(t) == t
  {
    TrimOk(t);
  }

  /** A superseded sighting changes nothing. Any other is in the table with all it says,
      unless it is too old for a full one; and leaves the other entries alone, but for an
      anonymous one at its endpoint and for what the cap pushes out, oldest first. */
  lemma IngestIs(t: Table, c: Candidate, persist: bool)
    requires Inv(t)
    ensures var n := Ingest(t, c, persist);
      if Superseded(t, c) then n == t
      else
        (Lookup(n.entries, PlaceOf(c)).None? <==> TooOldForFullTable(t, c)) &&
        (Lookup(n.entries, PlaceOf(c)).Some? ==> Refreshed(c, Lookup(t.entries, PlaceOf(c)), Lookup(n.entries, PlaceOf(c)).value)) &&
        forall key :: key != PlaceOf(c) ==>
          (Lookup(n.entries, key).Some? ==> Lookup(n.entries, key) == Lookup(t.entries, key)) &&
          (Lookup(n.entries, key).None? && Lookup(t.entries, key).Some? ==>
            (c.deviceId.Some? && key == Endpoint(c.host, c.port)) ||
            (|n.entries| == MAX_KNOWN_NODES && forall k :: k in n.entries ==> Lookup(t.entries, key).value.lastSeenAt <= k.candidate.lastSeenAt))
  {
    SupersededIsIgnored(t, c);
    if Ignored(t, c) {
      IgnoredIsSame(t, c, persist);
    } else {
      NewcomerKept(t, c);
      assert Ingest(t, c, persist).entries == TrimSlots(Inserted(t, c)).entries;
      MergedIsRefreshed(t, c);
      hide Ingest, Inserted, TrimSlots, Ignored, Merged, Lookup, TooOldForFullTable, Refreshed, Inv, Superseded;
      assert PlaceOf(c) == KeyOf(c);
      IngestLookup(t, c, persist, PlaceOf(c));
      forall key | key != PlaceOf(c)
        ensures Lookup(Ingest(t, c, persist).entries, key).Some? ==> Lookup(Ingest(t, c, persist).entries, key) == Lookup(t.entries, key)
        ensures Lookup(Ingest(t, c, persist).entries, key).None? && Lookup(t.entries, key).Some? ==>
          (c.deviceId.Some? && key == Endpoint(c.host, c.port)) ||
          (|Ingest(t, c, persist).entries| == MAX_KNOWN_NODES &&
           forall k :: k in Ingest(t, c, persist).entries ==> Lookup(t.entries, key).value.lastSeenAt <= k.candidate.lastSeenAt)
      {
        IngestLookup(t, c, persist, key);
        if Lookup(Ingest(t, c, persist).entries, key).None? && Lookup(t.entries, key).Some? { OthersStay(t, c, persist, key); }
      }
    }
  }

  lemma MergedIsRefreshed(t: Table, c: Candidate)
    requires Inv(t)
    ensures Refreshed(c, Lookup(t.entries, KeyOf(c)), Merged(c, Lookup(t.entries, KeyOf(c))))
  {
    MergedKey(t, c);
  }

  /** The remembered record says the same but for less than a minute of time. */
  predicate Remembered(t: Table, node: KnownNode) {
    node.deviceId in t.lastQueued &&
    var was := t.lastQueued[node.deviceId];
    was == node.(lastSeenAt := was.lastSeenAt) && -60_000 < was.lastSeenAt - node.lastSeenAt < 60_000
  }

  /** A record is written for a sighting exactly if it is of an identified node, not
      superseded, and not what was last written but for less than a minute; it has the
      entry's fields, and is the one remembered from then on. A seed is never written. */
  lemma WritesIs(t: Table, c: Candidate, persist: bool)
    requires Inv(t)
    ensures var n := Ingest(t, c, persist);
      if Superseded(t, c) || c.deviceId.None? || !persist then n.writes == t.writes
      else
        var was := Lookup(t.entries, Device(c.deviceId.value));
        var name := if c.name.Some? then c.name else if was.Some? then was.value.name else None;
        var node := KnownNode(c.deviceId.value, name, c.host, c.port, c.lastSeenAt, c.source);
        if Remembered(t, node) && !TooOldForFullTable(t, c) then n.writes == t.writes
        else n.writes == t.writes + [node] && c.deviceId.value in n.lastQueued && n.lastQueued[c.deviceId.value] == node
  {
    SupersededIsIgnored(t, c);
    if Ignored(t, c) {
      IgnoredIsSame(t, c, persist);
    } else {
      MergedIsRefreshed(t, c);
      var all := Inserted(t, c);
      var kept, merged := TrimSlots(all), Merged(c, Lookup(t.entries, KeyOf(c)));
      TrimWrites(all);
      assert all.writes == t.writes && all.lastQueued == t.lastQueued;
      if c.deviceId.Some? && persist {
        OwnRecord(t, c);
        hide Inserted, TrimSlots, Ignored, Merged, Inv, TooOldForFullTable, Lookup;
        assert Ingest(t, c, persist) == QueueRecord(kept, c.deviceId.value, merged);
        assert PlaceOf(c) == KeyOf(c) == Device(c.deviceId.value);
        QueueRecordIs(kept, c.deviceId.value, merged);
      }
    }
  }

  lemma QueueRecordIs(t: Table, id: DeviceId, c: Candidate)
    ensures var n, node := QueueRecord(t, id, c), KnownNode(id, c.name, c.host, c.port, c.lastSeenAt, c.source);
      if Remembered(t, node) then n == t
      else n.writes == t.writes + [node] && id in n.lastQueued && n.lastQueued[id] == node
  {}

  /** A registry entry read at startup is in the table with all it says, its time clamped to
      the clock, unless it is too old for a full one; it is remembered as written, and not
      written again. */
  lemma SeedIs(t: Table, node: KnownNode, now: int)
    requires Inv(t) && Lookup(t.entries, Device(node.deviceId)).None?
    ensures var n, key := Apply(t, Seed(node, now)), Device(node.deviceId);
      n.writes == t.writes &&
      (Lookup(n.entries, key).Some? ==>
        Lookup(n.entries, key).value ==
          Candidate(Some(node.deviceId), node.name, node.host, node.port, node.source, if node.lastSeenAt > now then now else node.lastSeenAt) &&
        node.deviceId in n.lastQueued && n.lastQueued[node.deviceId] == node)
  {
    var u, c := t.(lastQueued := t.lastQueued[node.deviceId := node]), SeedCandidate(node, now);
    hide Ingest, TooOldForFullTable, Ignored, Lookup;
    SameEntries(t, u);
    WritesIs(u, c, false);
    SeededRecord(u, c, node);
  }

  lemma {:induction false} TrimWrites(t: Table)
    ensures TrimSlots(t).writes == t.writes
    decreases |t.entries|
  {
    if |t.entries| > MAX_KNOWN_NODES { TrimWrites(EvictOldestSlot(t)); }
  }

  /** Eviction takes a node's own remembered record exactly if it takes its entry. */
  lemma OwnRecord(t: Table, c: Candidate)
    requires Inv(t) && !Ignored(t, c) && c.deviceId.Some?
    ensures var id, kept := c.deviceId.value, TrimSlots(Inserted(t, c));
      (id in kept.lastQueued <==> id in t.lastQueued && !TooOldForFullTable(t, c)) &&
      (id in kept.lastQueued ==> kept.lastQueued[id] == t.lastQueued[id])
  {
    var all, id := Inserted(t, c), c.deviceId.value;
    InsertedOk(t, c);
    NewcomerKept(t, c);
    TooOldIsOldest(t, c);
    TrimQueued(all);
    assert all.lastQueued == t.lastQueued;
    if id in t.lastQueued && !TooOldForFullTable(t, c) { TrimRemembers(all, id); }
    if TooOldForFullTable(t, c) { TooOldIsForgotten(all, Slot(KeyOf(c), Merged(c, Lookup(t.entries, KeyOf(c)))), id); MergedKey(t, c); }
  }

  lemma TooOldIsForgotten(all: Table, s: Slot, id: DeviceId)
    requires SlotsOk(all.entries) && s in all.entries && s.key == Device(id) && |all.entries| == MAX_KNOWN_NODES + 1
    requires OldestSlot(all.entries) == At(all.entries, s.key)
    ensures id !in TrimSlots(all).lastQueued
  {
    SlotAt(all.entries, s.key, s.candidate);
    assert TrimSlots(all) == EvictOldestSlot(all) by { EvictOk(all); }
  }

  // ---- Write bounding ------------------------------------------------------

  /** Every queued record's device is among the entries. */
  ghost predicate QueuedWithin(t: Table) {
    forall id :: id in t.lastQueued ==> Lookup(t.entries, Device(id)).Some?
  }

  lemma EvictKeepsWithin(t: Table)
    requires SlotsOk(t.entries) && t.entries != [] && QueuedWithin(t)
    ensures QueuedWithin(EvictOldestSlot(t))
  {
    var i, n := OldestSlot(t.entries), EvictOldestSlot(t);
    DropOk(t.entries, i);
    forall id | id in n.lastQueued
      ensures Lookup(n.entries, Device(id)).Some?
    {
      var c := Lookup(t.entries, Device(id)).value;
      LookupMember(t.entries, Device(id), c);
      LookupMember(n.entries, Device(id), c);
    }
  }

  lemma {:induction false} TrimKeepsWithin(t: Table)
    requires SlotsOk(t.entries) && QueuedWithin(t)
    ensures QueuedWithin(TrimSlots(t))
    decreases |t.entries|
  {
    if |t.entries| > MAX_KNOWN_NODES {
      hide EvictOldestSlot;
      EvictOk(t);
      EvictKeepsWithin(t);
      TrimKeepsWithin(EvictOldestSlot(t));
    }
  }

  lemma InsertedKeepsWithin(t: Table, c: Candidate)
    requires Inv(t) && !Ignored(t, c)
    requires forall id :: id in t.lastQueued && Device(id) != KeyOf(c) ==> Lookup(t.entries, Device(id)).Some?
    ensures QueuedWithin(Inserted(t, c))
  {
    InsertedOk(t, c);
    var n := Inserted(t, c);
    assert n.lastQueued == t.lastQueued;
    hide Inserted, Ignored, Merged;
    forall id | id in n.lastQueued
      ensures Lookup(n.entries, Device(id)).Some?
    {
      if Device(id) == KeyOf(c) {
        LookupMember(n.entries, Device(id), Merged(c, Lookup(t.entries, KeyOf(c))));
      } else {
        var e := Lookup(t.entries, Device(id)).value;
        LookupMember(t.entries, Device(id), e);
        LookupMember(n.entries, Device(id), e);
      }
    }
  }

  /** The sighting brings a new key to a full table and is older than everything in it. */
  predicate TooOldForFullTable(t: Table, c: Candidate) {
    |t.entries| == MAX_KNOWN_NODES &&
    Lookup(t.entries, KeyOf(c)).None? && Lookup(t.entries, Endpoint(c.host, c.port)).None? &&
    forall i :: 0 <= i < |t.entries| ==> c.lastSeenAt < t.entries[i].candidate.lastSeenAt
  }

  /** A table grows only by a key it did not have, put at its end. */
  lemma GrowsAtItsEnd(t: Table, c: Candidate)
    requires Inv(t) && !Ignored(t, c)
    ensures |Inserted(t, c).entries| <= |t.entries| ||
            Inserted(t, c).entries == t.entries + [Slot(KeyOf(c), Merged(c, None))]
    ensures |Inserted(t, c).entries| > |t.entries| <==>
            Lookup(t.entries, KeyOf(c)).None? && Lookup(t.entries, Endpoint(c.host, c.port)).None?
  {
    hide Ignored;
    if c.deviceId.Some? {
      var e := Lookup(t.entries, Endpoint(c.host, c.port));
      var absorbed := Delete(t.entries, Endpoint(c.host, c.port));
      DeleteOk(t.entries, Endpoint(c.host, c.port));
      if e.None? {
        assert absorbed == t.entries;
      } else {
        assert |absorbed| == |t.entries| - 1;
      }
    }
  }

  lemma NewKeyAtEnd(slots: Slots, s: Slot)
    requires Lookup(slots, s.key).None?
    ensures At(slots + [s], s.key) == |slots|
  {
    var more := slots + [s];
    assert more[|slots|] == s && forall i :: 0 <= i < |slots| ==> more[i] == slots[i];
  }

  /** After insertion the newcomer is the first oldest exactly in that case. */
  lemma TooOldIsOldest(t: Table, c: Candidate)
    requires Inv(t) && !Ignored(t, c)
    ensures var slots := Inserted(t, c).entries;
      TooOldForFullTable(t, c) <==> |slots| > MAX_KNOWN_NODES && OldestSlot(slots) == At(slots, KeyOf(c))
  {
    hide Inserted, Ignored, Inv, Lookup, At;
    GrowsAtItsEnd(t, c);
    InvSize(t);
    var slots := Inserted(t, c).entries;
    if |slots| > MAX_KNOWN_NODES {
      NewKeyAtEnd(t.entries, Slot(KeyOf(c), Merged(c, None)));
      assert forall i :: 0 <= i < |t.entries| ==> slots[i] == t.entries[i];
      assert Last(slots).candidate.lastSeenAt == c.lastSeenAt;
    }
  }

  lemma InvSize(t: Table)
    requires Inv(t)
    ensures |t.entries| <= MAX_KNOWN_NODES
  {}

  lemma OneEvicted(t: Table, key: Key, c: Candidate)
    requires SlotsOk(t.entries) && Slot(key, c) in t.entries && |t.entries| == MAX_KNOWN_NODES + 1
    ensures Lookup(TrimSlots(t).entries, key).Some? <==> OldestSlot(t.entries) != At(t.entries, key)
  {
    EvictOk(t);
    var kept, i := EvictOldestSlot(t), OldestSlot(t.entries);
    DropOk(t.entries, i);
    hide EvictOldestSlot, SlotsOk, RemoveAt;
    assert TrimSlots(t) == kept;
    assert t.entries[i] in t.entries;
    SlotAt(t.entries, key, c);
    LookupMember(kept.entries, key, c);
    if Lookup(kept.entries, key).Some? {
      var d := Lookup(kept.entries, key).value;
      LookupMember(kept.entries, key, d);
      LookupMember(t.entries, key, d);
      LookupMember(t.entries, key, c);
    }
  }

  lemma SlotAt(slots: Slots, key: Key, c: Candidate)
    requires SlotsOk(slots) && Slot(key, c) in slots
    ensures At(slots, key) < |slots| && slots[At(slots, key)] == Slot(key, c)
    ensures forall i :: 0 <= i < |slots| && slots[i] == Slot(key, c) ==> i == At(slots, key)
  {}

  /** At most one entry is evicted, so the newcomer is kept unless it is the oldest. */
  lemma NewcomerKept(t: Table, c: Candidate)
    requires Inv(t) && !Ignored(t, c)
    ensures Lookup(TrimSlots(Inserted(t, c)).entries, KeyOf(c)).Some? <==> !TooOldForFullTable(t, c)
  {
    InsertedOk(t, c);
    TooOldIsOldest(t, c);
    var n := Inserted(t, c);
    var merged := Merged(c, Lookup(t.entries, KeyOf(c)));
    hide Inserted, Ignored, Merged, SlotsOk, EvictOldestSlot, TooOldForFullTable;
    LookupMember(n.entries, KeyOf(c), merged);
    if |n.entries| > MAX_KNOWN_NODES {
      OneEvicted(n, KeyOf(c), merged);
    }
  }

  /** Queued records stay within the entries exactly unless a sighting brings a new key to
      a full table older than all it holds: then it is evicted at once, yet queued. */
  lemma QueuedWithinIff(t: Table, c: Candidate)
    requires Inv(t) && QueuedWithin(t) && c.deviceId.Some? && !Ignored(t, c)
    ensures QueuedWithin(Ingest(t, c, true)) <==> !TooOldForFullTable(t, c)
  {
    InsertedOk(t, c);
    InsertedKeepsWithin(t, c);
    TrimKeepsWithin(Inserted(t, c));
    NewcomerKept(t, c);
    MergedKey(t, c);
    var kept := TrimSlots(Inserted(t, c));
    var merged := Merged(c, Lookup(t.entries, KeyOf(c)));
    hide Inserted, TrimSlots, Ignored, Merged, TooOldForFullTable, Lookup;
    assert Ingest(t, c, true) == QueueRecord(kept, c.deviceId.value, merged);
    assert QueueRecord(kept, c.deviceId.value, merged).entries == kept.entries;
  }

  predicate Newest(t: Table, c: Candidate) {
    forall i :: 0 <= i < |t.entries| ==> t.entries[i].candidate.lastSeenAt <= c.lastSeenAt
  }

  /** Every queued record differs from its entry only by under a minute of `lastSeenAt`. */
  ghost predicate QueuedClose(t: Table) {
    forall id :: id in t.lastQueued && Lookup(t.entries, Device(id)).Some? ==>
      NearlySame(t.lastQueued[id], ToNode(id, Lookup(t.entries, Device(id)).value))
  }

  lemma {:induction false} TrimQueued(t: Table)
    ensures TrimSlots(t).lastQueued.Keys <= t.lastQueued.Keys
    ensures forall id :: id in TrimSlots(t).lastQueued ==> TrimSlots(t).lastQueued[id] == t.lastQueued[id]
    decreases |t.entries|
  {
    if |t.entries| > MAX_KNOWN_NODES { TrimQueued(EvictOldestSlot(t)); }
  }

  /** A sighting, stale or not, in order or not, never breaks it: its own record is
      brought up to date, the others are left alone. */
  lemma SightKeepsClose(t: Table, c: Candidate)
    requires Inv(t) && QueuedClose(t)
    ensures QueuedClose(Ingest(t, c, true))
  {
    if !Ignored(t, c) {
      var kept, n := TrimSlots(Inserted(t, c)), Ingest(t, c, true);
      TrimQueued(Inserted(t, c));
      assert Inserted(t, c).lastQueued == t.lastQueued;
      MergedKey(t, c);
      IngestKeepsInv(t, c, true);
      forall id | id in n.lastQueued && Lookup(n.entries, Device(id)).Some?
        ensures NearlySame(n.lastQueued[id], ToNode(id, Lookup(n.entries, Device(id)).value))
      {
        IngestLookup(t, c, true, Device(id));
        hide Inserted, TrimSlots, Ignored, Merged, Lookup, NearlySame;
        var merged := Merged(c, Lookup(t.entries, KeyOf(c)));
        if Device(id) == KeyOf(c) {
          QueuedIsClose(kept, id, merged);
        }
      }
    }
  }

  lemma QueuedIsClose(t: Table, id: DeviceId, c: Candidate)
    ensures var n := QueueRecord(t, id, c);
      id in n.lastQueued && NearlySame(n.lastQueued[id], ToNode(id, c)) &&
      forall x :: x != id ==> (x in n.lastQueued <==> x in t.lastQueued) && (x in t.lastQueued ==> n.lastQueued[x] == t.lastQueued[x])
  {}

  /** An entry still there when eviction is done still has its remembered record. */
  lemma {:induction false} TrimRemembers(t: Table, id: DeviceId)
    requires SlotsOk(t.entries) && id in t.lastQueued && Lookup(TrimSlots(t).entries, Device(id)).Some?
    ensures id in TrimSlots(t).lastQueued
    decreases |t.entries|
  {
    if |t.entries| > MAX_KNOWN_NODES {
      var n, i := EvictOldestSlot(t), OldestSlot(t.entries);
      EvictOk(t);
      DropOk(t.entries, i);
      TrimOk(n);
      var c := Lookup(TrimSlots(n).entries, Device(id)).value;
      LookupMember(TrimSlots(n).entries, Device(id), c);
      assert Slot(Device(id), c) != t.entries[i];
      assert t.entries[i].key != Device(id);
      TrimRemembers(n, id);
    }
  }

  lemma SeededRecord(u: Table, c: Candidate, node: KnownNode)
    requires Inv(u) && c.deviceId == Some(node.deviceId) && Lookup(u.entries, KeyOf(c)).None?
    requires node.deviceId in u.lastQueued && u.lastQueued[node.deviceId] == node
    ensures !Ignored(u, c)
    ensures var n := Ingest(u, c, false);
      (Lookup(n.entries, KeyOf(c)).None? <==> TooOldForFullTable(u, c)) &&
      (Lookup(n.entries, KeyOf(c)).Some? ==>
        Lookup(n.entries, KeyOf(c)).value == c && node.deviceId in n.lastQueued && n.lastQueued[node.deviceId] == node)
  {
    NewcomerKept(u, c);
    InsertedOk(u, c);
    TrimOk(Inserted(u, c));
    TrimQueued(Inserted(u, c));
    var n := TrimSlots(Inserted(u, c));
    IngestLookup(u, c, false, KeyOf(c));
    assert n == Ingest(u, c, false) && Inserted(u, c).lastQueued == u.lastQueued;
    hide Inserted, TrimSlots, Ingest, Inv;
    if Lookup(n.entries, KeyOf(c)).Some? {
      TrimRemembers(Inserted(u, c), node.deviceId);
    }
  }

  /** A seed leaves the other remembered records and their entries alone. */
  lemma OthersStayClose(t: Table, u: Table, c: Candidate, id: DeviceId)
    requires Inv(t) && QueuedClose(t) && u.entries == t.entries && !Ignored(u, c) && Device(id) != KeyOf(c)
    requires id in u.lastQueued ==> id in t.lastQueued && u.lastQueued[id] == t.lastQueued[id]
    requires id in Ingest(u, c, false).lastQueued && Lookup(Ingest(u, c, false).entries, Device(id)).Some?
    ensures var n := Ingest(u, c, false);
      NearlySame(n.lastQueued[id], ToNode(id, Lookup(n.entries, Device(id)).value))
  {
    TrimQueued(Inserted(u, c));
    IngestLookup(u, c, false, Device(id));
    assert Inserted(u, c).lastQueued == u.lastQueued;
    assert Ingest(u, c, false) == TrimSlots(Inserted(u, c));
  }

  /** A registry entry read at startup keeps it exactly if its timestamp is not a minute
      or more ahead of the clock, or it is evicted at once: the entry is clamped, the
      remembered record is not. */
  lemma SeedKeepsCloseIff(t: Table, node: KnownNode, now: int)
    requires Inv(t) && QueuedClose(t) && Lookup(t.entries, Device(node.deviceId)).None?
    ensures QueuedClose(Apply(t, Seed(node, now))) <==>
      node.lastSeenAt - now < LAST_SEEN_PERSIST_THRESHOLD_MS || TooOldForFullTable(t, SeedCandidate(node, now))
  {
    var u, c := t.(lastQueued := t.lastQueued[node.deviceId := node]), SeedCandidate(node, now);
    var n := Ingest(u, c, false);
    assert TooOldForFullTable(u, c) == TooOldForFullTable(t, c);
    hide Ingest, TooOldForFullTable, Lookup, Ignored;
    SeededRecord(u, c, node);
    assert NearlySame(node, ToNode(node.deviceId, c)) <==> node.lastSeenAt - now < LAST_SEEN_PERSIST_THRESHOLD_MS;
    hide NearlySame;
    forall id | id in n.lastQueued && id != node.deviceId && Lookup(n.entries, Device(id)).Some?
      ensures NearlySame(n.lastQueued[id], ToNode(id, Lookup(n.entries, Device(id)).value))
    {
      OthersStayClose(t, u, c, id);
    }
  }

  /** Registry entries come first, each once, none a minute ahead of the clock; then
      sightings in order of time. */
  predicate Fair(t: Table, step: Step) {
    match step
    case Seed(node, now) =>
      Lookup(t.entries, Device(node.deviceId)).None? && node.lastSeenAt - now < LAST_SEEN_PERSIST_THRESHOLD_MS
    case Sight(c) => Newest(t, c)
  }

  predicate AllFair(steps: seq<Step>) {
    steps == [] || (AllFair(Init(steps)) && Fair(Run(EMPTY, Init(steps)), Last(steps)))
  }

  lemma SightKeepsWithin(t: Table, c: Candidate)
    requires Inv(t) && QueuedWithin(t) && Newest(t, c)
    ensures QueuedWithin(Ingest(t, c, true))
  {
    if !Ignored(t, c) {
      if c.deviceId.Some? {
        QueuedWithinIff(t, c);
      } else {
        InsertedOk(t, c);
        InsertedKeepsWithin(t, c);
        TrimKeepsWithin(Inserted(t, c));
        MergedKey(t, c);
      }
    }
  }

  lemma SeedKeepsWithin(t: Table, node: KnownNode, now: int)
    requires Inv(t) && QueuedWithin(t) && Lookup(t.entries, Device(node.deviceId)).None?
    ensures QueuedWithin(Apply(t, Seed(node, now)))
  {
    var u, c := t.(lastQueued := t.lastQueued[node.deviceId := node]), SeedCandidate(node, now);
    InsertedOk(u, c);
    InsertedKeepsWithin(u, c);
    TrimKeepsWithin(Inserted(u, c));
  }

  /** Then the remembered records are those of current entries, each within a minute. */
  lemma {:induction false} QueuedMatchesEntries(steps: seq<Step>)
    requires AllFair(steps)
    ensures QueuedWithin(Run(EMPTY, steps)) && QueuedClose(Run(EMPTY, steps))
  {
    hide QueuedWithin, QueuedClose, Ingest, Inv, Fair;
    if steps == [] {
      EmptyQueued();
    } else {
      QueuedMatchesEntries(Init(steps));
      RunKeepsInv(Init(steps));
      StepQueued(Run(EMPTY, Init(steps)), Last(steps));
    }
  }

  lemma StepQueued(t: Table, step: Step)
    requires Inv(t) && QueuedWithin(t) && QueuedClose(t) && Fair(t, step)
    ensures QueuedWithin(Apply(t, step)) && QueuedClose(Apply(t, step))
  {
    hide QueuedWithin, QueuedClose, Ingest, Inv, Newest;
    match step
    case Seed(node, now) =>
      SeedKeepsCloseIff(t, node, now);
      SeedKeepsWithin(t, node, now);
    case Sight(c) =>
      SightKeepsClose(t, c);
      SightKeepsWithin(t, c);
  }

  lemma EmptyQueued()
    ensures QueuedWithin(EMPTY) && QueuedClose(EMPTY)
  {}

  // ---- Both exceptions can happen ------------------------------------------

  /** A node whose clock ran a minute ahead, read back by one whose clock does not. */
  lemma SeedAheadDrifts(node: KnownNode, now: int)
    requires node.lastSeenAt == now + LAST_SEEN_PERSIST_THRESHOLD_MS
    ensures !QueuedClose(Run(EMPTY, [Seed(node, now)]))
  {
    EmptyInv();
    EmptyQueued();
    SeedKeepsCloseIff(EMPTY, node, now);
    assert Init([Seed(node, now)]) == [];
  }

  /** Device ids are 64 hexadecimal digits: `i / 8` is the place of the only one not zero. */
  function FillerId(i: nat): DeviceId
    requires i < MAX_KNOWN_NODES
  {
    seq(64, k => if k == i / 8 then "12345678"[i % 8] else '0')
  }

  function Filler(i: nat): Candidate
    requires i < MAX_KNOWN_NODES
  {
    Candidate(Some(FillerId(i)), None, "node", i, "mdns", 1)
  }

  lemma FillerIdsDiffer(i: nat, j: nat)
    requires i < MAX_KNOWN_NODES && j < MAX_KNOWN_NODES && i != j
    ensures FillerId(i) != FillerId(j)
  {
    assert FillerId(i)[i / 8] == "12345678"[i % 8] != '0';
    if i / 8 == j / 8 {
      assert FillerId(j)[i / 8] == "12345678"[j % 8] && i % 8 != j % 8;
    } else {
      assert FillerId(j)[i / 8] == '0';
    }
  }

  function Fillers(n: nat): seq<Candidate>
    requires n <= MAX_KNOWN_NODES
  {
    seq(n, i requires 0 <= i < n => Filler(i))
  }

  function FillerSlots(n: nat): Slots
    requires n <= MAX_KNOWN_NODES
  {
    seq(n, i requires 0 <= i < n => Slot(Device(FillerId(i)), Filler(i)))
  }

  lemma {:induction false} FillTable(n: nat)
    requires n <= MAX_KNOWN_NODES
    ensures Run(EMPTY, Sights(Fillers(n))).entries == FillerSlots(n)
    ensures Inv(Run(EMPTY, Sights(Fillers(n)))) && QueuedWithin(Run(EMPTY, Sights(Fillers(n))))
  {
    hide Inv, QueuedWithin, Ingest, FillerId, Newest;
    RunKeepsInv(Sights(Fillers(n)));
    if n == 0 {
      EmptyQueued();
    } else {
      FillTable(n - 1);
      var t, c := Run(EMPTY, Sights(Fillers(n - 1))), Filler(n - 1);
      assert Init(Fillers(n)) == Fillers(n - 1) && Last(Fillers(n)) == c;
      assert Sights(Fillers(n)) == Sights(Fillers(n - 1)) + [Sight(c)];
      assert Init(Sights(Fillers(n))) == Sights(Fillers(n - 1));
      NewFiller(t, n - 1);
      SightKeepsWithin(t, c);
    }
  }

  lemma NewFiller(t: Table, n: nat)
    requires n < MAX_KNOWN_NODES && t.entries == FillerSlots(n) && Inv(t)
    ensures Newest(t, Filler(n)) && Ingest(t, Filler(n), true).entries == FillerSlots(n + 1)
  {
    var c := Filler(n);
    forall i | 0 <= i < n ensures t.entries[i].key != KeyOf(c) && t.entries[i].key.Device? { FillerIdsDiffer(i, n); }
    assert Lookup(t.entries, KeyOf(c)).None? && Lookup(t.entries, Endpoint(c.host, c.port)).None?;
    hide Lookup, Inv, FillerId;
    GrowsAtItsEnd(t, c);
    assert Inserted(t, c).entries == FillerSlots(n) + [Slot(KeyOf(c), c)];
    assert FillerSlots(n + 1) == FillerSlots(n) + [Slot(Device(FillerId(n)), c)];
  }

  /** One more node, seen before all of those. */
  const LATECOMER := Candidate(Some(seq(64, _ => '0')), None, "node", MAX_KNOWN_NODES, "mdns", 0)

  lemma LatecomerIsTooOld(t: Table)
    requires t.entries == FillerSlots(MAX_KNOWN_NODES)
    ensures TooOldForFullTable(t, LATECOMER) && !Ignored(t, LATECOMER)
  {
    forall i | 0 <= i < |t.entries| ensures t.entries[i].key != KeyOf(LATECOMER) && t.entries[i].key.Device? {
      assert FillerId(i)[i / 8] == "12345678"[i % 8] != '0' == LATECOMER.deviceId.value[i / 8];
    }
  }

  /** A full table, and then the clock steps back for one sighting. */
  lemma SteppedBackClockLeaks()
    ensures var steps := Sights(Fillers(MAX_KNOWN_NODES));
      QueuedWithin(Run(EMPTY, steps)) && !QueuedWithin(Run(EMPTY, steps + [Sight(LATECOMER)]))
  {
    var steps := Sights(Fillers(MAX_KNOWN_NODES));
    var t := Run(EMPTY, steps);
    FillTable(MAX_KNOWN_NODES);
    hide Inv, Ingest, QueuedWithin, TooOldForFullTable, Ignored, Fillers, Sights;
    LatecomerIsTooOld(t);
    assert Init(steps + [Sight(LATECOMER)]) == steps;
    QueuedWithinIff(t, LATECOMER);
  }

  /** The sighting repeats what was last queued for its device. */
  predicate Repeats(queued: KnownNode, c: Candidate) {
    c.deviceId == Some(queued.deviceId) && NearlySame(queued, ToNode(queued.deviceId, c.(name := queued.name))) &&
    (c.name.None? || c.name == queued.name)
  }

  lemma RepeatWritesNothing(t: Table, id: DeviceId, c: Candidate)
    requires Inv(t) && id in t.lastQueued && t.lastQueued[id].deviceId == id && Repeats(t.lastQueued[id], c)
    requires Lookup(t.entries, Device(id)).Some? && Lookup(t.entries, Device(id)).value.name == t.lastQueued[id].name
    ensures var n := Ingest(t, c, true);
      n.writes == t.writes && n.lastQueued == t.lastQueued &&
      Lookup(n.entries, Device(id)).Some? && Lookup(n.entries, Device(id)).value.name == t.lastQueued[id].name
  {
    if !Ignored(t, c) {
      InsertedOk(t, c);
      assert |Inserted(t, c).entries| <= |t.entries| by { ResightingAddsNone(t, c); }
      var merged := Merged(c, Lookup(t.entries, KeyOf(c)));
      LookupMember(Inserted(t, c).entries, Device(id), merged);
    }
  }

  lemma ResightingAddsNone(t: Table, c: Candidate)
    requires Inv(t) && c.deviceId.Some? && Lookup(t.entries, KeyOf(c)).Some?
    ensures |Inserted(t, c).entries| <= |t.entries|
  {
    var e := Lookup(t.entries, KeyOf(c)).value;
    DeleteOk(t.entries, Endpoint(c.host, c.port));
    LookupMember(t.entries, KeyOf(c), e);
    LookupMember(Delete(t.entries, Endpoint(c.host, c.port)), KeyOf(c), e);
  }

  function Sights(cs: seq<Candidate>): seq<Step> {
    if cs == [] then [] else Sights(Init(cs)) + [Sight(Last(cs))]
  }

  /** However often a stable node is re-sighted within a minute, in any order, the file is
      not written again. */
  lemma {:induction false} StableNodeWritesOnce(t: Table, id: DeviceId, cs: seq<Candidate>)
    requires Inv(t) && id in t.lastQueued && t.lastQueued[id].deviceId == id
    requires Lookup(t.entries, Device(id)).Some? && Lookup(t.entries, Device(id)).value.name == t.lastQueued[id].name
    requires forall i :: 0 <= i < |cs| ==> Repeats(t.lastQueued[id], cs[i])
    ensures var n := Run(t, Sights(cs));
      n.writes == t.writes && n.lastQueued == t.lastQueued && Inv(n) &&
      Lookup(n.entries, Device(id)).Some? && Lookup(n.entries, Device(id)).value.name == t.lastQueued[id].name
  {
    hide Inv, Ingest, Repeats;
    if cs != [] {
      StableNodeWritesOnce(t, id, Init(cs));
      var before := Run(t, Sights(Init(cs)));
      assert Init(Sights(cs)) == Sights(Init(cs)) && Last(Sights(cs)) == Sight(Last(cs));
      RepeatWritesNothing(before, id, Last(cs));
      IngestKeepsInv(before, Last(cs), true);
    }
  }

  // ---- The string keys -----------------------------------------------------

  const COLON: U.Scalar := 58

  /** `host:port` as the program writes it. */
  function EndpointText(host: U.Text, port: nat): U.Text { host + [COLON] + Decimal(port) }

  /** What follows the last colon. */
  function AfterColon(text: U.Text): U.Text {
    if text == [] || Last(text) == COLON then [] else AfterColon(Init(text)) + [Last(text)]
  }

  lemma {:induction false} PortIsAfterColon(host: U.Text, port: U.Text)
    requires COLON !in port
    ensures AfterColon(host + [COLON] + port) == port
  {
    if port == [] {
      assert host + [COLON] + [] == host + [COLON];
    } else {
      PortIsAfterColon(host, Init(port));
      assert Init(host + [COLON] + port) == host + [COLON] + Init(port);
    }
  }

  lemma EndpointParts(host: U.Text, port: nat)
    ensures AfterColon(EndpointText(host, port)) == Decimal(port)
    ensures |EndpointText(host, port)| == |host| + 1 + |Decimal(port)|
    ensures EndpointText(host, port)[..|host|] == host && EndpointText(host, port)[|host|] == COLON
  {
    PortIsAfterColon(host, Decimal(port));
  }

  /** Endpoint keys are as good as pairs, IPv6 hosts included, and none of them is a device
      id, which has no colon. */
  lemma EndpointKeysAreInjective(host: U.Text, port: nat, other: U.Text, port': nat, id: U.Text)
    requires COLON !in id
    ensures EndpointText(host, port) == EndpointText(other, port') <==> host == other && port == port'
    ensures EndpointText(host, port) != id
  {
    EndpointParts(host, port);
    EndpointParts(other, port');
    hide EndpointText, AfterColon, Decimal;
    if EndpointText(host, port) == EndpointText(other, port') {
      DecimalInjective(port, port');
    }
  }
}
