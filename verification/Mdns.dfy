/** Publishing this node's name over mDNS: labels that fit, collisions, and the watchdog
    that renames a publication nobody has heard back. */
module Mdns {
  import opened Basics
  import opened Utf8
  import opened Truncation
  import opened Numerals
  import opened OrderedMaps

  const MAX_INSTANCE_LABEL_BYTES: nat := 63
  const MAX_RENAME_ATTEMPTS: nat := 10

  // ---- Labels --------------------------------------------------------------

  /** A name cut to a number of UTF-8 bytes, like captured output. */
  function TruncateLabel(name: Text, maxBytes: nat): Text { DecodeCapped(Encode(name), maxBytes).text }

  method TruncateInstanceLabel(name: Text, maxBytes: nat) returns (r: Text)
    ensures r == TruncateLabel(name, maxBytes)
  {
    hide Encode, Write;
    RoundTrip(name);
    var bytes := Encode(name);
    if |bytes| <= maxBytes {
      return name;
    }
    var end := maxBytes;
    while end > 0 && Continuation(bytes[end])
      invariant 0 <= end <= maxBytes && CutPoint(bytes, end) == CutPoint(bytes, maxBytes)
    {
      end := end - 1;
    }
    return ToText(bytes[..end]);
  }

  /** " (n)" */
  function Suffix(attempt: nat): Text { [32, 40] + Decimal(attempt) + [41] }

  function InstanceLabel(name: Text, attempt: nat): Text {
    if attempt <= 1 then TruncateLabel(name, MAX_INSTANCE_LABEL_BYTES)
    else TruncateLabel(name, Max(0, MAX_INSTANCE_LABEL_BYTES - |Encode(Suffix(attempt))|)) + Suffix(attempt)
  }

  lemma SuffixShape(attempt: nat)
    requires 2 <= attempt <= MAX_RENAME_ATTEMPTS
    ensures |Suffix(attempt)| == (if attempt < 10 then 4 else 5) == |Encode(Suffix(attempt))|
    ensures Suffix(attempt)[|Suffix(attempt)| - 2] == 48 + attempt % 10
    ensures Suffix(attempt)[0] == 32
  {
    if attempt == 10 {
      assert Decimal(10) == Decimal(1) + [48 + 0];
      assert Decimal(1) == [49];
    } else {
      assert Decimal(attempt) == [48 + attempt];
    }
    AsciiBytes(Suffix(attempt));
  }

  lemma TruncateFits(name: Text, maxBytes: nat)
    ensures var k := Fitting(name, maxBytes);
      TruncateLabel(name, maxBytes) == name[..k] && |Encode(name[..k])| <= maxBytes &&
      (k < |name| ==> |Encode(name[..k + 1])| > maxBytes)
  {
    CapOfWellFormed(name, maxBytes);
    FittingIsGreatest(name, maxBytes);
  }

  /** Every label fits in a DNS label (section 2.3.4 of RFC 1035) and is whole characters
      of the name, as many as fit, with the attempt's suffix. */
  lemma LabelFits(name: Text, attempt: nat)
    requires 1 <= attempt <= MAX_RENAME_ATTEMPTS
    ensures |Encode(InstanceLabel(name, attempt))| <= MAX_INSTANCE_LABEL_BYTES
    ensures exists k :: 0 <= k <= |name| && InstanceLabel(name, attempt) == name[..k] + if attempt == 1 then [] else Suffix(attempt)
  {
    hide Encode, DecodeCapped, TruncateLabel, Fitting, Decimal;
    if attempt == 1 {
      TruncateFits(name, MAX_INSTANCE_LABEL_BYTES);
      var k := Fitting(name, MAX_INSTANCE_LABEL_BYTES);
      assert name[..k] + [] == name[..k];
    } else {
      SuffixShape(attempt);
      var budget := MAX_INSTANCE_LABEL_BYTES - |Encode(Suffix(attempt))|;
      TruncateFits(name, budget);
      EncodeConcat(name[..Fitting(name, budget)], Suffix(attempt));
    }
  }

  /** Where two suffixed labels differ. */
  lemma SuffixedEnd(name: Text, attempt: nat)
    requires 2 <= attempt <= MAX_RENAME_ATTEMPTS
    ensures var l := InstanceLabel(name, attempt);
      |l| >= 4 && l[|l| - 2] == 48 + attempt % 10
  {
    hide Encode, DecodeCapped, TruncateLabel, Decimal;
    SuffixShape(attempt);
  }

  /** The labels of renames two to ten are pairwise distinct. */
  lemma RenamedLabelsDiffer(name: Text, a: nat, b: nat)
    requires 2 <= a < b <= MAX_RENAME_ATTEMPTS
    ensures InstanceLabel(name, a) != InstanceLabel(name, b)
  {
    hide InstanceLabel;
    SuffixedEnd(name, a);
    SuffixedEnd(name, b);
  }

  predicate EndsWith(text: Text, end: Text) { |end| <= |text| && text[|text| - |end|..] == end }

  lemma EndsThere(text: Text, end: Text)
    ensures EndsWith(text + end, end)
  {}

  /** The first label is only repeated by a rename if it fills the label and already ends
      in that rename's suffix; then the rename changes nothing. */
  lemma FirstLabelRepeatsIff(name: Text, attempt: nat)
    requires 2 <= attempt <= MAX_RENAME_ATTEMPTS
    ensures InstanceLabel(name, 1) == InstanceLabel(name, attempt) <==>
            |Encode(InstanceLabel(name, 1))| == MAX_INSTANCE_LABEL_BYTES && EndsWith(InstanceLabel(name, 1), Suffix(attempt))
  {
    hide DecodeCapped, TruncateLabel, Decimal, Suffix, Encode, Fitting;
    SuffixShape(attempt);
    var suffix := Suffix(attempt);
    var budget := MAX_INSTANCE_LABEL_BYTES - |suffix|;
    TruncateFits(name, MAX_INSTANCE_LABEL_BYTES);
    TruncateFits(name, budget);
    var k, j := Fitting(name, MAX_INSTANCE_LABEL_BYTES), Fitting(name, budget);
    var first := name[..k];
    EncodeConcat(name[..j], suffix);
    EndsThere(name[..j], suffix);
    if EndsWith(first, suffix) {
      var i := k - |suffix|;
      assert first == name[..i] + suffix;
      EncodeConcat(name[..i], suffix);
      assert name[..i + 1] == name[..i] + [32];
      EncodeOneMore(name[..i], 32);
      if |Encode(first)| == MAX_INSTANCE_LABEL_BYTES {
        FittingIs(name, budget, i);
      } else {
        FittingAtLeast(name, budget, i + 1);
      }
    }
    if first == name[..j] + suffix {
      assert |first| == j + |suffix|;
    }
  }

  lemma FittingAtLeast(name: Text, maxBytes: nat, i: nat)
    requires i <= |name| && |Encode(name[..i])| <= maxBytes
    ensures Fitting(name, maxBytes) >= i
  {
    hide Encode, Fitting;
    FittingIsGreatest(name, maxBytes);
    var k := Fitting(name, maxBytes);
    if k < i {
      TakeTwice(name, k + 1, i);
      EncodeConcat(name[..k + 1], name[k + 1..i]);
    }
  }

  lemma FittingIs(name: Text, maxBytes: nat, i: nat)
    requires i < |name| && |Encode(name[..i])| <= maxBytes < |Encode(name[..i + 1])|
    ensures Fitting(name, maxBytes) == i
  {
    hide Encode, Fitting;
    FittingAtLeast(name, maxBytes, i);
    FittingIsGreatest(name, maxBytes);
    var k := Fitting(name, maxBytes);
    if k > i {
      TakeTwice(name, i + 1, k);
      EncodeConcat(name[..i + 1], name[i + 1..k]);
    }
  }

  /** A name for which the first rename keeps the old label. */
  lemma RenameCanKeepTheLabel(name: Text)
    requires name == seq(59, _ => 97) + [32, 40, 50, 41]
    ensures InstanceLabel(name, 1) == InstanceLabel(name, 2)
  {
    hide Encode, DecodeCapped, Fitting;
    AsciiBytes(name);
    TruncateFits(name, MAX_INSTANCE_LABEL_BYTES);
    FittingAll(name, MAX_INSTANCE_LABEL_BYTES);
    assert name[..|name|] == name;
    assert Suffix(2) == [32, 40, 50, 41] by { assert Decimal(2) == [50]; }
    FirstLabelRepeatsIff(name, 2);
  }

  // ---- The machine ---------------------------------------------------------

  /** A device id is 64 lower-case hex digits: their order is that of the number. */
  type DeviceId = nat

  datatype Node = Node(name: Text, id: DeviceId, fold: Text -> Text) {
    /** DNS names are compared without regard to case. */
    predicate LabelsEqual(a: Text, b: Text) { fold(a) == fold(b) }
  }

  datatype Trigger = Collision | Watchdog(timer: nat)

  /** `published` and `triggers` are history: the labels published and what caused each
      rename. Timers are numbered as they are armed; `armed[t]` is the attempt it is for. */
  datatype Machine = Machine(
    started: bool,
    attempt: nat,
    currentName: Text,
    watchdog: Option<nat>,
    armed: seq<nat>,
    reports: nat,
    exhaustionReported: bool,
    published: seq<Text>,
    triggers: seq<Trigger>)

  /** `peer` is the device id, when the announcement decodes. A timer may fire late. */
  datatype Event =
    | Found(name: Text, peer: Option<DeviceId>)
    | Fires(timer: nat)
    | Stop

  function Arm(m: Machine): Machine { m.(watchdog := Some(|m.armed|), armed := m.armed + [m.attempt]) }

  function Publish(m: Machine): Machine { m.(published := m.published + [m.currentName]) }

  function Start(n: Node): Machine {
    Publish(Arm(Machine(true, 1, InstanceLabel(n.name, 1), None, [], 0, false, [], [])))
  }

  function Rename(n: Node, m: Machine, trigger: Trigger): Machine {
    if m.attempt >= MAX_RENAME_ATTEMPTS
    then if m.exhaustionReported then m else m.(exhaustionReported := true, reports := m.reports + 1)
    else
      Publish(Arm(m.(attempt := m.attempt + 1, currentName := InstanceLabel(n.name, m.attempt + 1),
                     triggers := m.triggers + [trigger])))
  }

  predicate LosesTieBreak(n: Node, peer: Option<DeviceId>) { peer.Some? && peer.value < n.id }

  function Next(n: Node, m: Machine, e: Event): Machine {
    if !m.started then m
    else
      match e
      case Found(name, peer) =>
        if peer == Some(n.id) then if n.LabelsEqual(name, m.currentName) then m.(watchdog := None) else m
        else if n.LabelsEqual(name, m.currentName) && LosesTieBreak(n, peer) then Rename(n, m, Collision)
        else m
      case Fires(timer) =>
        if m.watchdog == Some(timer) then Rename(n, m.(watchdog := None), Watchdog(timer)) else m
      case Stop => m.(started := false, watchdog := None)
  }

  function Run(n: Node, m: Machine, events: seq<Event>): Machine {
    if events == [] then m else Next(n, Run(n, m, Init(events)), Last(events))
  }

  // ---- Invariant -----------------------------------------------------------

  /** Attempt, labels, timers and triggers go together, and the live watchdog is the one
      armed for the current name. */
  ghost predicate Inv(n: Node, m: Machine) {
    1 <= m.attempt <= MAX_RENAME_ATTEMPTS && m.currentName == InstanceLabel(n.name, m.attempt) &&
    |m.published| == |m.armed| == m.attempt && |m.triggers| == m.attempt - 1 &&
    (forall k :: 0 <= k < m.attempt ==> m.published[k] == InstanceLabel(n.name, k + 1) && m.armed[k] == k + 1) &&
    (m.watchdog.Some? ==> m.watchdog.value == m.attempt - 1) &&
    (forall k :: 0 <= k < |m.triggers| && m.triggers[k].Watchdog? ==> m.triggers[k].timer == k) &&
    m.reports == (if m.exhaustionReported then 1 else 0) && (m.exhaustionReported ==> m.attempt == MAX_RENAME_ATTEMPTS)
  }

  lemma StartInv(n: Node)
    ensures Inv(n, Start(n))
  {
    hide InstanceLabel;
  }

  lemma NextKeepsInv(n: Node, m: Machine, e: Event)
    requires Inv(n, m)
    ensures Inv(n, Next(n, m, e))
  {
    hide InstanceLabel;
  }

  lemma {:induction false} RunKeepsInv(n: Node, events: seq<Event>)
    ensures Inv(n, Run(n, Start(n), events))
  {
    hide Inv, Next, Start;
    if events == [] {
      StartInv(n);
    } else {
      RunKeepsInv(n, Init(events));
      NextKeepsInv(n, Run(n, Start(n), Init(events)), Last(events));
    }
  }

  // ---- Results -------------------------------------------------------------

  /** At most nine renames, in any order of browse results and timer fires; the labels
      published are those of the attempts in turn, each within the limit; exhaustion is
      reported at most once. */
  lemma RenamesAreBounded(n: Node, events: seq<Event>)
    ensures var m := Run(n, Start(n), events);
      |m.triggers| <= MAX_RENAME_ATTEMPTS - 1 && |m.published| == |m.triggers| + 1 && m.reports <= 1 &&
      (forall k :: 0 <= k < |m.published| ==>
        m.published[k] == InstanceLabel(n.name, k + 1) && |Encode(m.published[k])| <= MAX_INSTANCE_LABEL_BYTES) &&
      (forall j, k :: 1 <= j < k < |m.published| ==> m.published[j] != m.published[k])
  {
    RunKeepsInv(n, events);
    hide InstanceLabel, Encode, Run;
    var m := Run(n, Start(n), events);
    forall k | 0 <= k < |m.published|
      ensures |Encode(m.published[k])| <= MAX_INSTANCE_LABEL_BYTES
    {
      LabelFits(n.name, k + 1);
    }
    forall j, k | 1 <= j < k < |m.published|
      ensures m.published[j] != m.published[k]
    {
      RenamedLabelsDiffer(n.name, j + 1, k + 1);
    }
  }

  /** A rename that the watchdog caused was caused by the timer armed for the name then
      current: the k-th rename by the k-th timer, however late other timers fire. */
  lemma OnlyTheCurrentTimerRenames(n: Node, events: seq<Event>, k: nat)
    requires k < |Run(n, Start(n), events).triggers| && Run(n, Start(n), events).triggers[k].Watchdog?
    ensures var m := Run(n, Start(n), events);
      var timer := m.triggers[k].timer;
      timer < |m.armed| && k < |m.published| && m.armed[timer] == k + 1 && m.published[k] == InstanceLabel(n.name, m.armed[timer])
  {
    RunKeepsInv(n, events);
    hide InstanceLabel, Run;
  }

  predicate IsCollision(n: Node, m: Machine, e: Event) {
    e.Found? && e.peer != Some(n.id) && n.LabelsEqual(e.name, m.currentName) && LosesTieBreak(n, e.peer)
  }

  predicate Quiet(n: Node, m: Machine, events: seq<Event>) {
    events == [] || (Quiet(n, m, Init(events)) && !IsCollision(n, Run(n, m, Init(events)), Last(events)))
  }

  /** Once its own echo has confirmed the name, or the node has stopped, no timer renames
      it any more: only a collision can. */
  lemma {:induction false} ConfirmedNameStays(n: Node, m: Machine, events: seq<Event>)
    requires m.watchdog.None? && Quiet(n, m, events)
    ensures var r := Run(n, m, events);
      r.watchdog.None? && r.currentName == m.currentName && r.published == m.published && r.triggers == m.triggers
  {
    if events != [] { ConfirmedNameStays(n, m, Init(events)); }
  }

  /** An echo of the current name confirms it; one of an older name does not. */
  lemma EchoConfirmsIff(n: Node, m: Machine, name: Text)
    requires m.started && m.watchdog.Some?
    ensures Next(n, m, Found(name, Some(n.id))).watchdog.None? <==> n.LabelsEqual(name, m.currentName)
  {}

  /** Of two nodes that see each other under one name exactly one moves, the one with the
      greater id. */
  lemma ExactlyOneRenames(a: Node, b: Node, m: Machine, w: Machine)
    requires a.id != b.id && m.started && w.started && m.attempt < MAX_RENAME_ATTEMPTS && w.attempt < MAX_RENAME_ATTEMPTS
    requires a.LabelsEqual(w.currentName, m.currentName) && b.LabelsEqual(m.currentName, w.currentName)
    ensures (Next(a, m, Found(w.currentName, Some(b.id))).attempt > m.attempt) !=
            (Next(b, w, Found(m.currentName, Some(a.id))).attempt > w.attempt)
    ensures Next(a, m, Found(w.currentName, Some(b.id))).attempt > m.attempt <==> a.id > b.id
  {
    hide InstanceLabel;
  }

  /** What calls for a new name: another node with a smaller id publishes the current one,
      or the live watchdog fires. */
  predicate CallsForRename(n: Node, m: Machine, e: Event) {
    match e
    case Found(name, peer) => peer.Some? && peer.value < n.id && n.LabelsEqual(name, m.currentName)
    case Fires(timer) => m.watchdog == Some(timer)
    case Stop => false
  }

  /** A started node renames exactly then, while its budget lasts: to the label of the next
      attempt, published and watched. Beyond it, it says so once. Nothing else renames. */
  lemma RenamesIff(n: Node, m: Machine, e: Event)
    ensures var r := Next(n, m, e);
      if m.started && CallsForRename(n, m, e) && m.attempt < MAX_RENAME_ATTEMPTS then
        r.attempt == m.attempt + 1 && r.currentName == InstanceLabel(n.name, r.attempt) && r.published == m.published + [r.currentName] &&
        r.armed == m.armed + [r.attempt] && r.watchdog == Some(|m.armed|) && r.reports == m.reports
      else
        r.attempt == m.attempt && r.currentName == m.currentName && r.published == m.published && r.armed == m.armed &&
        r.reports == m.reports + if m.started && CallsForRename(n, m, e) && !m.exhaustionReported then 1 else 0
  {
    hide InstanceLabel;
  }

  /** The watchdog is disarmed by an echo of the current name, by firing, and by a stop. */
  lemma DisarmedIff(n: Node, m: Machine, e: Event)
    requires m.started && m.watchdog.Some? && !(CallsForRename(n, m, e) && m.attempt < MAX_RENAME_ATTEMPTS)
    ensures Next(n, m, e).watchdog.None? <==>
      e.Stop? || e == Fires(m.watchdog.value) || (e.Found? && e.peer == Some(n.id) && n.LabelsEqual(e.name, m.currentName))
    ensures Next(n, m, e).started <==> !e.Stop?
  {
    hide InstanceLabel;
  }

  // ---- The address to dial -------------------------------------------------

  const DOT: Scalar := 46

  function LeadingDigits(text: Text): (n: nat)
    ensures n <= |text| && (n < |text| ==> !Digit(text[n])) && forall i :: 0 <= i < n ==> Digit(text[i])
  {
    if text == [] || !Digit(text[0]) then 0 else 1 + LeadingDigits(text[1..])
  }

  /** `groups` groups of one to three digits with dots between them, and nothing else. */
  predicate Dotted(text: Text, groups: nat)
    decreases groups
  {
    var n := LeadingDigits(text);
    groups > 0 && 1 <= n <= 3 && if groups == 1 then n == |text| else n < |text| && text[n] == DOT && Dotted(text[n + 1..], groups - 1)
  }

  predicate IsIpv4(address: Text) { Dotted(address, 4) }

  /** The first IPv4 address, failing that the first of any kind. */
  function PickHost(addresses: seq<Text>): (host: Option<Text>)
    ensures host.None? <==> addresses == []
    ensures host.Some? ==> exists i :: 0 <= i < |addresses| && Preferred(addresses, i) && host.value == addresses[i]
  {
    var i := FirstIpv4(addresses);
    if i < |addresses| then
      assert Preferred(addresses, i);
      Some(addresses[i])
    else if addresses == [] then None
    else
      assert Preferred(addresses, 0);
      Some(addresses[0])
  }

  predicate Preferred(addresses: seq<Text>, i: nat) {
    i < |addresses| && (forall k :: 0 <= k < i ==> !IsIpv4(addresses[k])) &&
    (IsIpv4(addresses[i]) || (i == 0 && forall k :: 0 <= k < |addresses| ==> !IsIpv4(addresses[k])))
  }

  function FirstIpv4(addresses: seq<Text>): (i: nat)
    ensures i <= |addresses| && (i < |addresses| ==> IsIpv4(addresses[i]))
    ensures forall k :: 0 <= k < i ==> !IsIpv4(addresses[k])
  {
    IndexOf(addresses, (address: Text) => IsIpv4(address), true)
  }

  /** What is handed on for a peer. */
  datatype Candidate = Candidate(deviceId: DeviceId, name: Text, host: Text, port: nat, lastSeenAt: int)

  // ---- The object ----------------------------------------------------------

  class MdnsDiscovery {
    const node: Node
    var started: bool
    var renameAttempt: nat
    var currentName: Text
    var echoWatchdog: Option<nat>
    var exhaustionReported: bool
    ghost var armed: seq<nat>
    ghost var reports: nat
    ghost var published: seq<Text>
    ghost var triggers: seq<Trigger>
    var timers: nat

    ghost function State(): Machine
      reads this
    {
      Machine(started, renameAttempt, currentName, echoWatchdog, armed, reports, exhaustionReported, published, triggers)
    }

    ghost predicate Valid()
      reads this
    {
      timers == |armed| && (!started ==> echoWatchdog.None?)
    }

    /** A node that has started. */
    constructor (node: Node)
      ensures Valid() && this.node == node && State() == Start(node)
    {
      this.node := node;
      started, renameAttempt, currentName, echoWatchdog := true, 1, InstanceLabel(node.name, 1), None;
      exhaustionReported, armed, reports, published, triggers, timers := false, [], 0, [], [], 0;
      new;
      ArmEchoWatchdog();
      published := published + [currentName];
    }

    method CancelEchoWatchdog()
      modifies this`echoWatchdog
      ensures State() == old(State()).(watchdog := None)
    {
      echoWatchdog := None;
    }

    method ArmEchoWatchdog()
      requires Valid() && started
      modifies this`echoWatchdog, this`armed, this`timers
      ensures Valid() && State() == Arm(old(State()))
    {
      CancelEchoWatchdog();
      echoWatchdog := Some(timers);
      armed := armed + [renameAttempt];
      timers := timers + 1;
    }

    method RenameFor(ghost trigger: Trigger)
      requires Valid() && started
      modifies this
      ensures Valid() && State() == Rename(node, old(State()), trigger)
    {
      hide InstanceLabel;
      if renameAttempt >= MAX_RENAME_ATTEMPTS {
        if !exhaustionReported {
          exhaustionReported := true;
          reports := reports + 1;
        }
        return;
      }
      renameAttempt := renameAttempt + 1;
      currentName := InstanceLabel(node.name, renameAttempt);
      triggers := triggers + [trigger];
      ArmEchoWatchdog();
      published := published + [currentName];
    }

    /** A browse result is the machine's step, and is handed on exactly if it is another
        node's announcement that can be dialled. */
    method HandleServiceUp(name: Text, peer: Option<DeviceId>, port: nat, addresses: seq<Text>, now: int)
      returns (candidate: Option<Candidate>)
      requires Valid()
      modifies this
      ensures Valid() && State() == Next(node, old(State()), Found(name, peer))
      ensures candidate.Some? <==> old(started) && peer.Some? && peer.value != node.id && addresses != []
      ensures candidate.Some? ==>
        candidate.value == Candidate(peer.value, name, candidate.value.host, port, now) &&
        exists i :: 0 <= i < |addresses| && Preferred(addresses, i) && candidate.value.host == addresses[i]
    {
      hide InstanceLabel, Rename, Preferred;
      if !started {
        return None;
      }
      if peer == Some(node.id) {
        if node.LabelsEqual(name, currentName) {
          CancelEchoWatchdog();
        }
        return None;
      }
      if node.LabelsEqual(name, currentName) && LosesTieBreak(node, peer) {
        RenameFor(Collision);
      }
      if peer.None? {
        return None;
      }
      var host := PickHost(addresses);
      if host.None? {
        return None;
      }
      return Some(Candidate(peer.value, name, host.value, port, now));
    }

    /** The callback of timer `timer`. */
    method TimerFires(timer: nat)
      requires Valid()
      modifies this
      ensures Valid() && State() == Next(node, old(State()), Fires(timer))
    {
      hide InstanceLabel, Rename;
      if echoWatchdog != Some(timer) {
        return;
      }
      echoWatchdog := None;
      RenameFor(Watchdog(timer));
    }

    method StopAll()
      requires Valid()
      modifies this
      ensures Valid() && State() == Next(node, old(State()), Stop)
    {
      if !started {
        return;
      }
      started := false;
      CancelEchoWatchdog();
    }
  }
}
