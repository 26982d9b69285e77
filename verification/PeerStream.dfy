/** A peer following one job of another node: it connects, reads, loses the connection
    and resumes, as often as it likes, while the scheduler runs on. */
module PeerStreams {
  import opened Basics
  import opened Utf8
  import opened Numerals
  import opened JobRecords
  import opened JobEngine
  import opened JobInvariant
  import opened JobTheorems
  import opened Sse
  import opened SseTheorems

  // ---- Last-Event-ID -------------------------------------------------------

  /** The header the client sends to resume at `fromSeq`. */
  function ResumeHeader(fromSeq: nat): Option<Text> {
    if fromSeq > 0 then Some(Decimal(fromSeq - 1)) else None
  }

  function ParseLastEventId(header: Option<Text>): nat {
    if header.None? then 0
    else match ParseInt(header.value)
      case None => 0
      case Some(value) => if value < 0 then 0 else value + 1
  }

  /** The worker resumes exactly where the peer asked it to. */
  lemma ResumeReadsBack(fromSeq: nat)
    ensures ParseLastEventId(ResumeHeader(fromSeq)) == fromSeq
  {
    if fromSeq > 0 {
      DecimalReadsBack(fromSeq - 1);
      var digits := Decimal(fromSeq - 1);
      assert Digit(digits[0]) && SkipSpace(digits) == digits;
    }
  }

  /** A header that does not start with a number, white space aside, or names a negative
      one, asks for everything; digits that something else follows count as the number. */
  lemma ResumeIsForgiving(text: Text)
    ensures var body := SkipSpace(text);
      var minus, plus := body != [] && body[0] == 45, body != [] && body[0] == 43;
      var digits := if minus || plus then body[1..] else body;
      var value := ReadDigits(digits, 0);
      if digits == [] || !Digit(digits[0]) || (minus && value > 0) then ParseLastEventId(Some(text)) == 0
      else ParseLastEventId(Some(text)) == value + 1
    ensures ParseLastEventId(None) == 0
  {}

  // ---- The peer ------------------------------------------------------------

  datatype Follow = Follow(id: JobId, owner: PeerId)

  /** One response stream: what the route has written and what has arrived of it. */
  datatype Link = Link(sub: SubscriberId, written: seq<Frame>, arrived: seq<seq<Byte>>)

  /** `base` is what the peer had received before the current connection. */
  datatype World = World(m: Manager, base: seq<JobEvent>, link: Option<Link>)

  datatype Move =
    | Engine(step: Step)
    | Connect(sub: SubscriberId)
    | KeepAlive
    | Arrive(chunk: seq<Byte>)
    | Drop

  const START := World(EMPTY, [], None)

  function Got(codec: Codec, w: World): seq<JobEvent> {
    if w.link.None? then w.base else w.base + TakeChunks(codec, FRESH, w.link.value.arrived).events
  }

  function NextSeq(got: seq<JobEvent>): nat {
    if got == [] then 0 else Last(got).seqNo + 1
  }

  function Records(events: seq<JobEvent>): seq<Frame> {
    if events == [] then [] else Records(Init(events)) + [Record(Last(events))]
  }

  function Handed(m: Manager, id: JobId, sub: SubscriberId): seq<JobEvent> {
    if sub in m.Get(id).subscribers then m.Get(id).subscribers[sub].sent else []
  }

  /** The route writes every event its subscription is handed, as it is handed. */
  function Wrote(f: Follow, link: Link, m: Manager): Link {
    var sent, done := Handed(m, f.id, link.sub), |Events(link.written)|;
    link.(written := link.written + if done <= |sent| then Records(sent[done..]) else [])
  }

  function Sync(f: Follow, w: World, m: Manager): World {
    World(m, w.base, if w.link.None? then None else Some(Wrote(f, w.link.value, m)))
  }

  predicate CanConnect(f: Follow, w: World, sub: SubscriberId) {
    w.link.None? && w.m.Owns(f.id, f.owner) && sub !in w.m.Get(f.id).subscribers
  }

  predicate Streaming(f: Follow, w: World) {
    w.link.Some? && w.link.value.sub in w.m.Get(f.id).subscribers &&
    w.m.Get(f.id).subscribers[w.link.value.sub].live
  }

  /** A move the state does not allow changes nothing; an unknown or foreign job is
      answered with 404 and no stream. */
  function Next(l: Limits, codec: Codec, f: Follow, w: World, move: Move): World {
    match move
    case Engine(step) => Sync(f, w, Apply(l, w.m, step))
    case Connect(sub) =>
      if !CanConnect(f, w, sub) then w
      else
        var fromSeq := ParseLastEventId(ResumeHeader(NextSeq(w.base)));
        Sync(f, w.(link := Some(Link(sub, [], []))), Apply(l, w.m, Attach(f.id, f.owner, fromSeq, sub)))
    case KeepAlive =>
      if !Streaming(f, w) then w
      else w.(link := Some(w.link.value.(written := w.link.value.written + [Heartbeat])))
    case Arrive(chunk) =>
      if w.link.None? || !(Flatten(w.link.value.arrived) + chunk <= Encode(Wire(codec, w.link.value.written))) then w
      else w.(link := Some(w.link.value.(arrived := w.link.value.arrived + [chunk])))
    case Drop => World(w.m, Got(codec, w), None)
  }

  function Follows(l: Limits, codec: Codec, f: Follow, w: World, moves: seq<Move>): World {
    if moves == [] then w else Next(l, codec, f, Follows(l, codec, f, w, Init(moves)), Last(moves))
  }

  // ---- Invariant -----------------------------------------------------------

  ghost predicate LinkOk(codec: Codec, rec: JobRecord, base: seq<JobEvent>, link: Link) {
    link.sub in rec.subscribers && rec.subscribers[link.sub].start == |base| &&
    Events(link.written) == rec.subscribers[link.sub].sent &&
    ResultOnlyLast(link.written) && Flatten(link.arrived) <= Encode(Wire(codec, link.written))
  }

  ghost predicate WorldOk(l: Limits, codec: Codec, f: Follow, w: World) {
    Inv(l, w.m) &&
    (if f.id !in w.m.heap then w.base == [] && w.link == None
     else w.base <= w.m.heap[f.id].events &&
          (w.link.Some? ==> LinkOk(codec, w.m.heap[f.id], w.base, w.link.value)))
  }

  lemma {:induction false} EventsConcat(a: seq<Frame>, b: seq<Frame>)
    ensures Events(a + b) == Events(a) + Events(b)
    decreases |a|
  {
    if a == [] {
      assert a + b == b;
    } else {
      assert (a + b)[1..] == a[1..] + b;
      EventsConcat(a[1..], b);
      var first := if a[0].Record? then [a[0].event] else [];
      assert first + (Events(a[1..]) + Events(b)) == (first + Events(a[1..])) + Events(b);
    }
  }

  lemma {:induction false} EventsOfRecords(events: seq<JobEvent>)
    ensures Events(Records(events)) == events
    ensures |Records(events)| == |events| && forall i :: 0 <= i < |events| ==> Records(events)[i] == Record(events[i])
  {
    if events != [] {
      EventsOfRecords(Init(events));
      EventsConcat(Records(Init(events)), [Record(Last(events))]);
      assert [Record(Last(events))][1..] == [];
    }
  }

  lemma {:induction false} ResultsShow(frames: seq<Frame>)
    requires forall e :: e in Events(frames) ==> !e.body.ResultEvent?
    ensures forall i :: 0 <= i < |frames| ==> !IsResult(frames[i])
    decreases |frames|
  {
    if frames != [] {
      assert frames[0].Record? ==> Events(frames)[0] == frames[0].event;
      assert forall e :: e in Events(frames[1..]) ==> e in Events(frames);
      ResultsShow(frames[1..]);
      assert forall i :: 1 <= i < |frames| ==> frames[i] == frames[1..][i - 1];
    }
  }

  /** Everything a subscription has been handed is in the log where it says. */
  lemma SentIsLog(codec: Codec, id: JobId, rec: JobRecord, base: seq<JobEvent>, link: Link)
    requires RecordOk(id, rec) && LinkOk(codec, rec, base, link) && base <= rec.events
    ensures base + Events(link.written) <= rec.events
    ensures !rec.status.Terminal() ==> forall i :: 0 <= i < |link.written| ==> !IsResult(link.written[i])
    ensures rec.subscribers[link.sub].live ==> !rec.status.Terminal() && base + Events(link.written) == rec.events
  {
    hide Stamped, LogShape, CallsMatchStage;
    var sub := rec.subscribers[link.sub];
    assert InStep(rec.events, sub);
    assert base == rec.events[..|base|];
    assert base + sub.sent == rec.events[..sub.start + |sub.sent|];
    ResultIsLast(id, rec);
    if !rec.status.Terminal() {
      assert forall e :: e in sub.sent ==> e in rec.events;
      ResultsShow(link.written);
    }
  }

  /** The route keeps up with its subscription. */
  lemma WroteOk(codec: Codec, f: Follow, rec: JobRecord, next: JobRecord, base: seq<JobEvent>, link: Link, m: Manager)
    requires RecordOk(f.id, rec) && RecordOk(f.id, next) && Later(rec, next)
    requires LinkOk(codec, rec, base, link) && base <= rec.events
    requires f.id in m.heap && m.heap[f.id] == next
    ensures base <= next.events && LinkOk(codec, next, base, Wrote(f, link, m))
  {
    hide Wire, Encode, LogShape, CallsMatchStage, Stamped, Records, Events, SubscribersOk;
    var was, now := rec.subscribers[link.sub].sent, next.subscribers[link.sub].sent;
    var more := Records(now[|was|..]);
    EventsOfRecords(now[|was|..]);
    EventsConcat(link.written, more);
    assert was + now[|was|..] == now;
    WireConcat(codec, link.written, more);
    EncodeConcat(Wire(codec, link.written), Wire(codec, more));
    SentIsLog(codec, f.id, rec, base, link);
    WroteOrder(codec, f, rec, next, base, link, more);
  }

  lemma WroteOrder(codec: Codec, f: Follow, rec: JobRecord, next: JobRecord, base: seq<JobEvent>, link: Link, more: seq<Frame>)
    requires RecordOk(f.id, rec) && RecordOk(f.id, next) && Later(rec, next)
    requires LinkOk(codec, rec, base, link) && base <= rec.events
    requires var was, now := rec.subscribers[link.sub].sent, next.subscribers[link.sub].sent;
      |was| + |more| == |now| && forall i :: 0 <= i < |more| ==> more[i] == Record(now[|was| + i])
    ensures ResultOnlyLast(link.written + more)
  {
    hide LogShape, CallsMatchStage, Stamped, Events;
    if more == [] {
      assert link.written + more == link.written;
    } else {
      assert rec.subscribers[link.sub].live;
      SentIsLog(codec, f.id, rec, base, link);
      ResultIsLast(f.id, next);
      var was, sub := rec.subscribers[link.sub].sent, next.subscribers[link.sub];
      assert InStep(rec.events, rec.subscribers[link.sub]) && InStep(next.events, sub);
      forall i | 0 <= i < |more| - 1
        ensures !IsResult(more[i])
      {
        assert sub.sent[|was| + i] == next.events[sub.start + |was| + i];
      }
    }
  }

  lemma EngineOk(l: Limits, codec: Codec, f: Follow, w: World, step: Step)
    requires l.Valid() && WorldOk(l, codec, f, w)
    ensures WorldOk(l, codec, f, Sync(f, w, Apply(l, w.m, step)))
  {
    hide Inv, Apply, LinkOk, Wrote, RecordOk, Later;
    StepKeepsInv(l, w.m, step);
    StepAdvances(l, w.m, step);
    var m := Apply(l, w.m, step);
    if f.id in w.m.heap {
      RecordOfInv(l, w.m, f.id);
      RecordOfInv(l, m, f.id);
      assert Later(w.m.heap[f.id], m.heap[f.id]);
      if w.link.Some? {
        WroteOk(codec, f, w.m.heap[f.id], m.heap[f.id], w.base, w.link.value, m);
      } else {
        LaterExtends(w.m.heap[f.id], m.heap[f.id], w.base);
      }
    }
  }

  lemma LaterExtends(rec: JobRecord, next: JobRecord, base: seq<JobEvent>)
    requires Later(rec, next) && base <= rec.events
    ensures base <= next.events
  {}

  /** A peer that has an initial stretch of the log asks for exactly the rest of it. */
  lemma ResumePoint(id: JobId, events: seq<JobEvent>, base: seq<JobEvent>)
    requires Stamped(id, events) && base <= events
    ensures ParseLastEventId(ResumeHeader(NextSeq(base))) == |base|
  {
    ResumeReadsBack(NextSeq(base));
    assert base != [] ==> Last(base) == events[|base| - 1];
  }

  /** The stream just after connecting: the rest of the log has been written. */
  lemma ConnectOk(l: Limits, codec: Codec, f: Follow, w: World, sub: SubscriberId)
    requires l.Valid() && WorldOk(l, codec, f, w) && CanConnect(f, w, sub)
    ensures var n := Next(l, codec, f, w, Connect(sub));
      WorldOk(l, codec, f, n) && n.link.Some? && n.link.value.arrived == [] && n.base == w.base &&
      n.m.Get(f.id).events == w.m.Get(f.id).events &&
      w.base + Events(n.link.value.written) == w.m.Get(f.id).events
  {
    hide Inv, RecordOk, Wire, Encode, Events, Records, Subscribe, ParseLastEventId;
    var rec := w.m.heap[f.id];
    RecordOfInv(l, w.m, f.id);
    RecordParts(f.id, rec);
    ResumePoint(f.id, rec.events, w.base);
    var step := Attach(f.id, f.owner, |w.base|, sub);
    var m := Apply(l, w.m, step);
    StepKeepsInv(l, w.m, step);
    SubscribeReplays(f.id, rec, sub, |w.base|);
    var rest := rec.events[|w.base|..];
    assert m.heap[f.id].subscribers[sub] == Subscription(|w.base|, rest, !rec.status.Terminal());
    SubscribeKeepsLog(rec, sub, |w.base|);
    FreshLink(codec, sub, rest);
    var n := Next(l, codec, f, w, Connect(sub));
    assert rest[0..] == rest;
    assert n == World(m, w.base, Some(Link(sub, [] + Records(rest), [])));
    assert [] + Records(rest) == Records(rest);
    assert w.base + rest == rec.events;
    ReplayOrder(f.id, rec, |w.base|);
  }

  lemma RecordParts(id: JobId, rec: JobRecord)
    requires RecordOk(id, rec)
    ensures Stamped(id, rec.events)
  {}

  lemma SubscribeKeepsLog(rec: JobRecord, sub: SubscriberId, fromSeq: int)
    ensures Subscribe(rec, sub, fromSeq).events == rec.events
  {}

  lemma FreshLink(codec: Codec, sub: SubscriberId, rest: seq<JobEvent>)
    ensures Events(Records(rest)) == rest && |Events([])| == 0 && Flatten<Byte>([]) == []
  {
    EventsOfRecords(rest);
  }

  lemma ReplayOrder(id: JobId, rec: JobRecord, start: nat)
    requires RecordOk(id, rec) && start <= |rec.events|
    ensures ResultOnlyLast(Records(rec.events[start..]))
  {
    hide RecordOk, Records;
    ResultIsLast(id, rec);
    EventsOfRecords(rec.events[start..]);
  }

  lemma KeepAliveOk(l: Limits, codec: Codec, f: Follow, w: World)
    requires l.Valid() && WorldOk(l, codec, f, w) && Streaming(f, w)
    ensures WorldOk(l, codec, f, Next(l, codec, f, w, KeepAlive))
  {
    hide Inv, RecordOk, Wire, Encode, Events;
    var rec, link := w.m.heap[f.id], w.link.value;
    RecordOfInv(l, w.m, f.id);
    SentIsLog(codec, f.id, rec, w.base, link);
    EventsConcat(link.written, [Heartbeat]);
    HeartbeatIsSilent();
    assert Events(link.written) + [] == Events(link.written);
    WireConcat(codec, link.written, [Heartbeat]);
    EncodeConcat(Wire(codec, link.written), Wire(codec, [Heartbeat]));
  }

  lemma HeartbeatIsSilent()
    ensures Events([Heartbeat]) == []
  {}

  /** What has been parsed of a stream is an initial stretch of what was written. */
  lemma GotIsPrefix(l: Limits, codec: Codec, f: Follow, w: World)
    requires Faithful(codec) && WorldOk(l, codec, f, w)
    ensures if f.id in w.m.heap then Got(codec, w) <= w.m.heap[f.id].events else Got(codec, w) == []
  {
    hide Inv, RecordOk, Wire, Encode, Events, Faithful, TakeChunks;
    if w.link.Some? {
      var rec, link := w.m.heap[f.id], w.link.value;
      RecordOfInv(l, w.m, f.id);
      SentIsLog(codec, f.id, rec, w.base, link);
      CutStreamYieldsPrefix(codec, link.written, link.arrived);
      var parsed := TakeChunks(codec, FRESH, link.arrived).events;
      assert w.base + parsed <= w.base + Events(link.written);
    }
  }

  lemma ArriveOk(l: Limits, codec: Codec, f: Follow, w: World, chunk: seq<Byte>)
    requires WorldOk(l, codec, f, w)
    ensures WorldOk(l, codec, f, Next(l, codec, f, w, Arrive(chunk)))
  {
    hide Inv, Wire, Encode, Events;
    if w.link.Some? {
      var arrived := w.link.value.arrived;
      assert Init(arrived + [chunk]) == arrived && Last(arrived + [chunk]) == chunk;
    }
  }

  lemma NextOk(l: Limits, codec: Codec, f: Follow, w: World, move: Move)
    requires l.Valid() && Faithful(codec) && WorldOk(l, codec, f, w)
    ensures WorldOk(l, codec, f, Next(l, codec, f, w, move))
  {
    hide Inv, LinkOk, Faithful, Sync, Apply, CanConnect, Streaming, Got;
    match move
    case Engine(step) => EngineOk(l, codec, f, w, step);
    case Connect(sub) => if CanConnect(f, w, sub) { ConnectOk(l, codec, f, w, sub); }
    case KeepAlive => if Streaming(f, w) { KeepAliveOk(l, codec, f, w); }
    case Arrive(chunk) => ArriveOk(l, codec, f, w, chunk);
    case Drop => GotIsPrefix(l, codec, f, w);
  }

  lemma {:induction false} FollowsOk(l: Limits, codec: Codec, f: Follow, moves: seq<Move>)
    requires l.Valid() && Faithful(codec)
    ensures WorldOk(l, codec, f, Follows(l, codec, f, START, moves))
  {
    hide Inv, Next, Faithful;
    if moves == [] {
      EmptyInv(l);
    } else {
      FollowsOk(l, codec, f, Init(moves));
      NextOk(l, codec, f, Follows(l, codec, f, START, Init(moves)), Last(moves));
    }
  }

  // ---- Main results --------------------------------------------------------

  /** Over every run, with any connections, losses, heartbeats and cuts, oversized
      streams included: the peer has received exactly an initial stretch of the job's
      log, each event at its own sequence number; the result only as the end of all. */
  lemma PeerSeesTheLog(l: Limits, codec: Codec, f: Follow, moves: seq<Move>)
    requires l.Valid() && Faithful(codec)
    ensures var w := Follows(l, codec, f, START, moves);
      var got := Got(codec, w);
      (if f.id in w.m.heap then got <= w.m.heap[f.id].events else got == []) &&
      (forall i :: 0 <= i < |got| ==> got[i].seqNo == i && got[i].jobId == f.id) &&
      (got != [] && Last(got).body.ResultEvent? ==> got == w.m.Get(f.id).events && w.m.Get(f.id).status.Terminal())
  {
    var w := Follows(l, codec, f, START, moves);
    FollowsOk(l, codec, f, moves);
    hide Inv, RecordOk, LinkOk, Faithful, Got, Follows;
    GotIsPrefix(l, codec, f, w);
    if f.id in w.m.heap {
      var rec := w.m.heap[f.id];
      RecordOfInv(l, w.m, f.id);
      RecordParts(f.id, rec);
      ResultIsLast(f.id, rec);
      var got := Got(codec, w);
      assert forall i :: 0 <= i < |got| ==> got[i] == rec.events[i];
    }
  }

  /** While the stream is attached and all that was written has arrived, nothing of the
      log is missing. */
  lemma CaughtUp(l: Limits, codec: Codec, f: Follow, moves: seq<Move>)
    requires l.Valid() && Faithful(codec)
    requires var w := Follows(l, codec, f, START, moves);
      Streaming(f, w) && WithinCaps(codec, w.link.value.written) &&
      Flatten(w.link.value.arrived) == Encode(Wire(codec, w.link.value.written))
    ensures var w := Follows(l, codec, f, START, moves);
      Got(codec, w) == w.m.Get(f.id).events
  {
    var w := Follows(l, codec, f, START, moves);
    FollowsOk(l, codec, f, moves);
    hide Inv, RecordOk, Wire, Encode, Faithful, Follows, WithinCaps, TakeChunks;
    RecordOfInv(l, w.m, f.id);
    SentIsLog(codec, f.id, w.m.heap[f.id], w.base, w.link.value);
    ReadingUndoesWriting(codec, w.link.value.written, w.link.value.arrived);
  }

  /** Resuming always completes: whatever happened before, a peer that reconnects to a
      retained job and reads all that is then written holds the whole log. */
  lemma ResumingCompletes(l: Limits, codec: Codec, f: Follow, moves: seq<Move>, sub: SubscriberId, chunks: seq<seq<Byte>>)
    requires l.Valid() && Faithful(codec)
    requires var w := Follows(l, codec, f, START, moves);
      CanConnect(f, w, sub) &&
      var n := Next(l, codec, f, w, Connect(sub));
      n.link.Some? && WithinCaps(codec, n.link.value.written) &&
      Flatten(chunks) == Encode(Wire(codec, n.link.value.written))
    ensures var n := Next(l, codec, f, Follows(l, codec, f, START, moves), Connect(sub));
      Got(codec, n.(link := Some(n.link.value.(arrived := chunks)))) == n.m.Get(f.id).events
  {
    var w := Follows(l, codec, f, START, moves);
    FollowsOk(l, codec, f, moves);
    ConnectOk(l, codec, f, w, sub);
    var n := Next(l, codec, f, w, Connect(sub));
    hide Inv, RecordOk, Wire, Encode, Faithful, Follows, WithinCaps, TakeChunks, Next;
    ReadingUndoesWriting(codec, n.link.value.written, chunks);
  }
}
