/**
 Event streaming (pkg/events/event_streaming.go) as a state machine. One background routine adds each
 event to the ring buffer and then publishes it, under two different locks. A new stream registers,
 takes a history snapshot, and then bridges history and live events in its own routine. The steps
 below interleave in any order; a step that is not enabled changes nothing.
 */
module EventStreaming {
  import opened Resources
  import opened EventLog

  const CHANNEL_SIZE: nat := 1000

  datatype Phase = Registered | Bridging | Live | Closed

  /**
   One consumer: the "local" channel, the snapshot, the "seen" set, and what was sent to it so far
   (None is the nil that a closed channel yields). The last five fields
   record the history of the run: the first event id published to it, the next event id at the time
   of the snapshot, how many events entered and left the local channel, and how many nils were sent.
   */
  datatype Consumer<E> = Consumer(
    phase: Phase, count: nat, local: seq<E>, stopped: bool, history: seq<E>, sent: nat, seen: set<E>,
    received: seq<Option<E>>, start: nat, snapAt: nat, pushed: nat, popped: nat, nils: nat)

  datatype State<E> = State(log: Log<E>, published: nat, streams: map<nat, Consumer<E>>, active: set<nat>, closing: bool)

  datatype Action<E> =
    | AddEvent(event: E)           // eventBuffer.Add in the event handler
    | Publish                      // streaming.PublishEvent in the event handler
    | ResizeBuffer(size: nat)      // config reload
    | Register(stream: nat, count: nat)
    | Snapshot(stream: nat)
    | SendHistory(stream: nat)
    | StartLive(stream: nat)
    | Forward(stream: nat)
    | ForwardNil(stream: nat)      // receive on a closed and drained channel
    | Exit(stream: nat)
    | Remove(stream: nat)
    | Close

  function Initial<E>(capacity: nat): State<E> {
    State(Empty(capacity), 0, map[], {}, false)
  }

  // ---------- the consumer's own steps ----------

  function NewConsumer<E>(count: nat, start: nat): Consumer<E> {
    Consumer(Registered, count, [], false, [], 0, {}, [], start, 0, 0, 0, 0)
  }

  /** An event enters the local channel; a full channel means the consumer is removed. */
  function Deliver<E>(c: Consumer<E>, e: E): Consumer<E> {
    if |c.local| == CHANNEL_SIZE then c.(stopped := true) else c.(local := c.local + [e], pushed := c.pushed + 1)
  }

  function TakeSnapshot<E>(c: Consumer<E>, log: Log<E>): Consumer<E>
    requires log.Valid()
  {
    var recent := RecentEvents(log, c.count);
    c.(phase := Bridging, history := if recent.Some? then recent.value else [], snapAt := |log.events|)
  }

  function SendOne<E(==)>(c: Consumer<E>): Consumer<E>
    requires c.sent < |c.history|
  {
    var e := c.history[c.sent];
    c.(received := c.received + [Some(e)], seen := c.seen + {e}, sent := c.sent + 1)
  }

  /** Events already sent as history are dropped. The first other event ends the search for duplicates. */
  function ForwardOne<E(==)>(c: Consumer<E>): Consumer<E>
    requires c.local != []
  {
    var e := c.local[0];
    var popped := c.(local := c.local[1..], popped := c.popped + 1);
    if e in c.seen then popped else popped.(seen := {}, received := c.received + [Some(e)])
  }

  function ForwardClosed<E>(c: Consumer<E>): Consumer<E> {
    c.(seen := {}, received := c.received + [None], nils := c.nils + 1)
  }

  /** A step of the consumer's own routine. */
  function ConsumerNext<E(==)>(s: State<E>, c: Consumer<E>, a: Action<E>): Consumer<E>
    requires s.log.Valid()
  {
    match (a, c.phase)
    case (Snapshot(_), Registered) => TakeSnapshot(c, s.log)
    case (SendHistory(_), Bridging) => if c.sent < |c.history| then SendOne(c) else c
    case (StartLive(_), Bridging) => if c.sent == |c.history| then c.(phase := Live) else c
    case (Forward(_), Live) => if c.local != [] then ForwardOne(c) else c
    case (ForwardNil(_), Live) => if c.local == [] && c.stopped then ForwardClosed(c) else c
    case (Exit(_), Live) => if c.stopped || s.closing then c.(phase := Closed) else c
    case _ => c
  }

  function With<E>(s: State<E>, i: nat, c: Consumer<E>): State<E> {
    s.(streams := s.streams[i := c])
  }

  function PublishNext<E>(s: State<E>): State<E>
    requires s.published < |s.log.events| && s.active <= s.streams.Keys
  {
    var e := s.log.events[s.published];
    var streams := map i | i in s.streams :: if i in s.active then Deliver(s.streams[i], e) else s.streams[i];
    s.(published := s.published + 1,
       streams := streams,
       active := set i | i in s.active && |s.streams[i].local| != CHANNEL_SIZE)
  }

  function Next<E(==)>(s: State<E>, a: Action<E>): State<E>
    requires s.log.Valid() && s.active <= s.streams.Keys
  {
    match a
    case AddEvent(e) =>
      if s.published == |s.log.events| && e !in s.log.events then s.(log := Append(s.log, e)) else s
    case Publish =>
      if s.published < |s.log.events| then PublishNext(s) else s
    case ResizeBuffer(size) =>
      if size > 0 then s.(log := Resized(s.log, size)) else s
    case Register(i, count) =>
      if i !in s.streams then With(s, i, NewConsumer(count, s.published)).(active := s.active + {i}) else s
    case Remove(i) =>
      if i in s.active
      then With(s, i, s.streams[i].(stopped := true)).(active := s.active - {i}) else s
    case Close => s.(closing := true)
    case _ =>
      if a.stream in s.streams then With(s, a.stream, ConsumerNext(s, s.streams[a.stream], a)) else s
  }

  // ---------- the invariant ----------

  ghost predicate Distinct<E>(events: seq<E>) {
    forall i, j | 0 <= i < j < |events| :: events[i] != events[j]
  }

  function Somes<E>(events: seq<E>): (r: seq<Option<E>>)
    ensures |r| == |events| && forall i | 0 <= i < |r| :: r[i] == Some(events[i])
  {
    seq(|events|, i requires 0 <= i < |events| => Some(events[i]))
  }

  function Nils<E>(n: nat): (r: seq<Option<E>>)
    ensures |r| == n && forall i | 0 <= i < n :: r[i] == None
  {
    seq(n, _ => None)
  }

  /** The id of the first history event, or of the next event if there is no history. */
  function HistoryStart<E>(c: Consumer<E>): int {
    c.snapAt - |c.history|
  }

  /** The history is empty or reaches back to the first event that was published to the stream. */
  predicate Covers<E>(c: Consumer<E>) {
    c.history == [] || HistoryStart(c) <= c.start
  }

  /** The first id that the live part has to forward. */
  function LiveStart<E>(c: Consumer<E>): nat {
    if c.history == [] then c.start else c.snapAt
  }

  /** The number of events taken from the channel, as an id. */
  function Done<E>(c: Consumer<E>): nat {
    c.start + c.popped
  }

  /** The channel holds exactly the published events that were not taken yet. */
  ghost predicate LocalInv<E>(events: seq<E>, published: nat, c: Consumer<E>, active: bool) {
    && c.popped <= c.pushed && c.start + c.pushed <= published <= |events|
    && (if active then c.start + c.pushed == published && !c.stopped else c.stopped)
    && c.local == events[Done(c)..c.start + c.pushed]
    && (c.nils > 0 ==> c.stopped && c.local == [])
  }

  ghost predicate SnapshotInv<E>(events: seq<E>, c: Consumer<E>) {
    && c.start <= c.snapAt <= |events| && |c.history| <= c.snapAt && c.sent <= |c.history|
    && c.history == events[HistoryStart(c)..c.snapAt]
  }

  function Set<E>(events: seq<E>): set<E> {
    set e | e in events
  }

  ghost predicate BridgeInv<E>(c: Consumer<E>)
    requires c.sent <= |c.history|
  {
    && c.popped == 0 && c.nils == 0
    && c.received == Somes(c.history[..c.sent])
    && c.seen == Set(c.history[..c.sent])
  }

  /** What a covered live stream has received: history, then live events, then nils of a stopped stream. */
  ghost predicate CoveredInv<E>(events: seq<E>, c: Consumer<E>)
    requires LiveStart(c) <= |events| && Done(c) <= |events|
  {
    && c.received == Somes(c.history) + Somes(events[LiveStart(c)..Max(LiveStart(c), Done(c))]) + Nils(c.nils)
    && c.seen <= Set(c.history)
    && (c.nils == 0 && Done(c) <= LiveStart(c) ==> c.seen == Set(c.history))
  }

  /** An uncovered live stream sends the first local event after the whole, later, history. */
  ghost predicate UncoveredInv<E>(events: seq<E>, c: Consumer<E>) {
    && (c.popped == 0 ==> c.received == Somes(c.history) + Nils(c.nils) && (c.nils == 0 ==> c.seen == Set(c.history)))
    && (c.popped > 0 ==>
          && c.start < |events| && |c.received| > |c.history|
          && c.received[..|c.history|] == Somes(c.history) && c.received[|c.history|] == Some(events[c.start]))
  }

  ghost predicate StreamInv<E>(events: seq<E>, published: nat, c: Consumer<E>, active: bool) {
    && LocalInv(events, published, c, active)
    && match c.phase
       case Registered => c == NewConsumer(c.count, c.start).(local := c.local, stopped := c.stopped, pushed := c.pushed)
       case Bridging => SnapshotInv(events, c) && BridgeInv(c)
       case _ =>
         && SnapshotInv(events, c) && c.sent == |c.history|
         && (if Covers(c) then CoveredInv(events, c) else UncoveredInv(events, c))
  }

  ghost predicate Inv<E>(s: State<E>) {
    && s.log.Valid() && Distinct(s.log.events)
    && s.published <= |s.log.events| <= s.published + 1
    && s.active <= s.streams.Keys
    && forall i | i in s.streams :: StreamInv(s.log.events, s.published, s.streams[i], i in s.active)
  }

  // ---------- every step keeps the invariant ----------

  lemma AppendKeeps<E>(events: seq<E>, e: E, published: nat, c: Consumer<E>, active: bool)
    requires StreamInv(events, published, c, active)
    ensures StreamInv(events + [e], published, c, active)
  {
    var more := events + [e];
    assert more[Done(c)..c.start + c.pushed] == events[Done(c)..c.start + c.pushed];
    if !c.phase.Registered? {
      assert more[HistoryStart(c)..c.snapAt] == events[HistoryStart(c)..c.snapAt];
      var lo := LiveStart(c);
      assert more[lo..Max(lo, Done(c))] == events[lo..Max(lo, Done(c))];
    }
  }

  /** The channel fields do not matter for what was received. */
  lemma ChannelFree<E>(events: seq<E>, c: Consumer<E>, d: Consumer<E>)
    requires c == d.(local := c.local, pushed := c.pushed, stopped := c.stopped)
    requires SnapshotInv(events, c) && (if Covers(c) then Done(c) <= |events| && CoveredInv(events, c) else UncoveredInv(events, c))
    ensures SnapshotInv(events, d) && (if Covers(d) then CoveredInv(events, d) else UncoveredInv(events, d))
  {
    if Covers(c) {
      var part := Somes(events[LiveStart(c)..Max(LiveStart(c), Done(c))]);
      assert d.received == Somes(d.history) + part + Nils(d.nils);
    }
  }

  lemma DeliverLocal<E>(events: seq<E>, published: nat, c: Consumer<E>)
    requires published < |events| && LocalInv(events, published, c, true)
    ensures LocalInv(events, published + 1, Deliver(c, events[published]), |c.local| != CHANNEL_SIZE)
  {
    if |c.local| != CHANNEL_SIZE {
      assert events[Done(c)..published + 1] == events[Done(c)..published] + [events[published]];
    }
  }

  lemma DeliverKeeps<E>(events: seq<E>, published: nat, c: Consumer<E>)
    requires published < |events| && StreamInv(events, published, c, true)
    ensures StreamInv(events, published + 1, Deliver(c, events[published]), |c.local| != CHANNEL_SIZE)
  {
    DeliverLocal(events, published, c);
    var d := Deliver(c, events[published]);
    assert LocalInv(events, published, c, true);
    hide LocalInv, CoveredInv, UncoveredInv, Somes, Set;
    match c.phase
    case Registered =>
    case Bridging => assert BridgeInv(d) && SnapshotInv(events, d);
    case _ =>
      assert Done(c) <= |events| by { DoneInLog(events, published, c, true); }
      ChannelFree(events, c, d);
  }

  lemma DoneInLog<E>(events: seq<E>, published: nat, c: Consumer<E>, active: bool)
    requires LocalInv(events, published, c, active)
    ensures Done(c) <= c.start + c.pushed <= published <= |events|
  {
  }

  /** The history is a tail of the log. */
  lemma SnapshotHistory<E>(log: Log<E>, c: Consumer<E>)
    requires log.Valid()
    ensures var n, h := |log.events|, TakeSnapshot(c, log).history; |h| <= n && h == log.events[n - |h|..n]
  {
    hide RecentEvents;
    RecentEventsCases(log, c.count);
  }

  lemma SnapshotKeeps<E>(log: Log<E>, published: nat, c: Consumer<E>, active: bool)
    requires log.Valid() && c.phase.Registered? && StreamInv(log.events, published, c, active)
    ensures StreamInv(log.events, published, TakeSnapshot(c, log), active)
  {
    SnapshotHistory(log, c);
    var d := TakeSnapshot(c, log);
    hide RecentEvents, CoveredInv, UncoveredInv;
    assert c.popped == 0 && c.nils == 0 && c.received == [] && c.seen == {} && c.sent == 0;
    NothingSent(d.history);
    hide Somes, Set;
    assert LocalInv(log.events, published, d, active);
    assert BridgeInv(d) && SnapshotInv(log.events, d);
  }

  lemma NothingSent<E>(history: seq<E>)
    ensures Somes(history[..0]) == [] && Set(history[..0]) == {}
  {
  }

  lemma SendKeeps<E>(events: seq<E>, published: nat, c: Consumer<E>, active: bool)
    requires c.phase.Bridging? && StreamInv(events, published, c, active) && c.sent < |c.history|
    ensures StreamInv(events, published, SendOne(c), active)
  {
    assert c.history[..c.sent + 1] == c.history[..c.sent] + [c.history[c.sent]];
  }

  lemma StartLiveKeeps<E>(events: seq<E>, published: nat, c: Consumer<E>, active: bool)
    requires c.phase.Bridging? && StreamInv(events, published, c, active) && c.sent == |c.history|
    ensures StreamInv(events, published, c.(phase := Live), active)
  {
    assert c.history[..c.sent] == c.history;
    if Covers(c) {
      assert Somes(events[LiveStart(c)..LiveStart(c)]) == [];
    }
  }

  /** An event from before the snapshot is in the history of a covered stream; a later one is not. */
  lemma HistoryMembers<E>(events: seq<E>, c: Consumer<E>, i: nat)
    requires Distinct(events) && SnapshotInv(events, c) && i < |events|
    ensures events[i] in c.history <==> HistoryStart(c) <= i < c.snapAt
  {
    if HistoryStart(c) <= i < c.snapAt {
      assert c.history[i - HistoryStart(c)] == events[i];
    }
    if events[i] in c.history {
      var j :| 0 <= j < |c.history| && c.history[j] == events[i];
      assert events[HistoryStart(c) + j] == events[i];
    }
  }

  /** An event from before the live part was sent as history and is dropped. */
  lemma DropsDuplicate<E>(events: seq<E>, c: Consumer<E>)
    requires Distinct(events) && SnapshotInv(events, c) && Covers(c) && Done(c) < LiveStart(c)
    requires c.local != [] && c.local[0] == events[Done(c)] && c.nils == 0 && CoveredInv(events, c)
    ensures CoveredInv(events, ForwardOne(c))
  {
    HistoryMembers(events, c, Done(c));
    hide Somes, Distinct;
  }

  lemma LaterIsNotSeen<E>(events: seq<E>, c: Consumer<E>)
    requires Distinct(events) && SnapshotInv(events, c) && LiveStart(c) <= Done(c) < |events| && c.seen <= Set(c.history)
    ensures events[Done(c)] !in c.seen
  {
    HistoryMembers(events, c, Done(c));
    hide Distinct;
  }

  /** Any later event is new and is forwarded. */
  lemma ForwardsNew<E>(events: seq<E>, c: Consumer<E>)
    requires Distinct(events) && SnapshotInv(events, c) && Covers(c) && LiveStart(c) <= Done(c) < |events|
    requires c.local != [] && c.local[0] == events[Done(c)] && c.nils == 0 && CoveredInv(events, c)
    ensures CoveredInv(events, ForwardOne(c))
  {
    hide Distinct, SnapshotInv, Somes, Nils, Set;
    LaterIsNotSeen(events, c);
    SomesOneMore(events, LiveStart(c), Done(c));
    JoinAtEnd(Somes(c.history), Somes(events[LiveStart(c)..Done(c)]), Nils(0), Some(events[Done(c)]));
  }

  /** Appending behind an empty end is appending before it. */
  lemma JoinAtEnd<T>(a: seq<T>, b: seq<T>, end: seq<T>, x: T)
    requires end == []
    ensures a + b + end + [x] == a + (b + [x]) + end
  {
  }

  lemma SomesOneMore<E>(events: seq<E>, from: nat, to: nat)
    requires from <= to < |events|
    ensures Somes(events[from..to + 1]) == Somes(events[from..to]) + [Some(events[to])]
  {
    assert events[from..to + 1] == events[from..to] + [events[to]];
  }

  lemma ForwardKeepsCovered<E>(events: seq<E>, c: Consumer<E>)
    requires Distinct(events) && SnapshotInv(events, c) && Covers(c)
    requires Done(c) < |events| && c.local != [] && c.local[0] == events[Done(c)] && c.nils == 0
    requires CoveredInv(events, c)
    ensures CoveredInv(events, ForwardOne(c))
  {
    hide CoveredInv, SnapshotInv, Distinct;
    if Done(c) < LiveStart(c) {
      DropsDuplicate(events, c);
    } else {
      ForwardsNew(events, c);
    }
  }

  lemma ForwardKeepsUncovered<E>(events: seq<E>, c: Consumer<E>)
    requires Distinct(events) && SnapshotInv(events, c) && !Covers(c)
    requires Done(c) < |events| && c.local != [] && c.local[0] == events[Done(c)] && c.nils == 0
    requires UncoveredInv(events, c)
    ensures UncoveredInv(events, ForwardOne(c))
  {
    HistoryMembers(events, c, Done(c));
  }

  lemma ForwardLocal<E>(events: seq<E>, published: nat, c: Consumer<E>, active: bool)
    requires LocalInv(events, published, c, active) && c.local != []
    ensures LocalInv(events, published, ForwardOne(c), active)
    ensures Done(c) < |events| && c.local[0] == events[Done(c)] && c.nils == 0
  {
    assert c.local[1..] == events[Done(c) + 1..c.start + c.pushed];
  }

  lemma ForwardSnapshot<E>(events: seq<E>, c: Consumer<E>)
    requires SnapshotInv(events, c) && c.local != []
    ensures var d := ForwardOne(c);
            SnapshotInv(events, d) && Covers(d) == Covers(c) && d.phase == c.phase && d.sent == c.sent && d.history == c.history
  {
  }

  lemma ForwardKeeps<E>(events: seq<E>, published: nat, c: Consumer<E>, active: bool)
    requires Distinct(events) && c.phase.Live? && StreamInv(events, published, c, active) && c.local != []
    ensures StreamInv(events, published, ForwardOne(c), active)
  {
    ForwardLocal(events, published, c, active);
    ForwardSnapshot(events, c);
    hide CoveredInv, UncoveredInv, BridgeInv, LocalInv, SnapshotInv, Distinct, ForwardOne, Covers;
    if Covers(c) {
      ForwardKeepsCovered(events, c);
    } else {
      ForwardKeepsUncovered(events, c);
    }
  }

  lemma ForwardNilKeeps<E>(events: seq<E>, published: nat, c: Consumer<E>, active: bool)
    requires c.phase.Live? && StreamInv(events, published, c, active) && c.local == [] && c.stopped
    ensures StreamInv(events, published, ForwardClosed(c), active)
  {
    if Covers(c) {
      NilJoins(events, published, c, active);
    }
    hide Somes, Nils, Set, BridgeInv, CoveredInv;
  }

  lemma NilJoins<E>(events: seq<E>, published: nat, c: Consumer<E>, active: bool)
    requires LocalInv(events, published, c, active) && SnapshotInv(events, c) && Covers(c) && CoveredInv(events, c)
    ensures CoveredInv(events, ForwardClosed(c))
  {
    hide Somes, Set;
    var a, b := Somes(c.history), Somes(events[LiveStart(c)..Max(LiveStart(c), Done(c))]);
    assert Nils<E>(c.nils + 1) == Nils<E>(c.nils) + [None];
    assert a + b + Nils(c.nils) + [None] == a + b + (Nils(c.nils) + [None]);
  }

  lemma RegisterKeeps<E>(events: seq<E>, published: nat, count: nat)
    requires published <= |events|
    ensures StreamInv(events, published, NewConsumer(count, published), true)
  {
  }

  lemma RemoveKeeps<E>(events: seq<E>, published: nat, c: Consumer<E>)
    requires StreamInv(events, published, c, true)
    ensures StreamInv(events, published, c.(stopped := true), false)
  {
  }

  lemma IdleKeeps<E>(events: seq<E>, published: nat, c: Consumer<E>)
    requires StreamInv(events, published, c, false) && published < |events|
    ensures StreamInv(events, published + 1, c, false)
  {
  }

  lemma ExitKeeps<E>(events: seq<E>, published: nat, c: Consumer<E>, active: bool)
    requires StreamInv(events, published, c, active) && c.phase.Live?
    ensures StreamInv(events, published, c.(phase := Closed), active)
  {
  }

  lemma OthersKeep<E>(s: State<E>, i: nat, c: Consumer<E>, active: set<nat>)
    requires Inv(s) && StreamInv(s.log.events, s.published, c, i in active)
    requires active <= s.streams.Keys + {i}
    requires forall j | j in s.streams && j != i :: j in active <==> j in s.active
    ensures Inv(With(s, i, c).(active := active))
  {
    hide StreamInv;
  }

  lemma PublishKeeps<E>(s: State<E>)
    requires Inv(s) && s.published < |s.log.events|
    ensures Inv(PublishNext(s))
  {
    hide StreamInv;
    var after := PublishNext(s);
    forall i | i in after.streams
      ensures StreamInv(after.log.events, after.published, after.streams[i], i in after.active)
    {
      if i in s.active {
        DeliverKeeps(s.log.events, s.published, s.streams[i]);
      } else {
        IdleKeeps(s.log.events, s.published, s.streams[i]);
      }
    }
  }

  lemma NextKeeps<E>(s: State<E>, a: Action<E>)
    requires Inv(s)
    ensures Inv(Next(s, a))
  {
    hide StreamInv;
    match a
    case AddEvent(e) =>
      if s.published == |s.log.events| && e !in s.log.events {
        AppendValid(s.log, e);
        forall i | i in s.streams
          ensures StreamInv(s.log.events + [e], s.published, s.streams[i], i in s.active)
        {
          AppendKeeps(s.log.events, e, s.published, s.streams[i], i in s.active);
        }
      }
    case Publish =>
      if s.published < |s.log.events| {
        PublishKeeps(s);
      }
    case ResizeBuffer(size) =>
      if size > 0 {
        ResizedValid(s.log, size);
      }
    case Register(i, count) =>
      if i !in s.streams {
        RegisterKeeps(s.log.events, s.published, count);
        OthersKeep(s, i, NewConsumer(count, s.published), s.active + {i});
      }
    case Remove(i) =>
      if i in s.active {
        RemoveKeeps(s.log.events, s.published, s.streams[i]);
        OthersKeep(s, i, s.streams[i].(stopped := true), s.active - {i});
      }
    case Close =>
    case _ =>
      if a.stream in s.streams {
        ConsumerNextKeeps(s, a.stream, a);
        OthersKeep(s, a.stream, ConsumerNext(s, s.streams[a.stream], a), s.active);
      }
  }

  lemma ConsumerNextKeeps<E>(s: State<E>, i: nat, a: Action<E>)
    requires Inv(s) && i in s.streams
    ensures StreamInv(s.log.events, s.published, ConsumerNext(s, s.streams[i], a), i in s.active)
  {
    hide StreamInv, TakeSnapshot, SendOne, ForwardOne, ForwardClosed;
    var c, events, active := s.streams[i], s.log.events, i in s.active;
    match (a, c.phase)
    case (Snapshot(_), Registered) => SnapshotKeeps(s.log, s.published, c, active);
    case (SendHistory(_), Bridging) => if c.sent < |c.history| { SendKeeps(events, s.published, c, active); }
    case (StartLive(_), Bridging) => if c.sent == |c.history| { StartLiveKeeps(events, s.published, c, active); }
    case (Forward(_), Live) => if c.local != [] { ForwardKeeps(events, s.published, c, active); }
    case (ForwardNil(_), Live) =>
      if c.local == [] && c.stopped { ForwardNilKeeps(events, s.published, c, active); }
    case (Exit(_), Live) => if c.stopped || s.closing { ExitKeeps(events, s.published, c, active); }
    case _ =>
  }

  // ---------- whole runs ----------

  /** The state after a sequence of steps in any order. The invariant holds in every such state. */
  function Run<E>(capacity: nat, actions: seq<Action<E>>): (s: State<E>)
    requires capacity > 0
    ensures Inv(s)
    decreases |actions|
  {
    if actions == [] then
      Initial(capacity)
    else
      var before := Run(capacity, actions[..|actions| - 1]);
      NextKeeps(before, actions[|actions| - 1]);
      Next(before, actions[|actions| - 1])
  }

  /**
   In every run a covered stream has received a gap-free, duplicate-free, in-order part of the log that
   starts no later than its first live event, and exactly there if it has no history. After a stop it
   may have received nils behind it. A running stream with a drained channel has received everything
   that was published.
   */
  lemma CoveredStreamIsInOrder<E>(capacity: nat, actions: seq<Action<E>>, i: nat)
    returns (from: nat, to: nat, nils: nat)
    requires capacity > 0
    requires var s := Run(capacity, actions);
             i in s.streams && !s.streams[i].phase.Registered? && Covers(s.streams[i])
    ensures var s := Run(capacity, actions);
            var c := s.streams[i];
            && from <= to <= |s.log.events|
            && c.received == Somes(s.log.events[from..to]) + Nils(nils)
            && (nils > 0 ==> c.stopped)
            && from <= c.start && (c.history == [] ==> from == c.start)
            && (c.phase.Live? && i in s.active && c.local == [] ==> to == Max(s.published, LiveStart(c)))
  {
    var s := Run(capacity, actions);
    var c := s.streams[i];
    from, to, nils := ReceivedRange(s.log.events, s.published, c, i in s.active);
  }

  lemma ReceivedRange<E>(events: seq<E>, published: nat, c: Consumer<E>, active: bool)
    returns (from: nat, to: nat, nils: nat)
    requires StreamInv(events, published, c, active) && !c.phase.Registered? && Covers(c)
    ensures from <= to <= |events| && c.received == Somes(events[from..to]) + Nils(nils)
    ensures nils > 0 ==> c.stopped
    ensures from <= c.start && from == if c.history == [] then c.start else HistoryStart(c)
    ensures c.phase.Live? && active && c.local == [] ==> to == Max(published, LiveStart(c))
  {
    hide Somes, Nils;
    from := if c.history == [] then c.start else HistoryStart(c);
    nils := c.nils;
    if c.phase.Bridging? {
      to := from + c.sent;
      if c.history != [] {
        SlicePrefix(events, from, c.snapAt, c.sent);
      }
      SomesAndNone(events[from..to]);
    } else {
      to := Max(LiveStart(c), Done(c));
      if c.history != [] {
        SomesJoined(events, from, LiveStart(c), to);
      } else {
        NoneAndSomes(events[from..to]);
      }
    }
  }

  lemma SlicePrefix<E>(events: seq<E>, from: nat, to: nat, n: nat)
    requires from + n <= to <= |events|
    ensures events[from..to][..n] == events[from..from + n]
  {
  }

  lemma SomesJoined<E>(events: seq<E>, from: nat, mid: nat, to: nat)
    requires from <= mid <= to <= |events|
    ensures Somes(events[from..to]) == Somes(events[from..mid]) + Somes(events[mid..to])
  {
    assert events[from..to] == events[from..mid] + events[mid..to];
  }

  lemma SomesAndNone<E>(events: seq<E>)
    ensures Somes(events) + Nils(0) == Somes(events)
  {
  }

  lemma NoneAndSomes<E>(events: seq<E>)
    ensures Somes<E>([]) + Somes(events) == Somes(events)
  {
  }

  /**
   The condition is exact: once a stream that is not covered has forwarded an event, it has not
   received a contiguous part of the log.
   */
  lemma UncoveredStreamIsNot<E>(capacity: nat, actions: seq<Action<E>>, i: nat, from: nat, to: nat, nils: nat)
    requires capacity > 0
    requires var s := Run(capacity, actions);
             && i in s.streams && s.streams[i].popped > 0 && !Covers(s.streams[i])
             && from <= to <= |s.log.events|
    ensures var s := Run(capacity, actions);
            s.streams[i].received != Somes(s.log.events[from..to]) + Nils(nils)
  {
    var s := Run(capacity, actions);
    NotContiguous(s.log.events, s.published, s.streams[i], i in s.active, from, to, nils);
  }

  lemma NotContiguous<E>(events: seq<E>, published: nat, c: Consumer<E>, active: bool, from: nat, to: nat, nils: nat)
    requires Distinct(events) && StreamInv(events, published, c, active) && c.popped > 0 && !Covers(c)
    requires from <= to <= |events|
    ensures c.received != Somes(events[from..to]) + Nils(nils)
  {
    var n, part := |c.history|, Somes(events[from..to]) + Nils(nils);
    assert c.received[n - 1] == c.received[..n][n - 1] == Some(events[c.snapAt - 1]);
    if |part| > n && part[n].Some? {
      assert part[n - 1] == Some(events[from + n - 1]) && part[n] == Some(events[from + n]);
    }
  }

  /** Whether a snapshot covers the stream, in terms of the requested count and the buffer. */
  lemma SnapshotCoversIff<E>(log: Log<E>, published: nat, c: Consumer<E>, active: bool)
    requires log.Valid() && c.phase.Registered? && StreamInv(log.events, published, c, active)
    ensures Covers(TakeSnapshot(c, log))
            <==> c.count == 0 || |log.events| - c.start <= c.count || c.count > |log.Window()|
  {
    hide RecentEvents, EventsFromId;
    RecentEventsCases(log, c.count);
  }

  // ---------- the history that was asked for ----------

  /** How many past events a request for count events gets: as many, or all if nothing was ever dropped, or none. */
  function HistoryLength<E>(log: Log<E>, count: nat): (n: nat)
    requires log.low <= |log.events|
    ensures n <= |log.events|
  {
    if count <= |log.events| - log.low then count
    else if log.low == 0 then |log.events|
    else 0
  }

  lemma SnapshotLength<E>(c: Consumer<E>, log: Log<E>)
    requires log.Valid()
    ensures var n := HistoryLength(log, c.count);
            TakeSnapshot(c, log).history == log.events[|log.events| - n..]
    ensures var d := TakeSnapshot(c, log); d.start == c.start && d.snapAt == |log.events| && d.phase.Bridging?
  {
    hide RecentEvents;
    RecentEventsCases(log, c.count);
  }

  /** What a stream keeps once it has its snapshot. */
  ghost predicate SameHistory<E>(c: Consumer<E>, d: Consumer<E>) {
    !d.phase.Registered? && d.history == c.history && d.snapAt == c.snapAt && d.start == c.start
  }

  lemma ConsumerKeepsHistory<E>(s: State<E>, c: Consumer<E>, a: Action<E>)
    requires s.log.Valid() && !c.phase.Registered?
    ensures SameHistory(c, ConsumerNext(s, c, a))
  {
  }

  lemma StepKeepsHistory<E>(s: State<E>, a: Action<E>, i: nat)
    requires Inv(s) && i in s.streams && !s.streams[i].phase.Registered?
    ensures var t := Next(s, a); i in t.streams && SameHistory(s.streams[i], t.streams[i]) && s.log.events <= t.log.events
  {
    hide StreamInv, ConsumerNext;
    ConsumerKeepsHistory(s, s.streams[i], a);
  }

  lemma RunOneMore<E>(capacity: nat, actions: seq<Action<E>>, a: Action<E>)
    requires capacity > 0
    ensures Run(capacity, actions + [a]) == Next(Run(capacity, actions), a)
  {
    assert (actions + [a])[..|actions|] == actions;
  }

  lemma {:induction false} AfterSnapshot<E>(capacity: nat, before: seq<Action<E>>, i: nat, after: seq<Action<E>>)
    requires capacity > 0
    requires var s := Run(capacity, before); i in s.streams && s.streams[i].phase.Registered?
    ensures var s, t := Run(capacity, before), Run(capacity, before + [Snapshot(i)] + after);
            && i in t.streams && SameHistory(TakeSnapshot(s.streams[i], s.log), t.streams[i])
            && s.log.events <= t.log.events
    decreases |after|
  {
    hide Run, Inv, TakeSnapshot, Next;
    var s := Run(capacity, before);
    if after == [] {
      assert before + [Snapshot(i)] + [] == before + [Snapshot(i)];
      RunOneMore(capacity, before, Snapshot(i));
      SnapshotStep(s, i);
    } else {
      var n := |after| - 1;
      var all := before + [Snapshot(i)] + after[..n];
      assert before + [Snapshot(i)] + after == all + [after[n]];
      AfterSnapshot(capacity, before, i, after[..n]);
      RunOneMore(capacity, all, after[n]);
      StepKeepsHistory(Run(capacity, all), after[n], i);
    }
  }

  lemma SnapshotStep<E>(s: State<E>, i: nat)
    requires Inv(s) && i in s.streams && s.streams[i].phase.Registered?
    ensures var t := Next(s, Snapshot(i));
            i in t.streams && t.log == s.log && SameHistory(TakeSnapshot(s.streams[i], s.log), t.streams[i])
  {
    hide RecentEvents;
  }

  /**
   Whatever happens before and after: from the snapshot on the stream receives the history it asked for
   first, and all of it before anything else. The length is the count, or everything if more was asked
   for than is stored and nothing was ever dropped, or nothing.
   */
  lemma HistoryComesFirst<E>(capacity: nat, before: seq<Action<E>>, i: nat, after: seq<Action<E>>)
    requires capacity > 0
    requires var s := Run(capacity, before); i in s.streams && s.streams[i].phase.Registered?
    ensures var s, t := Run(capacity, before), Run(capacity, before + [Snapshot(i)] + after);
            var n, end := HistoryLength(s.log, s.streams[i].count), |s.log.events|;
            && i in t.streams
            && var c := t.streams[i];
            && (|c.received| <= n ==> c.received == Somes(s.log.events[end - n..end - n + |c.received|]))
            && (|c.received| >= n ==> c.received[..n] == Somes(s.log.events[end - n..]))
            && (c.phase.Live? || c.phase.Closed? ==> |c.received| >= n)
  {
    hide Run, TakeSnapshot, StreamInv, Somes, HistoryLength;
    var s, t := Run(capacity, before), Run(capacity, before + [Snapshot(i)] + after);
    AfterSnapshot(capacity, before, i, after);
    SnapshotLength(s.streams[i], s.log);
    ReceivedHistory(t.log.events, t.published, t.streams[i], i in t.active);
    PrefixOfHistory(s.log.events, HistoryLength(s.log, s.streams[i].count), |t.streams[i].received|);
  }

  lemma PrefixOfHistory<E>(events: seq<E>, n: nat, m: nat)
    requires n <= |events|
    ensures var end := |events|;
            |events[end - n..]| == n && (m <= n ==> Somes(events[end - n..])[..m] == Somes(events[end - n..end - n + m]))
  {
    if m <= n {
      SomesPrefix(events[|events| - n..], m);
      assert events[|events| - n..][..m] == events[|events| - n..|events| - n + m];
    }
  }

  lemma SomesPrefix<E>(events: seq<E>, n: nat)
    requires n <= |events|
    ensures Somes(events)[..n] == Somes(events[..n])
  {
  }

  lemma ReceivedHistory<E>(events: seq<E>, published: nat, c: Consumer<E>, active: bool)
    requires StreamInv(events, published, c, active) && !c.phase.Registered?
    ensures |c.received| <= |c.history| ==> c.received == Somes(c.history)[..|c.received|]
    ensures |c.received| >= |c.history| ==> c.received[..|c.history|] == Somes(c.history)
    ensures !c.phase.Bridging? ==> |c.received| >= |c.history|
  {
    if c.phase.Bridging? {
      SomesPrefix(c.history, c.sent);
    }
  }

  /** Where the part that a covered stream received begins, in terms of what was stored when it asked. */
  lemma CoveredStreamStart<E>(capacity: nat, before: seq<Action<E>>, i: nat, after: seq<Action<E>>)
    returns (from: nat, to: nat, nils: nat)
    requires capacity > 0
    requires var s := Run(capacity, before); i in s.streams && s.streams[i].phase.Registered?
    requires var t := Run(capacity, before + [Snapshot(i)] + after); i in t.streams && Covers(t.streams[i])
    ensures var s, t := Run(capacity, before), Run(capacity, before + [Snapshot(i)] + after);
            var n := HistoryLength(s.log, s.streams[i].count);
            && from == (if n > 0 then |s.log.events| - n else s.streams[i].start)
            && from <= to <= |t.log.events| && t.streams[i].received == Somes(t.log.events[from..to]) + Nils(nils)
            && (nils > 0 ==> t.streams[i].stopped)
  {
    hide Run, TakeSnapshot, StreamInv, Somes, Nils, HistoryLength;
    var s, t := Run(capacity, before), Run(capacity, before + [Snapshot(i)] + after);
    AfterSnapshot(capacity, before, i, after);
    SnapshotLength(s.streams[i], s.log);
    from, to, nils := ReceivedRange(t.log.events, t.published, t.streams[i], i in t.active);
  }

  // ---------- a stream with a gap ----------

  /** One stream on a buffer of three that has lost nothing yet. */
  function OneStream(events: seq<int>, published: nat, c: Consumer<int>): State<int> {
    State(Log(events, 0, 3, 0), published, map[0 := c], {0}, false)
  }

  lemma OneStreamMoves(events: seq<int>, c: Consumer<int>, e: int)
    requires |events| < 3 && e !in events && |c.local| < CHANNEL_SIZE
    ensures var s := OneStream(events, |events|, c);
            var t := OneStream(events + [e], |events|, c);
            && s.log.Valid() && t.log.Valid()
            && Next(s, AddEvent(e)) == t
            && Next(t, Publish) == OneStream(events + [e], |events| + 1, Deliver(c, e))
  {
    var t := OneStream(events + [e], |events|, c);
    assert PublishNext(t).streams == map[0 := Deliver(c, e)];
    assert PublishNext(t).active == {0};
  }

  lemma OneStreamConsumes(events: seq<int>, published: nat, c: Consumer<int>, a: Action<int>)
    requires |events| <= 3 && (a.Snapshot? || a.SendHistory? || a.StartLive? || a.Forward?) && a.stream == 0
    ensures var s := OneStream(events, published, c);
            s.log.Valid() && Next(s, a) == OneStream(events, published, ConsumerNext(s, c, a))
  {
  }

  lemma RunStep(actions: seq<Action<int>>, a: Action<int>, before: State<int>) returns (more: seq<Action<int>>)
    requires before == Run(3, actions)
    ensures Run(3, more) == Next(before, a)
  {
    more := actions + [a];
    assert more[..|actions|] == actions;
  }

  /** The stream of the example: asked for one event of history, with both events in its channel. */
  const WAITING := Consumer(Registered, 1, [10, 11], false, [], 0, {}, [], 0, 0, 2, 0, 0)

  lemma BothPublished() returns (actions: seq<Action<int>>)
    ensures Run(3, actions) == OneStream([10, 11], 2, WAITING)
  {
    hide Run, Next, Inv;
    var c := NewConsumer(1, 0);
    FirstSteps();
    actions := RunStep([], Register(0, 1), Initial(3));
    OneStreamMoves([], c, 10);
    actions := RunStep(actions, AddEvent(10), OneStream([], 0, c));
    actions := RunStep(actions, Publish, OneStream([10], 0, c));
    OneStreamMoves([10], Deliver(c, 10), 11);
    assert [10] + [11] == [10, 11];
    actions := RunStep(actions, AddEvent(11), OneStream([10], 1, Deliver(c, 10)));
    actions := RunStep(actions, Publish, OneStream([10, 11], 1, Deliver(c, 10)));
    assert Deliver(Deliver(c, 10), 11) == WAITING;
  }

  lemma FirstSteps()
    ensures Run<int>(3, []) == Initial(3) && Initial<int>(3).log.Valid()
    ensures Next(Initial<int>(3), Register(0, 1)) == OneStream([], 0, NewConsumer(1, 0))
  {
    hide Inv;
  }

  /** The snapshot has the newer event only; it is sent, and then the older one from the channel. */
  lemma ConsumerSteps()
    ensures var l := Log([10, 11], 0, 3, 0);
            var bridging := TakeSnapshot(WAITING, l);
            && bridging == WAITING.(phase := Bridging, history := [11], snapAt := 2)
            && SendOne(bridging) == bridging.(received := [Some(11)], seen := {11}, sent := 1)
            && var live := SendOne(bridging).(phase := Live);
               ForwardOne(live) == live.(local := [11], popped := 1, seen := {}, received := [Some(11), Some(10)])
  {
    hide RecentEvents;
    RecentEventsCases(Log([10, 11], 0, 3, 0), 1);
    assert Newest([10, 11], 1) == [11];
  }

  /** One event of history was asked for and two came in before the snapshot: the older one arrives last. */
  lemma GapExample() returns (actions: seq<Action<int>>)
    ensures var s := Run(3, actions);
            && 0 in s.streams && s.streams[0].popped > 0 && !Covers(s.streams[0])
            && s.log.events == [10, 11] && s.streams[0].received == [Some(11), Some(10)]
  {
    hide Run, Next, Inv, TakeSnapshot, SendOne, ForwardOne;
    ConsumerSteps();
    var events, c := [10, 11], WAITING;
    actions := BothPublished();
    OneStreamConsumes(events, 2, c, Snapshot(0));
    actions := RunStep(actions, Snapshot(0), OneStream(events, 2, c));
    c := TakeSnapshot(c, Log(events, 0, 3, 0));
    OneStreamConsumes(events, 2, c, SendHistory(0));
    actions := RunStep(actions, SendHistory(0), OneStream(events, 2, c));
    c := SendOne(c);
    OneStreamConsumes(events, 2, c, StartLive(0));
    actions := RunStep(actions, StartLive(0), OneStream(events, 2, c));
    c := c.(phase := Live);
    OneStreamConsumes(events, 2, c, Forward(0));
    actions := RunStep(actions, Forward(0), OneStream(events, 2, c));
  }
}
