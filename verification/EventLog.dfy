/**
 The append-only log that the event ring buffer represents. The id of an event is its index in the
 log. `low` is the lowest id still available. `offset` is the id that sits at position 0 of the
 slice, up to multiples of the capacity.
 */
module EventLog {
  import opened Resources

  datatype Log<E> = Log(events: seq<E>, low: nat, capacity: nat, offset: nat)
  {
    ghost predicate Valid() {
      && 0 < capacity
      && offset <= low <= |events|
      && |events| - low <= capacity
      && (|events| - low < capacity ==> offset == low)
    }

    predicate Full()
      requires low <= |events|
    {
      |events| - low == capacity
    }

    /** The slice position that holds an id. */
    function Position(id: nat): nat
      requires 0 < capacity && offset <= id
    {
      (id - offset) % capacity
    }

    /** The events that can still be read. */
    function Window(): seq<E>
      requires low <= |events|
    {
      events[low..]
    }
  }

  function Max(a: int, b: int): int {
    if a >= b then a else b
  }

  function Min(a: int, b: int): int {
    if a <= b then a else b
  }

  /** The newest n elements of a sequence, or all of them. */
  function Newest<E>(s: seq<E>, n: nat): seq<E> {
    s[Max(0, |s| - n)..]
  }

  function Empty<E>(capacity: nat): Log<E> {
    Log([], 0, capacity, 0)
  }

  function Append<E>(l: Log<E>, e: E): Log<E> {
    l.(events := l.events + [e], low := Max(l.low, |l.events| + 1 - l.capacity))
  }

  function Resized<E>(l: Log<E>, size: nat): Log<E> {
    if size == l.capacity then
      l
    else
      var low := Max(l.low, |l.events| - size);
      l.(low := low, capacity := size, offset := low)
  }

  // ---------- whole runs ----------

  datatype Op<E> = Add(event: E) | Resize(size: nat)

  ghost predicate LegalOps<E>(ops: seq<Op<E>>) {
    forall i | 0 <= i < |ops| :: ops[i].Resize? ==> ops[i].size > 0
  }

  function Run<E>(l: Log<E>, ops: seq<Op<E>>): Log<E> {
    if ops == [] then
      l
    else
      var before := Run(l, ops[..|ops| - 1]);
      match ops[|ops| - 1]
      case Add(e) => Append(before, e)
      case Resize(size) => Resized(before, size)
  }

  /** All events added in a run, in order. */
  function Added<E>(ops: seq<Op<E>>): seq<E> {
    if ops == [] then
      []
    else
      var last := ops[|ops| - 1];
      Added(ops[..|ops| - 1]) + (if last.Add? then [last.event] else [])
  }

  function FinalCapacity<E>(capacity: nat, ops: seq<Op<E>>): nat {
    if ops == [] then
      capacity
    else
      var last := ops[|ops| - 1];
      if last.Resize? then last.size else FinalCapacity(capacity, ops[..|ops| - 1])
  }

  /** The reference: a plain list that is cut to its newest elements after every operation. */
  function Kept<E>(capacity: nat, ops: seq<Op<E>>): seq<E> {
    if ops == [] then
      []
    else
      var before := Kept(capacity, ops[..|ops| - 1]);
      match ops[|ops| - 1]
      case Add(e) => Newest(before + [e], FinalCapacity(capacity, ops[..|ops| - 1]))
      case Resize(size) => Newest(before, size)
  }

  lemma AppendValid<E>(l: Log<E>, e: E)
    requires l.Valid()
    ensures Append(l, e).Valid()
    ensures Append(l, e).Window() == Newest(l.Window() + [e], l.capacity)
  {
  }

  lemma ResizedValid<E>(l: Log<E>, size: nat)
    requires l.Valid() && size > 0
    ensures Resized(l, size).Valid()
    ensures Resized(l, size).Window() == Newest(l.Window(), size)
  {
  }

  /**
   After any run of Add and Resize the log holds every event ever added under its own id, and the
   readable window is exactly what the list reference keeps.
   */
  lemma {:induction false} RunKeepsNewest<E>(capacity: nat, ops: seq<Op<E>>)
    requires capacity > 0 && LegalOps(ops)
    ensures Run(Empty(capacity), ops).Valid()
    ensures Run(Empty(capacity), ops).events == Added(ops)
    ensures Run(Empty(capacity), ops).capacity == FinalCapacity(capacity, ops)
    ensures Run(Empty(capacity), ops).Window() == Kept(capacity, ops)
  {
    if ops != [] {
      var before := Run(Empty(capacity), ops[..|ops| - 1]);
      RunKeepsNewest(capacity, ops[..|ops| - 1]);
      match ops[|ops| - 1]
      case Add(e) => AppendValid(before, e);
      case Resize(size) => ResizedValid(before, size);
    }
  }

  // ---------- reading ----------

  /** The id range that a request should return. */
  function Requested<E>(l: Log<E>, id: nat, count: nat): seq<E>
    requires id <= |l.events|
  {
    l.events[id..Min(id + count, |l.events|)]
  }

  /**
   The request ends inside the upper part of a wrapped slice. The length of the second range is then
   computed as a negative number, which as an unsigned number is larger than everything else.
   */
  predicate RangeUnderflows<E>(l: Log<E>, id: nat, count: nat)
    requires l.Valid() && l.low <= id < |l.events|
  {
    && l.Full()
    && l.Position(id) >= l.Position(|l.events|)
    && l.Position(id) + Min(count, l.capacity) < l.capacity
  }

  /** What the ring buffer returns for an id and a count. None is the nil slice. */
  function EventsFromId<E>(l: Log<E>, id: nat, count: nat): Option<seq<E>>
    requires l.Valid()
  {
    if id < l.low || id >= |l.events| then
      None
    else if RangeUnderflows(l, id, count) then
      Some(Requested(l, id, count) + Newest(l.events, l.Position(|l.events|)))
    else
      Some(Requested(l, id, count))
  }

  /** The number of ids from an id of a full buffer to the next id, in terms of slice positions. */
  lemma DistanceToNext<E>(l: Log<E>, id: nat)
    requires l.Valid() && l.low <= id < |l.events|
    ensures l.Full() && l.Position(id) >= l.Position(|l.events|) ==>
              |l.events| - id == l.capacity - l.Position(id) + l.Position(|l.events|)
    ensures !(l.Full() && l.Position(id) >= l.Position(|l.events|)) ==>
              |l.events| - id == l.Position(|l.events|) - l.Position(id)
  {
    var a, b, c := id - l.offset, |l.events| - l.offset, l.capacity;
    ModGap(a, b, c);
    if !l.Full() {
      SmallMod(a, c);
      SmallMod(b, c);
    }
  }

  /** Two numbers at most c apart: their remainders are as far apart, or c less. */
  lemma ModGap(a: nat, b: nat, c: nat)
    requires 0 < c && a < b <= a + c
    ensures a % c >= b % c ==> b - a == c - a % c + b % c
    ensures a % c < b % c ==> b - a == b % c - a % c
  {
    DivMod(a, c);
    DivMod(b, c);
    Distribute(b / c, a / c, c);
    MulCases(b / c - a / c, c);
  }

  lemma DivMod(a: nat, c: nat)
    requires 0 < c
    ensures a == a / c * c + a % c && 0 <= a % c < c
  {
  }

  lemma Distribute(m: int, n: int, c: int)
    ensures (m - n) * c == m * c - n * c
  {
  }

  lemma SmallMod(a: nat, c: nat)
    requires a < c
    ensures a % c == a && a / c == 0
  {
  }

  lemma MulCases(m: int, c: nat)
    requires 0 < c
    ensures m <= -1 ==> m * c <= 0 - c
    ensures m == 0 ==> m * c == 0
    ensures m == 1 ==> m * c == c
    ensures m >= 2 ==> m * c >= 2 * c
  {
  }

  /**
   For an id in the buffer the requested range is returned exactly when the second range does not
   underflow, or when it is empty because the buffer is about to wrap.
   */
  lemma EventsFromIdExactIff<E>(l: Log<E>, id: nat, count: nat)
    requires l.Valid() && l.low <= id < |l.events|
    ensures EventsFromId(l, id, count) == Some(Requested(l, id, count))
            <==> !RangeUnderflows(l, id, count) || l.Position(|l.events|) == 0
  {
    if RangeUnderflows(l, id, count) {
      DistanceToNext(l, id);
      var extra := Newest(l.events, l.Position(|l.events|));
      assert |extra| == l.Position(|l.events|);
      var wanted := Requested(l, id, count);
      assert |wanted + extra| == |wanted| + |extra|;
      assert extra == [] ==> wanted + extra == wanted;
    }
  }

  /** A request that reaches the newest event never underflows. */
  lemma ReachingNewestIsExact<E>(l: Log<E>, id: nat, count: nat)
    requires l.Valid() && l.low <= id < |l.events|
    requires id + count >= |l.events|
    ensures !RangeUnderflows(l, id, count)
    ensures EventsFromId(l, id, count) == Some(l.events[id..])
  {
    DistanceToNext(l, id);
    assert Requested(l, id, count) == l.events[id..];
  }

  lemma RunOneMore(capacity: nat, ops: seq<Op<int>>, e: int, before: Log<int>) returns (after: Log<int>)
    requires before == Run(Empty(capacity), ops)
    ensures after == Append(before, e) == Run(Empty(capacity), ops + [Add(e)])
  {
    after := Append(before, e);
    assert (ops + [Add(e)])[..|ops|] == ops;
  }

  /** A buffer of three that four events were added to. */
  lemma Wrapped() returns (l: Log<int>)
    ensures l == Run(Empty(3), [Add(10), Add(11), Add(12), Add(13)]) == Log([10, 11, 12, 13], 1, 3, 0) && l.Valid()
  {
    l := Empty(3);
    l := RunOneMore(3, [], 10, l);
    l := RunOneMore(3, [Add(10)], 11, l);
    l := RunOneMore(3, [Add(10), Add(11)], 12, l);
    l := RunOneMore(3, [Add(10), Add(11), Add(12)], 13, l);
    assert [Add(10), Add(11), Add(12)] + [Add(13)] == [Add(10), Add(11), Add(12), Add(13)];
  }

  /** It has wrapped once: one requested event, two events returned. */
  lemma UnderflowExample()
    ensures var l: Log<int> := Run(Empty(3), [Add(10), Add(11), Add(12), Add(13)]);
            l.Valid() && EventsFromId(l, 1, 1) == Some([11, 13]) && Requested(l, 1, 1) == [11]
  {
    var l := Wrapped();
    hide Run;
    assert l.Position(1) == 1 && l.Position(4) == 1;
    assert Requested(l, 1, 1) == [11] && Newest(l.events, 1) == [13];
    assert RangeUnderflows(l, 1, 1);
    var pair: seq<int> := [11, 13];
    assert Requested(l, 1, 1) + Newest(l.events, 1) == pair;
    assert EventsFromId(l, 1, 1) == Some(pair);
  }

  /** What the ring buffer returns when asked for its most recent events. */
  function RecentEvents<E>(l: Log<E>, count: nat): Option<seq<E>>
    requires l.Valid()
  {
    var lastId := if l.events == [] then 0 else |l.events| - 1;
    EventsFromId(l, if lastId < count then 0 else lastId - count + 1, count)
  }

  /**
   Up to the number of stored events the newest ones are returned exactly. A larger count works only
   as long as no event was ever lost; after that the result is nil, whatever is stored.
   */
  lemma RecentEventsCases<E>(l: Log<E>, count: nat)
    requires l.Valid()
    ensures count == 0 || |l.Window()| == 0 ==> RecentEvents(l, count) == None
    ensures 0 < count <= |l.Window()| ==> RecentEvents(l, count) == Some(Newest(l.events, count))
    ensures count > |l.Window()| > 0 && l.low == 0 ==> RecentEvents(l, count) == Some(l.events)
    ensures count > |l.Window()| > 0 && l.low > 0 ==> RecentEvents(l, count) == None
  {
    if l.events != [] && count > 0 {
      var start := if |l.events| - 1 < count then 0 else |l.events| - count;
      if l.low <= start {
        ReachingNewestIsExact(l, start, count);
      }
    }
  }

  /** The documented promise, that count may exceed the number of elements, holds exactly when nothing was lost. */
  lemma RecentEventsExactIff<E>(l: Log<E>, count: nat)
    requires l.Valid() && |l.Window()| > 0 && count > 0
    ensures RecentEvents(l, count) == Some(Newest(l.Window(), count))
            <==> count <= |l.Window()| || l.low == 0
  {
    RecentEventsCases(l, count);
    if count <= |l.Window()| {
      assert Newest(l.Window(), count) == Newest(l.events, count);
    }
  }

  /** The same buffer holds three events, and a request for four gets none of them. */
  lemma TooManyRecentExample()
    ensures var l: Log<int> := Run(Empty(3), [Add(10), Add(11), Add(12), Add(13)]);
            l.Valid() && l.Window() == [11, 12, 13] && RecentEvents(l, 4) == None
  {
    var l := Wrapped();
    hide Run, RecentEvents;
    assert l.Window() == [11, 12, 13];
    RecentEventsCases(l, 4);
  }
}
