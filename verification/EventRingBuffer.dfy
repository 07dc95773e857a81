/**
 The event ring buffer (pkg/events/event_ringbuffer.go), updated in place. Its abstraction is the
 append-only log of module EventLog, and every method is proved against that log.
 */
module EventRingBuffer {
  import opened Resources
  import opened EventLog

  const MAX_UINT64: nat := 0xFFFF_FFFF_FFFF_FFFF
  const MAX_SLICE: nat := 0x7FFF_FFFF_FFFF_FFFF

  /** Unsigned 64-bit wrap-around. */
  function Wrap64(x: int): nat {
    x % (MAX_UINT64 + 1)
  }

  /** A stored event; a slot that was never written holds null. */
  class EventRecord {
    constructor () {}
  }

  datatype Range = Range(start: nat, end: nat)

  class RingBuffer {
    var events: array<EventRecord?>
    var capacity: nat
    var head: nat
    var full: bool
    var id: nat
    var lowestId: nat
    var resizeOffset: nat

    ghost var log: seq<EventRecord?>

    /** The log this buffer stands for. */
    ghost function View(): Log<EventRecord?>
      reads this
    {
      Log(log, lowestId, capacity, resizeOffset)
    }

    ghost predicate Valid()
      reads this, events
    {
      && View().Valid()
      && capacity <= MAX_SLICE && events.Length == capacity
      && id == |log| <= MAX_UINT64
      && head == View().Position(id) < capacity
      && (full <==> View().Full())
      && Stores(events[..], View())
    }

    constructor (size: nat)
      requires 0 < size <= MAX_SLICE
      ensures Valid() && View() == Empty(size) && fresh(events)
    {
      capacity := size;
      events := new EventRecord?[size];
      head, full, id, lowestId, resizeOffset := 0, false, 0, 0, 0;
      log := [];
    }

    /** Writes at the head and moves it. A full buffer overwrites its oldest event. */
    method Add(event: EventRecord?)
      requires Valid() && id < MAX_UINT64
      modifies this, events
      ensures Valid() && View() == Append(old(View()), event) && events == old(events)
    {
      ghost var before := View();
      events[head] := event;
      if !full {
        full := head == capacity - 1;
      } else {
        lowestId := lowestId + 1;
      }
      head := (head + 1) % capacity;
      id := id + 1;
      log := log + [event];
      HeadMoves(before, event);
      AppendStores(old(events[..]), before, event);
      AppendValid(before, event);
    }

    method UpdateLowestID(beginSize: nat, endSize: nat)
      requires lowestId <= id
      modifies this`lowestId
      ensures lowestId ==
              if beginSize < endSize || id - old(lowestId) <= endSize then old(lowestId) else id - endSize
    {
      if beginSize < endSize { return; }
      if id - lowestId <= endSize { return; }
      lowestId := id - endSize;
    }

    /** Moves the newest events to a new slice of another size. Every kept event keeps its id. */
    method Resize(newSize: nat)
      requires Valid() && 0 < newSize <= MAX_SLICE
      modifies this
      ensures Valid() && View() == Resized(old(View()), newSize)
      ensures newSize != old(capacity) ==> fresh(events)
    {
      hide Stores, Log.Position;
      if newSize == capacity { return; }
      ghost var before := View();
      var initialSize := capacity;
      var numEventsToCopy := Min(id - lowestId, newSize);
      var newEvents := NewestEvents(newSize, numEventsToCopy);
      UpdateLowestID(initialSize, newSize);
      ghost var slice := newEvents[..];
      ResizedStores(before, newSize, slice);
      ResizedValid(before, newSize);
      Install(newEvents, newSize, numEventsToCopy, Resized(before, newSize));
    }

    /** The new slice takes the place of the old one; the lowest id sits at its first position. */
    method Install(newEvents: array<EventRecord?>, newSize: nat, num: nat, ghost after: Log<EventRecord?>)
      requires after == Log(log, lowestId, newSize, lowestId) && after.Valid() && id == |log| <= MAX_UINT64
      requires after.Position(id) == num % newSize && (after.Full() <==> num == newSize)
      requires newEvents.Length == newSize <= MAX_SLICE && Stores(newEvents[..], after)
      modifies this
      ensures Valid() && View() == after && events == newEvents
    {
      hide Stores;
      capacity := newSize;
      events := newEvents;
      head := num % newSize;
      resizeOffset := lowestId;
      full := num == capacity;
    }

    /** A new slice that starts with the newest events. */
    method NewestEvents(newSize: nat, num: nat) returns (newEvents: array<EventRecord?>)
      requires Valid() && num == Min(id - lowestId, newSize) && 0 < newSize
      ensures fresh(newEvents) && newEvents.Length == newSize && newEvents[..num] == Newest(log, num)
    {
      hide Stores, Log.Position;
      newEvents := new EventRecord?[newSize];
      var startIndex, endIndex := CopyIndices(num);
      CopyNewest(newEvents, num, startIndex, endIndex);
      if num > 0 {
        KeepsNewestEvents(events[..], View(), num, startIndex, endIndex, newEvents[..]);
        assert newEvents[..num] == newEvents[..][..num];
      }
    }

    /** Where the newest events start and end in the old slice. With nothing to copy the end index underflows. */
    method CopyIndices(num: nat) returns (startIndex: nat, endIndex: nat)
      requires Valid() && num <= id - lowestId && (num == 0 ==> id == lowestId)
      ensures startIndex < capacity && endIndex < capacity
      ensures num == 0 ==> endIndex >= startIndex
      ensures num > 0 ==> startIndex == View().Position(id - num)
      ensures num > 0 && endIndex >= startIndex ==> endIndex + 1 - startIndex == num
      ensures num > 0 && endIndex < startIndex ==> capacity - startIndex + endIndex + 1 == num
    {
      startIndex := (head + capacity - num) % capacity;
      endIndex := Wrap64(startIndex + num - 1) % capacity;
      CopyRange(View(), num, startIndex, endIndex);
    }

    /** The copy step of Resize: one range, or two if the range passes the end of the old slice. */
    method CopyNewest(newEvents: array<EventRecord?>, num: nat, startIndex: nat, endIndex: nat)
      requires newEvents != events && startIndex < events.Length == capacity && endIndex < capacity
      requires num <= newEvents.Length
      requires num == 0 ==> endIndex >= startIndex
      requires num > 0 && endIndex >= startIndex ==> endIndex + 1 - startIndex == num
      requires num > 0 && endIndex < startIndex ==> capacity - startIndex + endIndex + 1 == num
      modifies newEvents
      ensures num > 0 && endIndex >= startIndex ==> newEvents[..num] == events[..][startIndex..endIndex + 1]
      ensures num > 0 && endIndex < startIndex ==>
                newEvents[..num] == events[..][startIndex..] + events[..][..endIndex + 1]
    {
      hide Spliced;
      ghost var blank, slice := newEvents[..], events[..];
      if endIndex >= startIndex {
        Copy(newEvents, 0, events, startIndex, Min(newEvents.Length, endIndex + 1 - startIndex));
        if num > 0 {
          OneCopy(blank, slice, startIndex, num);
        }
      } else {
        var upper := capacity - startIndex;
        Copy(newEvents, 0, events, startIndex, Min(newEvents.Length, upper));
        Copy(newEvents, upper, events, 0, Min(newEvents.Length - upper, endIndex + 1));
        TwoCopies(blank, slice, startIndex, upper, upper, 0, endIndex + 1);
        assert slice[startIndex..startIndex + upper] == slice[startIndex..] && slice[0..endIndex + 1] == slice[..endIndex + 1];
      }
      assert newEvents[..num] == newEvents[..][..num];
    }

    /** The slice position of an id, or not found. */
    method Id2Pos(wanted: nat) returns (pos: nat, found: bool)
      requires Valid()
      ensures found <==> lowestId <= wanted < id
      ensures pos == (if found then View().Position(wanted) else 0) < capacity
    {
      if wanted < lowestId || wanted >= id { return 0, false; }
      return (wanted - resizeOffset) % capacity, true;
    }

    /** Copies one or two ranges of the slice, the second one over whatever the first copy left behind. */
    method GetEntriesFromRanges(r1: Range, r2: Option<Range>) returns (entries: seq<EventRecord?>)
      requires events.Length == capacity
      requires r1.start <= r1.end <= capacity
      requires r2.Some? ==> r2.value.start <= r2.value.end <= capacity
      ensures entries == events[..][r1.start..r1.end]
                         + (if r2.None? then [] else events[..][r2.value.start..r2.value.end])
    {
      hide Spliced;
      if r2.None? {
        var dst := new EventRecord?[r1.end - r1.start];
        ghost var blank := dst[..];
        Copy(dst, 0, events, r1.start, dst.Length);
        OneCopy(blank, events[..], r1.start, dst.Length);
        return dst[..];
      }
      entries := CopyTwo(r1, r2.value);
    }

    method CopyTwo(r1: Range, r2: Range) returns (entries: seq<EventRecord?>)
      requires events.Length == capacity
      requires r1.start <= r1.end <= capacity && r2.start <= r2.end <= capacity
      ensures entries == events[..][r1.start..r1.end] + events[..][r2.start..r2.end]
    {
      hide Spliced;
      var len1, len2 := r1.end - r1.start, r2.end - r2.start;
      var dst := new EventRecord?[len1 + len2];
      ghost var blank := dst[..];
      var n := Min(len1 + len2, capacity - r1.start);
      Copy(dst, 0, events, r1.start, n);
      Copy(dst, len1, events, r2.start, len2);
      TwoCopies(blank, events[..], r1.start, len1, n, r2.start, len2);
      entries := dst[..];
    }

    /** The unlocked read. The slice result is EventsFromId of the log, underflow included. */
    method GetEventsFromID(wanted: nat, limit: nat)
      returns (result: Option<seq<EventRecord?>>, lowest: nat, last: nat)
      requires Valid()
      ensures result == EventsFromId(View(), wanted, limit)
      ensures lowest == lowestId && last == if id == 0 then 0 else id - 1
    {
      hide Stores, EventsFromId, Log.Position;
      NotFound(View(), wanted, limit);
      lowest := lowestId;
      last := GetLastEventID();
      var pos, found := Id2Pos(wanted);
      if !found { return None, lowest, last; }
      ghost var view, slice := View(), events[..];
      var count := Min(limit, capacity);
      if full && pos >= head {
        var entries := ReadWrapped(pos, count);
        WrappedRead(slice, view, wanted, limit, pos, head, entries);
        return Some(entries), lowest, last;
      }
      StraightRead(slice, view, wanted, limit, pos, head);
      var end := Min(pos + count, head);
      var entries := GetEntriesFromRanges(Range(pos, end), None);
      assert entries == slice[pos..end];
      return Some(entries), lowest, last;
    }

    /** The read of a full buffer at or behind the head. */
    method ReadWrapped(pos: nat, count: nat) returns (entries: seq<EventRecord?>)
      requires events.Length == capacity <= MAX_SLICE && head <= pos < capacity && count <= capacity
      ensures var end := Wrap64(pos + count - capacity);
              entries == events[..][pos..Min(pos + count, capacity)]
                         + (if end > 0 then events[..][..Min(end, head)] else [])
    {
      var r1 := Range(pos, Min(pos + count, capacity));
      var r2: Option<Range> := None;
      var end := Wrap64(pos + count - capacity);
      if end > 0 {
        end := Min(end, head);
        r2 := Some(Range(0, end));
      }
      entries := GetEntriesFromRanges(r1, r2);
    }

    method GetLastEventID() returns (last: nat)
      ensures last == if id == 0 then 0 else id - 1
    {
      if id == 0 { return 0; }
      return id - 1;
    }

    method GetRecentEvents(count: nat) returns (history: Option<seq<EventRecord?>>)
      requires Valid()
      ensures history == RecentEvents(View(), count)
    {
      var lastId := GetLastEventID();
      var startId;
      if lastId < count {
        startId := 0;
      } else {
        startId := lastId - count + 1;
      }
      var lowest, last;
      history, lowest, last := GetEventsFromID(startId, count);
    }
  }

  /** The built-in copy between slices. */
  method Copy(dst: array<EventRecord?>, to: nat, src: array<EventRecord?>, from: nat, n: nat)
    requires dst != src
    requires to + n <= dst.Length && from + n <= src.Length
    modifies dst
    ensures dst[..] == Spliced(old(dst[..]), to, src[..], from, n)
  {
    forall i | 0 <= i < n {
      dst[to + i] := src[from + i];
    }
  }

  /** A range of one sequence over the elements of another. */
  function Spliced<E>(dst: seq<E>, to: nat, src: seq<E>, from: nat, n: nat): (r: seq<E>)
    requires to + n <= |dst| && from + n <= |src|
    ensures |r| == |dst|
  {
    dst[..to] + src[from..from + n] + dst[to + n..]
  }

  lemma OneCopy<E>(dst: seq<E>, src: seq<E>, from: nat, n: nat)
    requires n <= |dst| && from + n <= |src|
    ensures Spliced(dst, 0, src, from, n)[..n] == src[from..from + n]
    ensures n == |dst| ==> Spliced(dst, 0, src, from, n) == src[from..from + n]
  {
  }

  /** The second copy starts where the wanted part of the first one ends. */
  lemma TwoCopies<E>(dst: seq<E>, src: seq<E>, a: nat, len1: nat, n: nat, b: nat, len2: nat)
    requires len1 <= n <= |dst| && len1 + len2 <= |dst| && a + n <= |src| && b + len2 <= |src|
    ensures var both := Spliced(Spliced(dst, 0, src, a, n), len1, src, b, len2);
            && both[..len1 + len2] == src[a..a + len1] + src[b..b + len2]
            && (len1 + len2 == |dst| ==> both == src[a..a + len1] + src[b..b + len2])
  {
    assert Spliced(dst, 0, src, a, n)[..len1] == src[a..a + len1];
  }

  // ---------- positions ----------

  lemma ModNext(a: nat, c: nat)
    requires 0 < c
    ensures (a + 1) % c == (a % c + 1) % c
  {
    var q, r := a / c, a % c;
    assert a == q * c + r;
    if r + 1 < c {
      ModUnique(a + 1, c, q, r + 1);
      SmallMod(r + 1, c);
    } else {
      assert a + 1 == (q + 1) * c + 0;
      ModUnique(a + 1, c, q + 1, 0);
    }
  }

  lemma ModUnique(a: int, c: nat, q: int, r: nat)
    requires 0 < c && a == q * c + r && r < c
    ensures a % c == r
  {
    assert a == a / c * c + a % c;
    Distribute(a / c, q, c);
    MulCases(a / c - q, c);
  }

  lemma HeadMoves<E>(l: Log<E>, e: E)
    requires l.Valid()
    ensures Append(l, e).Position(|l.events| + 1) == (l.Position(|l.events|) + 1) % l.capacity
    ensures Append(l, e).Position(|l.events|) == l.Position(|l.events|)
    ensures !l.Full() ==> (l.Position(|l.events|) == l.capacity - 1 <==> Append(l, e).Full())
    ensures l.Full() ==> Append(l, e).Full()
  {
    ModNext(|l.events| - l.offset, l.capacity);
    if !l.Full() {
      SmallMod(|l.events| - l.offset, l.capacity);
    }
  }

  // ---------- the slice against the log ----------

  /** Every readable event sits at the position of its id. */
  ghost predicate Stores<E>(slice: seq<E>, l: Log<E>) {
    && l.Valid() && |slice| == l.capacity
    && forall i {:trigger l.events[i]} | l.low <= i < |l.events| :: slice[l.Position(i)] == l.events[i]
  }

  lemma AppendStores<E>(slice: seq<E>, l: Log<E>, e: E)
    requires Stores(slice, l)
    ensures Stores(slice[l.Position(|l.events|) := e], Append(l, e))
  {
    AppendValid(l, e);
    var after := Append(l, e);
    forall i | after.low <= i < |l.events|
      ensures after.Position(i) != l.Position(|l.events|)
    {
      DistanceToNext(l, i);
    }
    HeadMoves(l, e);
  }

  /** The i-th slot after pos in a slice of length c. */
  function Slot(pos: nat, i: nat, c: nat): nat {
    if pos + i < c then pos + i else pos + i - c
  }

  /** From pos on, wrapping once, the slice holds the log from an id to its end. */
  ghost predicate HoldsFrom<E>(slice: seq<E>, events: seq<E>, id: nat, pos: nat) {
    && pos < |slice| && id <= |events| <= id + |slice|
    && forall i | 0 <= i < |events| - id :: slice[Slot(pos, i, |slice|)] == events[id + i]
  }

  lemma StoresHoldsFrom<E>(slice: seq<E>, l: Log<E>, id: nat)
    requires Stores(slice, l) && l.low <= id < |l.events|
    ensures HoldsFrom(slice, l.events, id, l.Position(id))
  {
    var pos := l.Position(id);
    forall i | 0 <= i < |l.events| - id
      ensures slice[Slot(pos, i, |slice|)] == l.events[id + i]
    {
      PositionFrom(l, id, i);
    }
  }

  /** A window that passes the end of the slice is its upper part followed by its lower part. */
  lemma UpperThenLower<E>(slice: seq<E>, events: seq<E>, id: nat, pos: nat, head: nat)
    requires HoldsFrom(slice, events, id, pos)
    requires head <= pos && |events| - id == |slice| - pos + head
    ensures slice[pos..] == events[id..id + |slice| - pos]
    ensures slice[..head] == events[|events| - head..]
  {
    forall i | 0 <= i < |slice| - pos
      ensures slice[pos..][i] == events[id..id + |slice| - pos][i]
    {
      assert Slot(pos, i, |slice|) == pos + i;
    }
    forall i | 0 <= i < head
      ensures slice[i] == events[|events| - head..][i]
    {
      assert Slot(pos, |slice| - pos + i, |slice|) == i;
    }
  }

  lemma StraightPart<E>(slice: seq<E>, events: seq<E>, id: nat, pos: nat, n: nat)
    requires HoldsFrom(slice, events, id, pos)
    requires pos + n <= |slice| && n <= |events| - id
    ensures slice[pos..pos + n] == events[id..id + n]
  {
    var left, right := slice[pos..pos + n], events[id..id + n];
    forall i | 0 <= i < n
      ensures left[i] == right[i]
    {
      assert Slot(pos, i, |slice|) == pos + i;
    }
  }

  /** A read that does not pass the end of the slice is limited by the head or by the count. */
  lemma StraightRead<E>(slice: seq<E>, l: Log<E>, id: nat, limit: nat, pos: nat, head: nat)
    requires Stores(slice, l) && l.low <= id < |l.events|
    requires pos == l.Position(id) && head == l.Position(|l.events|)
    requires !(l.Full() && pos >= head)
    ensures var end := Min(pos + Min(limit, l.capacity), head);
            pos <= end && Some(slice[pos..end]) == EventsFromId(l, id, limit)
  {
    DistanceToNext(l, id);
    StoresHoldsFrom(slice, l, id);
    StraightPart(slice, l.events, id, pos, Min(Min(limit, l.capacity), head - pos));
  }

  lemma NotFound<E>(l: Log<E>, id: nat, limit: nat)
    requires l.Valid()
    ensures !(l.low <= id < |l.events|) ==> EventsFromId(l, id, limit) == None
  {
  }

  /** The two ranges of a wrapped read, underflow included, are what EventsFromId says. */
  lemma WrappedRead<E>(slice: seq<E>, l: Log<E>, id: nat, limit: nat, pos: nat, head: nat, entries: seq<E>)
    requires Stores(slice, l) && l.low <= id < |l.events| && l.capacity <= MAX_SLICE
    requires pos == l.Position(id) && head == l.Position(|l.events|)
    requires l.Full() && pos >= head
    requires var count := Min(limit, l.capacity);
             var end := Wrap64(pos + count - l.capacity);
             entries == slice[pos..Min(pos + count, l.capacity)] + (if end > 0 then slice[..Min(end, head)] else [])
    ensures Some(entries) == EventsFromId(l, id, limit)
  {
    DistanceToNext(l, id);
    StoresHoldsFrom(slice, l, id);
    UpperThenLower(slice, l.events, id, pos, head);
    var count := Min(limit, l.capacity);
    WrapCases(pos + count - l.capacity);
    WrappedEntries(slice, l.events, id, count, pos, head, Wrap64(pos + count - l.capacity), entries);
    if !RangeUnderflows(l, id, limit) {
      assert Min(id + limit, |l.events|) == Min(id + Min(limit, l.capacity), |l.events|);
    }
  }

  lemma WrapCases(x: int)
    requires 0 - MAX_SLICE <= x <= MAX_SLICE
    ensures Wrap64(x) == if x < 0 then x + MAX_UINT64 + 1 else x
  {
  }

  lemma WrappedEntries<E>(slice: seq<E>, events: seq<E>, id: nat, count: nat, pos: nat, head: nat, end: nat, entries: seq<E>)
    requires head <= pos < |slice| && id <= |events| && count <= |slice|
    requires |events| - id == |slice| - pos + head
    requires slice[pos..] == events[id..id + |slice| - pos]
    requires slice[..head] == events[|events| - head..]
    requires if pos + count < |slice| then end > head else end == pos + count - |slice|
    requires entries == slice[pos..Min(pos + count, |slice|)] + (if end > 0 then slice[..Min(end, head)] else [])
    ensures entries == if pos + count < |slice| then events[id..id + count] + Newest(events, head)
                       else events[id..Min(id + count, |events|)]
  {
    if pos + count < |slice| {
      PartOfSlice(slice, pos, |slice|, count);
      PartOfSlice(events, id, id + |slice| - pos, count);
      assert Min(end, head) == head && slice[..head] == Newest(events, head);
    } else {
      var rest := Min(pos + count - |slice|, head);
      PartOfSlice(slice, 0, head, rest);
      assert entries == slice[pos..] + slice[..rest];
      SplitRange(events, id, |slice| - pos, head, rest);
    }
  }

  lemma PartOfSlice<E>(s: seq<E>, from: nat, to: nat, n: nat)
    requires from + n <= to <= |s|
    ensures s[from..to][..n] == s[from..from + n]
    ensures s[from..|s|] == s[from..]
  {
  }

  lemma SplitRange<E>(events: seq<E>, id: nat, n: nat, head: nat, rest: nat)
    requires id + n + head == |events| && rest <= head
    ensures events[id..id + n + rest] == events[id..id + n] + events[|events| - head..][..rest]
  {
  }

  /** What Resize leaves at the front of the new slice. */
  lemma KeepsNewestEvents<E>(slice: seq<E>, l: Log<E>, num: nat, start: nat, end: nat, copied: seq<E>)
    requires Stores(slice, l) && 0 < num <= |l.events| - l.low && num <= |copied|
    requires start == l.Position(|l.events| - num) && end < l.capacity
    requires end >= start ==> end + 1 - start == num && copied[..num] == slice[start..end + 1]
    requires end < start ==> l.capacity - start + end + 1 == num
                             && copied[..num] == slice[start..] + slice[..end + 1]
    ensures copied[..num] == Newest(l.events, num)
  {
    StoresHoldsFrom(slice, l, |l.events| - num);
    CopiedIsNewest(slice, l.events, num, start, end, copied);
  }

  lemma CopiedIsNewest<E>(slice: seq<E>, events: seq<E>, num: nat, start: nat, end: nat, copied: seq<E>)
    requires 0 < num <= |events| && num <= |copied| && end < |slice|
    requires HoldsFrom(slice, events, |events| - num, start)
    requires end >= start ==> end + 1 - start == num && copied[..num] == slice[start..end + 1]
    requires end < start ==> |slice| - start + end + 1 == num
                             && copied[..num] == slice[start..] + slice[..end + 1]
    ensures copied[..num] == Newest(events, num)
  {
    var first := |events| - num;
    if end >= start {
      StraightPart(slice, events, first, start, num);
    } else {
      UpperThenLower(slice, events, first, start, end + 1);
      assert events[first..] == events[first..first + |slice| - start] + events[|events| - (end + 1)..];
    }
  }

  /** The ids before the slice is full once sit in order. */
  lemma FirstPositions<E>(l: Log<E>, id: nat)
    requires 0 < l.capacity && l.offset <= id < l.offset + l.capacity
    ensures l.Position(id) == id - l.offset
  {
    SmallMod(id - l.offset, l.capacity);
  }

  lemma ResizedSlot<E>(l: Log<E>, size: nat, slice: seq<E>, i: nat)
    requires l.Valid() && 0 < size != l.capacity && |slice| == size && Resized(l, size).low <= i < |l.events|
    requires var num := Min(|l.events| - l.low, size); slice[..num] == Newest(l.events, num)
    ensures slice[Resized(l, size).Position(i)] == l.events[i]
  {
    hide Log.Position;
    ResizedValid(l, size);
    var low := Resized(l, size).low;
    FirstPositions(Resized(l, size), i);
    assert slice[i - low] == slice[..|l.events| - low][i - low];
  }

  lemma ResizedStores<E>(l: Log<E>, size: nat, slice: seq<E>)
    requires l.Valid() && 0 < size != l.capacity && |slice| == size
    requires var num := Min(|l.events| - l.low, size); slice[..num] == Newest(l.events, num)
    ensures Stores(slice, Resized(l, size))
    ensures var num := Min(|l.events| - l.low, size);
            Resized(l, size).Position(|l.events|) == num % size
            && (Resized(l, size).Full() <==> num == size)
  {
    var after := Resized(l, size);
    ResizedValid(l, size);
    forall i | after.low <= i < |l.events|
      ensures slice[after.Position(i)] == l.events[i]
    {
      ResizedSlot(l, size, slice, i);
    }
  }

  lemma PositionFrom<E>(l: Log<E>, id: nat, i: nat)
    requires l.Valid() && l.offset <= id && i < l.capacity
    ensures l.Position(id + i) ==
            var p := l.Position(id); if p + i < l.capacity then p + i else p + i - l.capacity
  {
    var a, c := id - l.offset, l.capacity;
    var q, r := a / c, a % c;
    assert a == q * c + r;
    if r + i < c {
      ModUnique(a + i, c, q, r + i);
    } else {
      assert a + i == (q + 1) * c + (r + i - c);
      ModUnique(a + i, c, q + 1, r + i - c);
    }
  }

  /** The indices that Resize computes delimit the newest `num` events in the old slice. */
  lemma CopyRange<E>(l: Log<E>, num: nat, start: nat, end: nat)
    requires l.Valid() && l.capacity <= MAX_SLICE && num <= |l.events| - l.low
    requires num == 0 ==> l.low == |l.events|
    requires start == (l.Position(|l.events|) + l.capacity - num) % l.capacity
    requires end == Wrap64(start + num - 1) % l.capacity
    ensures num > 0 ==> start == l.Position(|l.events| - num)
    ensures num > 0 && end >= start ==> end + 1 - start == num
    ensures num > 0 && end < start ==> l.capacity - start + end + 1 == num
    ensures num == 0 ==> end >= start
  {
    var c, first := l.capacity, |l.events| - num;
    if num > 0 {
      DistanceToNext(l, first);
      var head, p := l.Position(|l.events|), l.Position(first);
      if head + c - num == p {
        SmallMod(p, c);
      } else {
        assert head + c - num == 1 * c + p;
        ModUnique(head + c - num, c, 1, p);
      }
      assert Wrap64(start + num - 1) == start + num - 1;
      if start + num - 1 < c {
        SmallMod(start + num - 1, c);
      } else {
        assert start + num - 1 == 1 * c + (start + num - 1 - c);
        ModUnique(start + num - 1, c, 1, start + num - 1 - c);
      }
    } else {
      SmallMod(0, c);
      assert 0 + c - 0 == 1 * c + 0;
      ModUnique(c, c, 1, 0);
    }
  }
}
