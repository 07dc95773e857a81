/**
 The sorted list of requests of an application (pkg/scheduler/objects/sorted_asks.go): highest
 priority first, oldest first within a priority.
 */
module SortedAsks {
  import opened Allocations

  /** a may stand before b. */
  predicate Before(a: Allocation, b: Allocation) {
    a.priority > b.priority || (a.priority == b.priority && a.createTime <= b.createTime)
  }

  ghost predicate Sorted(s: seq<Allocation>) {
    forall i, j | 0 <= i < j < |s| :: Before(s[i], s[j])
  }

  /** Where an ask goes: behind the last element if that may stand before it, else before the first it may precede. */
  function InsertIndex(s: seq<Allocation>, ask: Allocation): nat {
    if s != [] && ask.LessThan(s[|s| - 1]) then |s| else FirstAfter(s, ask, 0)
  }

  function FirstAfter(s: seq<Allocation>, ask: Allocation, from: nat): (i: nat)
    decreases |s| - from
  {
    if from >= |s| then |s| else if s[from].LessThan(ask) then from else FirstAfter(s, ask, from + 1)
  }

  function Inserted(s: seq<Allocation>, ask: Allocation): seq<Allocation> {
    var i := InsertIndex(s, ask);
    if i <= |s| then s[..i] + [ask] + s[i..] else s
  }

  /** The position of the first element with a key. */
  function IndexOf(s: seq<Allocation>, key: string): (i: nat)
    ensures i <= |s|
    ensures i < |s| ==> s[i].key == key
    ensures forall j | 0 <= j < i :: s[j].key != key
  {
    if s == [] then 0 else if s[0].key == key then 0 else 1 + IndexOf(s[1..], key)
  }

  function Removed(s: seq<Allocation>, key: string): seq<Allocation> {
    var i := IndexOf(s, key);
    if i == |s| then s else s[..i] + s[i + 1..]
  }

  lemma {:induction false} FirstAfterSplits(s: seq<Allocation>, ask: Allocation, from: nat)
    requires from <= |s|
    ensures var i := FirstAfter(s, ask, from);
            && from <= i <= |s|
            && (forall j | from <= j < i :: !s[j].LessThan(ask))
            && (i < |s| ==> s[i].LessThan(ask))
    decreases |s| - from
  {
    if from < |s| && !s[from].LessThan(ask) {
      FirstAfterSplits(s, ask, from + 1);
    }
  }

  lemma {:induction false} FirstAfterIs(s: seq<Allocation>, ask: Allocation, from: nat, i: nat)
    requires from <= i <= |s|
    requires forall j | from <= j < i :: !s[j].LessThan(ask)
    requires i < |s| ==> s[i].LessThan(ask)
    ensures FirstAfter(s, ask, from) == i
    decreases i - from
  {
    if from < i {
      FirstAfterIs(s, ask, from + 1, i);
    }
  }

  lemma SortedAround(s: seq<Allocation>, i: nat, ask: Allocation)
    requires Sorted(s) && i <= |s|
    requires forall k | 0 <= k < i :: Before(s[k], ask)
    requires forall k | i <= k < |s| :: Before(ask, s[k])
    ensures Sorted(s[..i] + [ask] + s[i..])
  {
    var r := s[..i] + [ask] + s[i..];
    forall j, k | 0 <= j < k < |r|
      ensures Before(r[j], r[k])
    {
      assert j != i ==> r[j] == s[if j < i then j else j - 1];
      assert k != i ==> r[k] == s[if k < i then k else k - 1];
    }
  }

  lemma MultisetSplit(s: seq<Allocation>, i: nat, x: Allocation)
    requires i <= |s|
    ensures multiset(s[..i] + [x] + s[i..]) == multiset(s) + multiset{x}
  {
    assert s == s[..i] + s[i..];
  }

  /** The fast path and the search both keep the order and all elements. */
  lemma InsertKeepsSorted(s: seq<Allocation>, ask: Allocation)
    requires Sorted(s)
    ensures InsertIndex(s, ask) <= |s|
    ensures Sorted(Inserted(s, ask))
    ensures multiset(Inserted(s, ask)) == multiset(s) + multiset{ask}
  {
    FirstAfterSplits(s, ask, 0);
    var i := InsertIndex(s, ask);
    assert forall k | 0 <= k < i :: Before(s[k], ask);
    SortedAround(s, i, ask);
    MultisetSplit(s, i, ask);
  }

  lemma SortedWithout(s: seq<Allocation>, i: nat)
    requires Sorted(s) && i < |s|
    ensures Sorted(s[..i] + s[i + 1..])
  {
    var r := s[..i] + s[i + 1..];
    forall j, k | 0 <= j < k < |r|
      ensures Before(r[j], r[k])
    {
      assert r[j] == s[if j < i then j else j + 1] && r[k] == s[if k < i then k else k + 1];
    }
  }

  lemma RemoveKeepsSorted(s: seq<Allocation>, key: string)
    requires Sorted(s)
    ensures Sorted(Removed(s, key))
    ensures var i := IndexOf(s, key);
            multiset(Removed(s, key)) == if i == |s| then multiset(s) else multiset(s) - multiset{s[i]}
  {
    hide Sorted;
    var i := IndexOf(s, key);
    if i < |s| {
      SortedWithout(s, i);
      assert s == s[..i] + [s[i]] + s[i + 1..];
    }
  }

  // ---------- any sequence of operations ----------

  datatype Op = Insert(ask: Allocation) | Remove(key: string)

  function Apply(s: seq<Allocation>, op: Op): seq<Allocation> {
    match op
    case Insert(ask) => Inserted(s, ask)
    case Remove(key) => Removed(s, key)
  }

  /** What an operation puts into the list, and what it takes out of it. */
  function Given(op: Op): multiset<Allocation> {
    if op.Insert? then multiset{op.ask} else multiset{}
  }

  function Taken(s: seq<Allocation>, op: Op): multiset<Allocation> {
    if op.Remove? && IndexOf(s, op.key) < |s| then multiset{s[IndexOf(s, op.key)]} else multiset{}
  }

  lemma ApplyKeeps(s: seq<Allocation>, op: Op)
    requires Sorted(s)
    ensures Sorted(Apply(s, op))
    ensures multiset(Apply(s, op)) + Taken(s, op) == multiset(s) + Given(op)
  {
    hide Sorted, Inserted, Removed;
    match op
    case Insert(ask) => InsertKeepsSorted(s, ask);
    case Remove(key) => RemoveKeepsSorted(s, key);
  }

  function Run(ops: seq<Op>): seq<Allocation> {
    if ops == [] then [] else Apply(Run(ops[..|ops| - 1]), ops[|ops| - 1])
  }

  function Inserts(ops: seq<Op>): multiset<Allocation> {
    if ops == [] then multiset{} else Inserts(ops[..|ops| - 1]) + Given(ops[|ops| - 1])
  }

  function Removals(ops: seq<Op>): multiset<Allocation> {
    if ops == [] then multiset{}
    else Removals(ops[..|ops| - 1]) + Taken(Run(ops[..|ops| - 1]), ops[|ops| - 1])
  }

  /** After any run the list is sorted and holds exactly what was inserted and not removed. */
  lemma {:induction false} RunIsSorted(ops: seq<Op>)
    ensures Sorted(Run(ops))
    ensures multiset(Run(ops)) + Removals(ops) == Inserts(ops)
  {
    hide Apply, Given, Taken;
    if ops != [] {
      var s, op, taken := Run(ops[..|ops| - 1]), ops[|ops| - 1], Removals(ops[..|ops| - 1]);
      RunIsSorted(ops[..|ops| - 1]);
      ApplyKeeps(s, op);
      calc {
        multiset(Run(ops)) + Removals(ops);
        (multiset(Apply(s, op)) + Taken(s, op)) + taken;
        (multiset(s) + taken) + Given(op);
      }
    }
  }

  // ---------- the list in place ----------

  class SortedRequests {
    var items: seq<Allocation>

    constructor ()
      ensures items == []
    {
      items := [];
    }

    method InsertAsk(ask: Allocation)
      requires Sorted(items)
      modifies this
      ensures items == Inserted(old(items), ask) && Sorted(items)
    {
      var size := |items|;
      InsertKeepsSorted(items, ask);
      if size > 0 && ask.LessThan(items[size - 1]) {
        InsertAt(size, ask);
        return;
      }
      var idx := Search(ask);
      InsertAt(idx, ask);
    }

    /** Binary search for the first element that the ask may stand before. */
    method Search(ask: Allocation) returns (idx: nat)
      requires Sorted(items)
      ensures idx == FirstAfter(items, ask, 0)
    {
      var i, j := 0, |items|;
      while i < j
        invariant 0 <= i <= j <= |items|
        invariant forall k | 0 <= k < i :: !items[k].LessThan(ask)
        invariant forall k | j <= k < |items| :: items[k].LessThan(ask)
      {
        var h := (i + j) / 2;
        if !items[h].LessThan(ask) {
          assert forall k | 0 <= k < h :: Before(items[k], items[h]);
          i := h + 1;
        } else {
          assert forall k | h < k < |items| :: Before(items[h], items[k]);
          j := h;
        }
      }
      FirstAfterIs(items, ask, 0, i);
      return i;
    }

    method InsertAt(index: nat, ask: Allocation)
      requires index <= |items|
      modifies this
      ensures items == old(items[..index]) + [ask] + old(items[index..])
    {
      items := items[..index] + [ask] + items[index..];
    }

    method RemoveAsk(key: string)
      requires Sorted(items)
      modifies this
      ensures items == Removed(old(items), key) && Sorted(items)
    {
      RemoveKeepsSorted(items, key);
      for i := 0 to |items|
        invariant items == old(items)
        invariant forall j | 0 <= j < i :: items[j].key != key
      {
        if items[i].key == key {
          RemoveAt(i);
          return;
        }
      }
    }

    method RemoveAt(index: nat)
      requires index < |items|
      modifies this
      ensures items == old(items[..index]) + old(items[index + 1..])
    {
      items := items[..index] + items[index + 1..];
    }
  }
}
