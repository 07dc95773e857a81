/**
 The books of an application on values: its requests and allocations, the three running totals, the
 priority histogram and the links of running placeholder swaps, and what each operation of
 pkg/scheduler/objects/application.go does to them. Module Applications has the application itself,
 whose methods are proved to do exactly this.
 */
module ApplicationBooks {
  import opened Resources
  import opened Allocations
  import opened PendingPriorities
  import opened TrackedTotals
  import SortedAsks

  datatype Books = Books(
    facts: Facts, requests: Group, allocations: Group,
    pending: Amounts, allocatedResource: Amounts, allocatedPlaceholder: Amounts,
    priorities: Histogram, sorted: seq<Allocation>)

  const NEW := Books(map[], map[], map[], map[], map[], map[], EMPTY, [])

  predicate Placed(b: Books, a: Allocation) {
    a in b.facts && b.facts[a].placed
  }

  function LinkOf(b: Books, a: Allocation): Option<Allocation> {
    if a in b.facts then b.facts[a].link else None
  }

  // ---------- the three groups ----------

  function Pending(b: Books): Group {
    map k | k in b.requests && !Placed(b, b.requests[k]) :: b.requests[k]
  }

  function OfKind(allocations: Group, placeholder: bool): Group {
    map k | k in allocations && allocations[k].placeholder == placeholder :: allocations[k]
  }

  function PrioritiesOf(group: Group): map<string, Priority> {
    map k | k in group :: group[k].priority
  }

  // ---------- the operations ----------

  function SetPlaced(facts: Facts, a: Allocation, placed: bool): Facts
    requires a in facts
  {
    facts[a := facts[a].(placed := placed)]
  }

  function SetLink(facts: Facts, a: Allocation, link: Option<Allocation>): Facts {
    if a in facts then facts[a := facts[a].(link := link)] else facts
  }

  function SetReleased(facts: Facts, a: Allocation): Facts {
    if a in facts then facts[a := facts[a].(released := true)] else facts
  }

  /** The pending ask that an ask with the same key replaces. */
  function Prior(b: Books, key: string): Option<Allocation> {
    if key in b.requests && !Placed(b, b.requests[key]) then Some(b.requests[key]) else None
  }

  /** A new ask; it takes the place of a pending ask with the same key. */
  ghost function AskAdded(b: Books, a: Allocation, fact: Fact): Books {
    if fact.placed || IsZero(fact.resource) then b
    else
      var prior := Prior(b, a.key);
      var delta := if prior.Some? then Minus(fact.resource, SizeOf(b.facts, prior.value)) else fact.resource;
      var counted := if prior.Some? then Decremented(b.priorities, prior.value.priority) else b.priorities;
      b.(facts := b.facts[a := fact],
         requests := b.requests[a.key := a],
         priorities := Incremented(counted, a.priority),
         pending := Pruned(Plus(b.pending, delta)),
         sorted := SortedAsks.Inserted(b.sorted, a))
  }

  /** An allocation that was placed before the scheduler started: never pending and never in the sorted list. */
  function AskRecovered(b: Books, a: Allocation, fact: Fact): Books {
    b.(facts := b.facts[a := fact],
       requests := b.requests[a.key := a],
       priorities := if fact.placed then b.priorities else Incremented(b.priorities, a.priority))
  }

  function AllocationAdded(b: Books, a: Allocation): Books {
    b.(allocations := b.allocations[a.key := a],
       allocatedPlaceholder := if a.placeholder then Plus(b.allocatedPlaceholder, SizeOf(b.facts, a)) else b.allocatedPlaceholder,
       allocatedResource := if a.placeholder then b.allocatedResource else Plus(b.allocatedResource, SizeOf(b.facts, a)))
  }

  function AllocationRemoved(b: Books, key: string): Books {
    if key !in b.allocations then b
    else
      var a := b.allocations[key];
      b.(allocations := b.allocations - {key},
         allocatedPlaceholder := if a.placeholder then Pruned(Minus(b.allocatedPlaceholder, SizeOf(b.facts, a))) else b.allocatedPlaceholder,
         allocatedResource := if a.placeholder then b.allocatedResource else Pruned(Minus(b.allocatedResource, SizeOf(b.facts, a))))
  }

  function AllocationsRemoved(b: Books): Books {
    b.(allocations := map[], allocatedResource := map[], allocatedPlaceholder := map[])
  }

  ghost function AskAllocated(b: Books, a: Allocation): Books {
    if a !in b.facts || b.facts[a].placed then b
    else
      b.(facts := SetPlaced(b.facts, a, true),
         priorities := Decremented(b.priorities, a.priority),
         pending := Pruned(Minus(b.pending, SizeOf(b.facts, a))))
  }

  function AskDeallocated(b: Books, a: Allocation): Books {
    if a !in b.facts || !b.facts[a].placed then b
    else
      b.(facts := SetPlaced(b.facts, a, false),
         priorities := if a.key in b.requests && b.requests[a.key] == a then Incremented(b.priorities, a.priority) else b.priorities,
         pending := Plus(b.pending, SizeOf(b.facts, a)))
  }

  /** Back to a pending ask after a failed bind. The size always leaves the total of the real allocations. */
  function RolledBack(b: Books, key: string): Books {
    if key !in b.requests || key !in b.allocations || !Placed(b, b.allocations[key]) then b
    else
      var a := b.allocations[key];
      var d := AskDeallocated(b, a);
      d.(allocations := d.allocations - {key},
         allocatedResource := Pruned(Minus(d.allocatedResource, SizeOf(b.facts, a))))
  }

  /** A new size. For a placed ask the change always goes to the total of the real allocations. */
  function Resized(b: Books, key: string, resource: Amounts): Books {
    if IsZero(resource) || key !in b.requests || b.requests[key] !in b.facts
       || IsZero(Minus(resource, SizeOf(b.facts, b.requests[key]))) then b
    else
      var a := b.requests[key];
      var delta := Pruned(Minus(resource, SizeOf(b.facts, a)));
      b.(facts := b.facts[a := b.facts[a].(resource := resource)],
         allocatedResource := if b.facts[a].placed then Pruned(Plus(b.allocatedResource, delta)) else b.allocatedResource,
         pending := if b.facts[a].placed then b.pending else Pruned(Plus(b.pending, delta)))
  }

  /** A request with a new size has that size afterwards, placed or not, and no other fact changes. */
  lemma ResizedSize(b: Books, key: string, resource: Amounts)
    ensures var r := Resized(b, key, resource);
            && r.facts.Keys == b.facts.Keys
            && (forall a | a in b.facts && !(key in b.requests && b.requests[key] == a) :: r.facts[a] == b.facts[a])
            && (key in b.requests && b.requests[key] in b.facts ==>
                  var a := b.requests[key];
                  && r.facts[a] == b.facts[a].(resource := r.facts[a].resource)
                  && SameView(SizeOf(r.facts, a), if IsZero(resource) then SizeOf(b.facts, a) else resource))
  {
    hide Plus, Minus, Pruned;
    if key in b.requests && b.requests[key] in b.facts {
      ZeroDifference(resource, SizeOf(b.facts, b.requests[key]));
    }
  }

  lemma ZeroDifference(a: Amounts, b: Amounts)
    ensures IsZero(Minus(a, b)) ==> SameView(a, b)
  {
    if IsZero(Minus(a, b)) {
      forall k: string
        ensures Get(a, k) == Get(b, k)
      {
        assert Get(Minus(a, b), k) == 0;
      }
    }
  }

  ghost function AskRemoved(b: Books, key: string): Books {
    if key !in b.requests then b
    else
      var a := b.requests[key];
      b.(requests := b.requests - {key},
         priorities := if Placed(b, a) then b.priorities else Decremented(b.priorities, a.priority),
         pending := if Placed(b, a) then b.pending else Pruned(Minus(b.pending, SizeOf(b.facts, a))),
         sorted := SortedAsks.Removed(b.sorted, key))
  }

  function AsksRemoved(b: Books): Books {
    if b.requests == map[] then b
    else b.(requests := map[], pending := map[], priorities := EMPTY, sorted := [])
  }

  /** The first half of a swap: the ask is placed and both sides point at each other. */
  ghost function SwapLinked(b: Books, ph: Allocation, ask: Allocation): Books {
    var p := AskAllocated(b, ask);
    p.(facts := SetLink(SetLink(p.facts, ask, Some(ph)), ph, Some(ask)))
  }

  /** The swap goes on when the placeholder accepts its release mark and is undone when it refuses. */
  ghost function Swapped(b: Books, ph: Allocation, ask: Allocation, refused: bool): Books {
    var l := SwapLinked(b, ph, ask);
    if refused then
      var d := AskDeallocated(l, ask);
      d.(facts := SetLink(SetLink(d.facts, ask, None), ph, None))
    else
      l.(facts := SetReleased(l.facts, ph))
  }

  /** The end of a swap: the placeholder leaves and the allocation it points at takes its place. */
  function SwapConfirmed(b: Books, key: string): Books {
    if key !in b.allocations then b
    else
      var link := LinkOf(b, b.allocations[key]);
      var r := AllocationRemoved(b, key);
      if link.None? then r
      else
        var e := AllocationAdded(r, link.value);
        e.(facts := SetLink(e.facts, link.value, None))
  }

  /** A swap reversed by the removal of a node: both sides are unlinked and the ask is pending again. */
  function SwapCancelled(b: Books, ph: Allocation, ask: Allocation): Books {
    var u := b.(facts := SetLink(SetLink(b.facts, ask, None), ph, None));
    if ask.key in u.requests then AskDeallocated(u, u.requests[ask.key]) else u
  }

  // ---------- the invariants ----------

  predicate RequestsListed(b: Books) {
    forall k | k in b.requests :: b.requests[k] in b.facts && b.requests[k].key == k
  }

  predicate AllocationsListed(b: Books) {
    forall k | k in b.allocations :: b.allocations[k].key == k && b.allocations[k] in b.facts
  }

  predicate UniqueKeys(facts: Facts) {
    forall a, c | a in facts && c in facts && a.key == c.key :: a == c
  }

  predicate NoZeroSizes(facts: Facts) {
    forall a | a in facts :: !IsZero(facts[a].resource)
  }

  /**
   Entries are listed under their key, and keys are unique. What is in allocations need not be placed:
   an ask can return to pending before its allocation is taken away.
   */
  predicate WellFormed(b: Books) {
    RequestsListed(b) && AllocationsListed(b) && UniqueKeys(b.facts) && NoNegativeSizes(b.facts) && NoZeroSizes(b.facts)
  }

  /**
   A link joins a placeholder and a real ask. A linked placeholder is released, and the placeholder of a
   real ask points back. The real ask of a placeholder may point elsewhere, return to pending or be
   among the allocations: nothing stops it from leaving the swap.
   */
  predicate LinksMatch(b: Books) {
    forall a | a in b.facts && b.facts[a].link.Some? ::
      var other := b.facts[a].link.value;
      && other in b.facts && other.placeholder == !a.placeholder
      && if a.placeholder then b.facts[a].released else b.facts[other].link == Some(a)
  }

  /** Every total is the sum over its group. */
  ghost predicate TotalsTrack(b: Books) {
    && Tracks(b.pending, b.facts, Pending(b))
    && Tracks(b.allocatedResource, b.facts, OfKind(b.allocations, false))
    && Tracks(b.allocatedPlaceholder, b.facts, OfKind(b.allocations, true))
  }

  ghost predicate HistogramAgrees(b: Books) {
    Agrees(b.priorities, PrioritiesOf(Pending(b)))
  }

  ghost predicate Sound(b: Books) {
    WellFormed(b) && LinksMatch(b) && TotalsTrack(b) && HistogramAgrees(b)
  }

  /** The sums over the groups are 64 bit numbers. */
  ghost predicate AllSummable(b: Books) {
    && Summable(b.facts, Pending(b))
    && Summable(b.facts, OfKind(b.allocations, false))
    && Summable(b.facts, OfKind(b.allocations, true))
  }

  lemma NewIsSound()
    ensures Sound(NEW)
  {
    EmptyTracks(map[]);
    NothingPendingAgrees();
    assert Pending(NEW) == map[] && OfKind(map[], true) == map[] && OfKind(map[], false) == map[];
    assert PrioritiesOf(map[]) == map[];
  }
}
