/**
 The operations the partition calls on an application, as steps of a run: the books are sound after
 any run of them. Where the code books a change in the wrong total, the exact condition is stated.
 */
module ApplicationRuns {
  import opened Resources
  import opened Allocations
  import opened PendingPriorities
  import opened TrackedTotals
  import opened ApplicationBooks
  import opened ApplicationSteps
  import opened PlaceholderSwaps

  // ---------- a failed bind ----------

  /** A rollback is the removal of a real allocation followed by the return of its ask. */
  lemma RollbackInTwoSteps(b: Books, key: string)
    requires WellFormed(b) && key in b.requests && key in b.allocations && !b.allocations[key].placeholder
    requires Placed(b, b.allocations[key])
    ensures b.requests[key] == b.allocations[key]
    ensures RolledBack(b, key) == AskDeallocated(AllocationRemoved(b, key), b.allocations[key])
  {
    hide Plus, Minus, Pruned, SizeOf, Incremented, NoNegativeSizes, NoZeroSizes;
  }

  lemma RealRollbackKeepsSound(b: Books, key: string)
    requires Sound(b) && key in b.requests && key in b.allocations && !b.allocations[key].placeholder
    requires Placed(b, b.allocations[key]) && AllSummable(RolledBack(b, key))
    ensures Sound(RolledBack(b, key))
  {
    var a, m := b.allocations[key], AllocationRemoved(b, key);
    RollbackInTwoSteps(b, key);
    RemoveKeepsTotals(b, key);
    RemoveKeepsForm(b, key);
    KeyOfListed(b, key);
    assert m.facts == b.facts && m.requests == b.requests && m.allocations == b.allocations - {key};
    StillSummable(m, a);
    hide WellFormed, LinksMatch, TotalsTrack, HistogramAgrees, AllSummable, AskDeallocated, AllocationRemoved,
         RolledBack, Summable, Pending;
    DeallocateKeepsTotals(m, a);
    DeallocateKeepsForm(m, a);
  }

  lemma KeyOfListed(b: Books, key: string)
    requires WellFormed(b) && key in b.allocations
    ensures b.allocations[key].key == key && b.allocations[key] in b.facts
  {
    hide UniqueKeys, NoNegativeSizes, NoZeroSizes;
  }

  lemma SomeTypeIsPositive(b: Books, a: Allocation) returns (t: string)
    requires WellFormed(b) && a in b.facts
    ensures 0 < Get(SizeOf(b.facts, a), t)
  {
    hide UniqueKeys, RequestsListed, AllocationsListed;
    assert NonNegative(b.facts[a].resource) && !IsZero(b.facts[a].resource);
    t :| t in b.facts[a].resource && b.facts[a].resource[t] != 0;
  }

  /** The rollback is not refused and concerns a placeholder. */
  predicate RollsBackPlaceholder(b: Books, key: string) {
    key in b.requests && key in b.allocations && b.allocations[key].placeholder && Placed(b, b.allocations[key])
  }

  lemma PlaceholderRollback(b: Books, key: string)
    requires WellFormed(b) && RollsBackPlaceholder(b, key)
    ensures var a, r := b.allocations[key], RolledBack(b, key);
            && a in b.facts && SameSizes(r.facts, b.facts)
            && r.allocatedResource == Pruned(Minus(b.allocatedResource, SizeOf(b.facts, a)))
            && OfKind(r.allocations, false) == OfKind(b.allocations, false)
  {
    hide UniqueKeys, NoNegativeSizes, NoZeroSizes, Plus, Minus, Pruned, SizeOf, Incremented;
  }

  /** A rollback of a placeholder takes its size from the total of the real allocations. */
  lemma PlaceholderRollbackIsWrong(b: Books, key: string)
    requires Sound(b) && RollsBackPlaceholder(b, key)
    ensures !TotalsTrack(RolledBack(b, key))
  {
    hide Tracks, WellFormed, LinksMatch, HistogramAgrees;
    PlaceholderRollback(b, key);
    FormOf(b);
    var t := SomeTypeIsPositive(b, b.allocations[key]);
    hide RolledBack, OfKind, Pending;
    ReducedIsWrong(b.allocatedResource, b.facts, RolledBack(b, key).facts, OfKind(b.allocations, false), SizeOf(b.facts, b.allocations[key]), t);
  }

  /** A total that lost the size of something else does not track its group. */
  lemma ReducedIsWrong(total: Amounts, f: Facts, g: Facts, group: Group, size: Amounts, t: string)
    requires Tracks(total, f, group) && NoNegativeSizes(f) && SameSizes(g, f) && 0 < Get(size, t)
    ensures !Tracks(Pruned(Minus(total, size)), g, group)
  {
    hide NoNegativeSizes, SameSizes, Minus, TotalOf;
    SizesAlike(g, f, group, t);
    TotalIsNotNegative(f, group, t);
    MinusAt(total, size, t);
    PrunedAt(Minus(total, size), t);
    assert Get(Pruned(Minus(total, size)), t) != TotalOf(g, group, t);
  }

  lemma SizesAlike(f: Facts, g: Facts, group: Group, t: string)
    requires SameSizes(f, g)
    ensures TotalOf(f, group, t) == TotalOf(g, group, t)
  {
    assert SizesOf(f, group, t) == SizesOf(g, group, t);
  }

  /** The books are sound after a rollback exactly when it does nothing or rolls back a real allocation. */
  lemma RollbackSoundIff(b: Books, key: string)
    requires Sound(b) && AllSummable(RolledBack(b, key))
    ensures Sound(RolledBack(b, key)) <==> !RollsBackPlaceholder(b, key)
  {
    hide TotalsTrack, HistogramAgrees, LinksMatch, AllSummable, WellFormed;
    if key in b.requests && key in b.allocations && Placed(b, b.allocations[key]) {
      if b.allocations[key].placeholder {
        PlaceholderRollbackIsWrong(b, key);
      } else {
        RealRollbackKeepsSound(b, key);
      }
    }
  }

  // ---------- a new size ----------

  /** The change of a size that the code books, in a type where there is one. */
  lemma SomeTypeChanges(resource: Amounts, size: Amounts) returns (t: string)
    requires !IsZero(Minus(resource, size))
    ensures Get(Pruned(Minus(resource, size)), t) != 0
  {
    t :| t in Minus(resource, size) && Minus(resource, size)[t] != 0;
  }

  lemma MisbookedResize(b: Books, key: string, resource: Amounts)
    requires WellFormed(b) && !ResizeBooked(b, key, resource) && Placed(b, b.requests[key])
    ensures var a, r := b.requests[key], Resized(b, key, resource);
            && !IsZero(Minus(resource, SizeOf(b.facts, a)))
            && r.allocatedResource == Pruned(Plus(b.allocatedResource, Pruned(Minus(resource, SizeOf(b.facts, a)))))
            && OfKind(r.allocations, false) == OfKind(b.allocations, false)
            && (forall k | k in OfKind(b.allocations, false) ::
                  SizeOf(r.facts, OfKind(b.allocations, false)[k]) == SizeOf(b.facts, OfKind(b.allocations, false)[k]))
  {
    hide NoNegativeSizes, NoZeroSizes, Plus, Minus, Pruned, IsZero;
    var a := b.requests[key];
    assert forall k | k in OfKind(b.allocations, false) :: OfKind(b.allocations, false)[k] != a;
  }

  /**
   A new size of a placeholder, or of an ask whose swap is not confirmed, is booked on the total of the
   real allocations. That of a pending ask whose allocation is still there is booked on pending only.
   */
  lemma MisbookedResizeIsWrong(b: Books, key: string, resource: Amounts)
    requires Sound(b) && NonNegative(resource) && !ResizeBooked(b, key, resource)
    requires SumFits(b.allocatedResource, Pruned(Minus(resource, SizeOf(b.facts, b.requests[key]))))
    ensures !TotalsTrack(Resized(b, key, resource))
  {
    hide Tracks, WellFormed, LinksMatch, HistogramAgrees;
    if Placed(b, b.requests[key]) {
      MisplacedResizeIsWrong(b, key, resource);
    } else {
      ListedResizeIsWrong(b, key, resource);
    }
  }

  /** The allocated total stays while the size of a member changes. */
  lemma ListedResizeIsWrong(b: Books, key: string, resource: Amounts)
    requires Sound(b) && NonNegative(resource) && !ResizeBooked(b, key, resource) && !Placed(b, b.requests[key])
    ensures !TotalsTrack(Resized(b, key, resource))
  {
    hide Tracks, WellFormed, LinksMatch, HistogramAgrees;
    FormOf(b);
    Standing(b, key);
    MembersUnderTheirKey(b);
    var a, r := b.requests[key], Resized(b, key, resource);
    var f := b.facts[a].(resource := resource);
    assert r.facts == b.facts[a := f] && r.allocations == b.allocations && SizeOf(r.facts, a) == resource;
    hide Resized, OfKind, Pending, ResizeBooked, SizeOf;
    var t := SomeTypeChanges(resource, SizeOf(b.facts, a));
    var group := OfKind(b.allocations, a.placeholder);
    OnlyUnderItsKey(b.facts, a, f, group);
    SizeIsNotNegative(b.facts, a, t);
    NonNegativeAt(resource, t);
    MinusAt(resource, SizeOf(b.facts, a), t);
    PrunedAt(Minus(resource, SizeOf(b.facts, a)), t);
    UnchangedIsWrong(if a.placeholder then b.allocatedPlaceholder else b.allocatedResource, b.facts, r.facts, group, key, t);
    ListedResizeKeepsTotals(b, key, resource);
  }

  lemma ListedResizeKeepsTotals(b: Books, key: string, resource: Amounts)
    requires key in b.requests && !Placed(b, b.requests[key])
    ensures var r := Resized(b, key, resource);
            r.allocatedResource == b.allocatedResource && r.allocatedPlaceholder == b.allocatedPlaceholder
  {
    hide Plus, Minus, Pruned, SizeOf, IsZero;
  }

  lemma UnchangedIsWrong(total: Amounts, f: Facts, g: Facts, group: Group, key: string, t: string)
    requires Tracks(total, f, group) && key in group
    requires forall k | k in group && k != key :: SizeOf(g, group[k]) == SizeOf(f, group[k])
    requires Get(SizeOf(g, group[key]), t) != Get(SizeOf(f, group[key]), t)
    ensures !Tracks(total, g, group)
  {
    hide SizeOf, TotalOf;
    TotalResized(f, g, group, key, t);
    assert Get(total, t) != TotalOf(g, group, t);
  }

  lemma MisplacedResizeIsWrong(b: Books, key: string, resource: Amounts)
    requires Sound(b) && !ResizeBooked(b, key, resource) && Placed(b, b.requests[key])
    requires SumFits(b.allocatedResource, Pruned(Minus(resource, SizeOf(b.facts, b.requests[key]))))
    ensures !TotalsTrack(Resized(b, key, resource))
  {
    hide Tracks, WellFormed, LinksMatch, HistogramAgrees;
    MisbookedResize(b, key, resource);
    var size := SizeOf(b.facts, b.requests[key]);
    hide Resized, OfKind, Pending, ResizeBooked, SizeOf, SumFits;
    var t := SomeTypeChanges(resource, size);
    ChangedIsWrong(b.allocatedResource, b.facts, Resized(b, key, resource).facts, OfKind(b.allocations, false), Pruned(Minus(resource, size)), t);
  }

  /** A total that took the change of something else does not track its group. */
  lemma ChangedIsWrong(total: Amounts, f: Facts, g: Facts, group: Group, delta: Amounts, t: string)
    requires Tracks(total, f, group) && SumFits(total, delta) && Get(delta, t) != 0
    requires forall k | k in group :: SizeOf(g, group[k]) == SizeOf(f, group[k])
    ensures !Tracks(Pruned(Plus(total, delta)), g, group)
  {
    hide SizeOf, Plus, SumFits;
    assert SizesOf(g, group, t) == SizesOf(f, group, t);
    PlusExact(total, delta, t);
    PrunedAt(Plus(total, delta), t);
    assert Get(Pruned(Plus(total, delta)), t) != TotalOf(g, group, t);
  }

  /**
   The books are sound after a resize exactly when it concerns a pending ask that is not among the
   allocations, or a confirmed real allocation, or changes nothing.
   */
  lemma ResizeSoundIff(b: Books, key: string, resource: Amounts)
    requires Sound(b) && NonNegative(resource) && AllSummable(Resized(b, key, resource))
    requires key in b.requests ==> SumFits(b.allocatedResource, Pruned(Minus(resource, SizeOf(b.facts, b.requests[key]))))
    ensures Sound(Resized(b, key, resource)) <==> ResizeBooked(b, key, resource)
  {
    hide TotalsTrack, HistogramAgrees, LinksMatch, AllSummable, WellFormed, SumFits;
    if ResizeBooked(b, key, resource) {
      ResizeKeepsForm(b, key, resource);
      ResizeKeepsTotals(b, key, resource);
    } else {
      MisbookedResizeIsWrong(b, key, resource);
    }
  }

  // ---------- an ask that returns ----------

  /** A placed ask can return at any time, also when it is confirmed or in a swap. */
  lemma UnwindKeepsSound(b: Books, key: string)
    requires Sound(b) && key in b.requests && AllSummable(AskDeallocated(b, b.requests[key]))
    ensures Sound(AskDeallocated(b, b.requests[key]))
  {
    var a := b.requests[key];
    FormOf(b);
    StillSummable(b, a);
    hide WellFormed, LinksMatch, TotalsTrack, HistogramAgrees, AllSummable, Summable, Pending;
    if Placed(b, a) {
      hide AskDeallocated;
      DeallocateKeepsTotals(b, a);
      DeallocateKeepsForm(b, a);
    }
  }

  // ---------- runs ----------

  /** A release takes the allocation away and then its ask. A removal leaves the ask, as after a timeout or when a node is removed. */
  datatype Op =
    | AddAsk(ask: Allocation, fact: Fact)
    | Recover(alloc: Allocation, fact: Fact)
    | Place(key: string)
    | Resize(key: string, resource: Amounts)
    | Unwind(key: string)
    | Rollback(key: string)
    | RemoveAsk(key: string)
    | RemoveAsks
    | RemoveAllocation(key: string)
    | RemoveAllocations
    | Release(key: string)
    | ReleaseAll
    | Swap(ph: Allocation, ask: Allocation, refused: bool)
    | ConfirmSwap(key: string)
    | CancelSwap(ph: Allocation, ask: Allocation)
    | MarkReleased(alloc: Allocation)

  ghost function Next(b: Books, op: Op): Books {
    match op
    case AddAsk(a, fact) => AskAdded(b, a, fact)
    case Recover(a, fact) => AllocationAdded(AskRecovered(b, a, fact), a)
    case Place(key) =>
      if key in b.requests && !Placed(b, b.requests[key]) then AllocationAdded(AskAllocated(b, b.requests[key]), b.requests[key]) else b
    case Resize(key, resource) => Resized(b, key, resource)
    case Unwind(key) => if key in b.requests then AskDeallocated(b, b.requests[key]) else b
    case Rollback(key) => RolledBack(b, key)
    case RemoveAsk(key) => AskRemoved(b, key)
    case RemoveAsks => AsksRemoved(b)
    case RemoveAllocation(key) => AllocationRemoved(b, key)
    case RemoveAllocations => AllocationsRemoved(b)
    case Release(key) => AskRemoved(AllocationRemoved(b, key), key)
    case ReleaseAll => AsksRemoved(AllocationsRemoved(b))
    case Swap(ph, a, refused) => Swapped(b, ph, a, refused)
    case ConfirmSwap(key) => SwapConfirmed(b, key)
    case CancelSwap(ph, a) => SwapCancelled(b, ph, a)
    case MarkReleased(a) => b.(facts := SetReleased(b.facts, a))
  }

  // ---------- what a step does to the lists ----------

  lemma SameLists(b: Books, x: Allocation)
    ensures AskAllocated(b, x).requests == b.requests && AskAllocated(b, x).allocations == b.allocations
    ensures AskDeallocated(b, x).requests == b.requests && AskDeallocated(b, x).allocations == b.allocations
  {
    hide Plus, Minus, Pruned, Incremented, Decremented, SetPlaced;
  }

  lemma SwapKeepsLists(b: Books, ph: Allocation, x: Allocation, refused: bool)
    ensures Swapped(b, ph, x, refused).requests == b.requests && Swapped(b, ph, x, refused).allocations == b.allocations
  {
    hide AskAllocated, AskDeallocated, SetLink, SetReleased;
    SameLists(b, x);
    SameLists(SwapLinked(b, ph, x), x);
  }

  lemma CancelKeepsLists(b: Books, ph: Allocation, x: Allocation)
    ensures SwapCancelled(b, ph, x).requests == b.requests && SwapCancelled(b, ph, x).allocations == b.allocations
  {
    hide AskDeallocated, SetLink;
    if x.key in b.requests {
      SameLists(b.(facts := SetLink(SetLink(b.facts, x, None), ph, None)), b.requests[x.key]);
    }
  }

  lemma RemovalLists(b: Books, key: string)
    ensures AskRemoved(b, key).requests == b.requests - {key} && AskRemoved(b, key).allocations == b.allocations
    ensures AllocationRemoved(b, key).allocations == b.allocations - {key} && AllocationRemoved(b, key).requests == b.requests
    ensures AllocationRemoved(b, key).facts == b.facts && AskRemoved(b, key).facts == b.facts
  {
    hide Plus, Minus, Pruned, Decremented;
    if key !in b.requests {
      assert b.requests - {key} == b.requests;
    }
    if key !in b.allocations {
      assert b.allocations - {key} == b.allocations;
    }
  }

  /** The steps that go through several operations leave exactly these lists. */
  lemma ListsAfterRemoval(b: Books, key: string)
    ensures AskRemoved(AllocationRemoved(b, key), key).requests == b.requests - {key}
    ensures AskRemoved(AllocationRemoved(b, key), key).allocations == b.allocations - {key}
    ensures AsksRemoved(AllocationsRemoved(b)).requests == map[] && AsksRemoved(AllocationsRemoved(b)).allocations == map[]
  {
    hide AskRemoved, AllocationRemoved;
    RemovalLists(b, key);
    RemovalLists(AllocationRemoved(b, key), key);
  }

  lemma ListsAfterReturn(b: Books, key: string, resource: Amounts)
    ensures RolledBack(b, key).requests == b.requests
    ensures RolledBack(b, key).allocations
            == if key in b.requests && key in b.allocations && Placed(b, b.allocations[key]) then b.allocations - {key} else b.allocations
    ensures Resized(b, key, resource).requests == b.requests && Resized(b, key, resource).allocations == b.allocations
  {
    hide AskDeallocated, Plus, Minus, Pruned, IsZero, Placed;
    if key in b.allocations {
      SameLists(b, b.allocations[key]);
    }
  }

  lemma ListsAfterConfirm(b: Books, key: string)
    ensures SwapConfirmed(b, key).requests == b.requests
    ensures SwapConfirmed(b, key).allocations ==
              if key !in b.allocations then b.allocations
              else
                var link := LinkOf(b, b.allocations[key]);
                if link.None? then b.allocations - {key} else (b.allocations - {key})[link.value.key := link.value]
  {
    hide AllocationRemoved, SetLink, Plus;
    RemovalLists(b, key);
  }

  lemma ListsAfterAdding(b: Books, a: Allocation, fact: Fact)
    ensures AskAdded(b, a, fact).allocations == b.allocations
    ensures AskAdded(b, a, fact).requests == if fact.placed || IsZero(fact.resource) then b.requests else b.requests[a.key := a]
    ensures var r := AllocationAdded(AskRecovered(b, a, fact), a);
            r.requests == b.requests[a.key := a] && r.allocations == b.allocations[a.key := a]
  {
    hide Plus, Minus, Pruned, Incremented, Decremented, IsZero;
  }

  lemma ListsAfterPlacing(b: Books, a: Allocation)
    ensures var p := AllocationAdded(AskAllocated(b, a), a);
            p.requests == b.requests && p.allocations == b.allocations[a.key := a] && p.facts == AskAllocated(b, a).facts
  {
    hide AskAllocated, Plus;
    SameLists(b, a);
  }

  /** The requests after a step: an ask is listed from the step that adds it to the one that removes it. */
  lemma RequestsAfter(b: Books, op: Op)
    ensures Next(b, op).requests ==
              match op
              case AddAsk(a, fact) => if fact.placed || IsZero(fact.resource) then b.requests else b.requests[a.key := a]
              case Recover(a, _) => b.requests[a.key := a]
              case RemoveAsk(key) => b.requests - {key}
              case Release(key) => b.requests - {key}
              case RemoveAsks => map[]
              case ReleaseAll => map[]
              case _ => b.requests
  {
    hide AskAdded, AskRecovered, AllocationAdded, AllocationRemoved, AskAllocated, AskDeallocated, RolledBack, Resized;
    hide AskRemoved, Swapped, SwapConfirmed, SwapCancelled, SetReleased, IsZero;
    match op
    case AddAsk(a, fact) => ListsAfterAdding(b, a, fact);
    case Recover(a, fact) => ListsAfterAdding(b, a, fact);
    case Place(key) => if key in b.requests { ListsAfterPlacing(b, b.requests[key]); }
    case Resize(key, resource) => ListsAfterReturn(b, key, resource);
    case Unwind(key) => if key in b.requests { SameLists(b, b.requests[key]); }
    case Rollback(key) => ListsAfterReturn(b, key, map[]);
    case RemoveAsk(key) => RemovalLists(b, key);
    case RemoveAllocation(key) => RemovalLists(b, key);
    case Release(key) => ListsAfterRemoval(b, key);
    case ReleaseAll => ListsAfterRemoval(b, "");
    case Swap(ph, x, refused) => SwapKeepsLists(b, ph, x, refused);
    case CancelSwap(ph, x) => CancelKeepsLists(b, ph, x);
    case ConfirmSwap(key) => ListsAfterConfirm(b, key);
    case _ =>
  }

  /** The allocations after a step. A confirmed swap puts the linked ask in the place of the placeholder. */
  lemma AllocationsAfter(b: Books, op: Op)
    ensures Next(b, op).allocations ==
              match op
              case Recover(a, _) => b.allocations[a.key := a]
              case Place(key) =>
                if key in b.requests && !Placed(b, b.requests[key]) then b.allocations[b.requests[key].key := b.requests[key]] else b.allocations
              case Rollback(key) =>
                if key in b.requests && key in b.allocations && Placed(b, b.allocations[key]) then b.allocations - {key} else b.allocations
              case RemoveAllocation(key) => b.allocations - {key}
              case Release(key) => b.allocations - {key}
              case RemoveAllocations => map[]
              case ReleaseAll => map[]
              case ConfirmSwap(key) =>
                if key !in b.allocations then b.allocations
                else
                  var link := LinkOf(b, b.allocations[key]);
                  if link.None? then b.allocations - {key} else (b.allocations - {key})[link.value.key := link.value]
              case _ => b.allocations
  {
    hide AskAdded, AskRecovered, AllocationAdded, AllocationRemoved, AskAllocated, AskDeallocated, RolledBack, Resized;
    hide AskRemoved, Swapped, SwapConfirmed, SwapCancelled, SetReleased, IsZero;
    match op
    case AddAsk(a, fact) => ListsAfterAdding(b, a, fact);
    case Recover(a, fact) => ListsAfterAdding(b, a, fact);
    case Place(key) => if key in b.requests { ListsAfterPlacing(b, b.requests[key]); }
    case Resize(key, resource) => ListsAfterReturn(b, key, resource);
    case Unwind(key) => if key in b.requests { SameLists(b, b.requests[key]); }
    case Rollback(key) => ListsAfterReturn(b, key, map[]);
    case RemoveAsk(key) => RemovalLists(b, key);
    case RemoveAllocation(key) => RemovalLists(b, key);
    case Release(key) => ListsAfterRemoval(b, key);
    case ReleaseAll => ListsAfterRemoval(b, "");
    case Swap(ph, x, refused) => SwapKeepsLists(b, ph, x, refused);
    case CancelSwap(ph, x) => CancelKeepsLists(b, ph, x);
    case ConfirmSwap(key) => ListsAfterConfirm(b, key);
    case _ =>
  }

  lemma PlacedByAllocate(b: Books, x: Allocation, a: Allocation)
    ensures Placed(AskAllocated(b, x), a) <==> Placed(b, a) || (a == x && a in b.facts)
    ensures AskAllocated(b, x).facts.Keys == b.facts.Keys
  {
    hide Plus, Minus, Pruned, Incremented, Decremented;
  }

  lemma PlacedByDeallocate(b: Books, x: Allocation, a: Allocation)
    ensures Placed(AskDeallocated(b, x), a) <==> Placed(b, a) && a != x
  {
    hide Plus, Minus, Pruned, Incremented, Decremented;
  }

  lemma LinksAside(b: Books, x: Allocation, y: Allocation, l: Option<Allocation>, m: Option<Allocation>, a: Allocation)
    ensures Placed(b.(facts := SetLink(SetLink(b.facts, x, l), y, m)), a) == Placed(b, a)
    ensures SetLink(SetLink(b.facts, x, l), y, m).Keys == b.facts.Keys
    ensures Placed(b.(facts := SetReleased(b.facts, x)), a) == Placed(b, a)
  {
  }

  lemma PlacedBySwap(b: Books, ph: Allocation, x: Allocation, refused: bool, a: Allocation)
    ensures Placed(Swapped(b, ph, x, refused), a) <==> if a == x then a in b.facts && !refused else Placed(b, a)
  {
    hide AskAllocated, AskDeallocated, SetLink, SetReleased, Placed;
    PlacedByAllocate(b, x, a);
    var p := AskAllocated(b, x);
    LinksAside(p, x, ph, Some(ph), Some(x), a);
    var l := SwapLinked(b, ph, x);
    PlacedByDeallocate(l, x, a);
    LinksAside(AskDeallocated(l, x), x, ph, None, None, a);
    LinksAside(l, ph, ph, None, None, a);
    assert Placed(b, a) ==> a in b.facts by { PlacedIsKnown(b, a); }
  }

  lemma PlacedIsKnown(b: Books, a: Allocation)
    ensures Placed(b, a) ==> a in b.facts
  {
  }

  lemma PlacedByCancel(b: Books, ph: Allocation, x: Allocation, a: Allocation)
    ensures Placed(SwapCancelled(b, ph, x), a) <==> Placed(b, a) && !(x.key in b.requests && b.requests[x.key] == a)
  {
    hide AskDeallocated, SetLink, Placed;
    var u := b.(facts := SetLink(SetLink(b.facts, x, None), ph, None));
    LinksAside(b, x, ph, None, None, a);
    if x.key in b.requests {
      PlacedByDeallocate(u, b.requests[x.key], a);
    }
  }

  lemma PlacedByAdding(b: Books, x: Allocation, fact: Fact, a: Allocation)
    ensures Placed(AskAdded(b, x, fact), a)
            <==> if a == x && !fact.placed && !IsZero(fact.resource) then false else Placed(b, a)
    ensures Placed(AllocationAdded(AskRecovered(b, x, fact), x), a) <==> if a == x then fact.placed else Placed(b, a)
  {
    hide Plus, Minus, Pruned, Incremented, Decremented, IsZero;
  }

  lemma PlacedByReturn(b: Books, key: string, resource: Amounts, a: Allocation)
    ensures Placed(RolledBack(b, key), a) <==> Placed(b, a) && !(key in b.requests && key in b.allocations && b.allocations[key] == a)
    ensures Placed(Resized(b, key, resource), a) == Placed(b, a)
  {
    hide AskDeallocated, Plus, Minus, Pruned, IsZero;
    if key in b.allocations {
      PlacedByDeallocate(b, b.allocations[key], a);
    }
  }

  lemma PlacedByConfirm(b: Books, key: string, a: Allocation)
    ensures Placed(SwapConfirmed(b, key), a) == Placed(b, a)
  {
    hide AllocationRemoved, Plus;
    RemovalLists(b, key);
  }

  /** An ask is placed by its placement or a swap that goes on, and is pending again after each way back. */
  lemma PlacedAfter(b: Books, op: Op, a: Allocation)
    ensures Placed(Next(b, op), a) <==>
              match op
              case AddAsk(x, fact) => if a == x && !fact.placed && !IsZero(fact.resource) then false else Placed(b, a)
              case Recover(x, fact) => if a == x then fact.placed else Placed(b, a)
              case Place(key) => Placed(b, a) || (a in b.facts && key in b.requests && b.requests[key] == a)
              case Unwind(key) => Placed(b, a) && !(key in b.requests && b.requests[key] == a)
              case Rollback(key) => Placed(b, a) && !(key in b.requests && key in b.allocations && b.allocations[key] == a)
              case Swap(_, x, refused) => if a == x then a in b.facts && !refused else Placed(b, a)
              case CancelSwap(_, x) => Placed(b, a) && !(x.key in b.requests && b.requests[x.key] == a)
              case _ => Placed(b, a)
  {
    hide AskAdded, AskRecovered, AllocationAdded, AllocationRemoved, AskAllocated, AskDeallocated, RolledBack, Resized;
    hide AskRemoved, Swapped, SwapConfirmed, SwapCancelled, SetReleased, IsZero;
    match op
    case AddAsk(x, fact) => PlacedByAdding(b, x, fact, a);
    case Recover(x, fact) => PlacedByAdding(b, x, fact, a);
    case Place(key) =>
      if key in b.requests {
        PlacedByAllocate(b, b.requests[key], a);
        ListsAfterPlacing(b, b.requests[key]);
      }
    case Resize(key, resource) => PlacedByReturn(b, key, resource, a);
    case Unwind(key) => if key in b.requests { PlacedByDeallocate(b, b.requests[key], a); }
    case Rollback(key) => PlacedByReturn(b, key, map[], a);
    case RemoveAsk(key) => RemovalLists(b, key);
    case RemoveAllocation(key) => RemovalLists(b, key);
    case Release(key) =>
      RemovalLists(b, key);
      RemovalLists(AllocationRemoved(b, key), key);
    case Swap(ph, x, refused) => PlacedBySwap(b, ph, x, refused, a);
    case CancelSwap(ph, x) => PlacedByCancel(b, ph, x, a);
    case ConfirmSwap(key) => PlacedByConfirm(b, key, a);
    case MarkReleased(x) => LinksAside(b, x, x, None, None, a);
    case _ =>
  }

  /**
   The steps of a run. Some conditions the code keeps to: keys of new allocations are fresh and their
   sizes positive, swaps start as the search does it, a swap is cancelled for two linked sides, and the
   shim confirms placeholders. The others the code does not test. Each is the exact condition of its
   step: RollbackSoundIff, ResizeSoundIff, PlaceSoundIff and ConfirmTracksIff say that a total is wrong
   after the step without it.
   */
  predicate Legal(b: Books, op: Op) {
    match op
    case AddAsk(a, fact) => Fresh(b, a) && NonNegative(fact.resource) && fact.link.None?
    case Recover(a, fact) => Fresh(b, a) && StrictlyGreaterThanZero(fact.resource) && fact.placed && fact.link.None?
    case Resize(key, resource) => NonNegative(resource) && ResizeBooked(b, key, resource)
    case Place(key) => PlacedOnce(b, key)
    case Rollback(key) => !RollsBackPlaceholder(b, key)
    case Swap(ph, a, refused) => CanSwap(b, ph, a)
    case ConfirmSwap(key) => ConfirmsPlaceholder(b, key) && ConfirmsOnce(b, key)
    case CancelSwap(ph, a) => Linked(b, ph, a)
    case _ => true
  }

  lemma FreshIsUnlisted(b: Books, a: Allocation)
    requires WellFormed(b) && Fresh(b, a)
    ensures a !in b.facts && a.key !in b.requests && a.key !in b.allocations
  {
    hide UniqueKeys, NoNegativeSizes, NoZeroSizes;
  }

  lemma RecoverStep(b: Books, a: Allocation, fact: Fact)
    requires Sound(b) && Legal(b, Recover(a, fact)) && AllSummable(Next(b, Recover(a, fact)))
    ensures Sound(Next(b, Recover(a, fact)))
  {
    var m := AskRecovered(b, a, fact);
    FreshIsUnlisted(b, a);
    assert m.allocations == b.allocations && a in m.facts;
    hide WellFormed, LinksMatch, TotalsTrack, HistogramAgrees, AskRecovered, AllocationAdded, Fresh;
    RecoverKeepsSound(b, a, fact);
    AddedFacts(m, a);
    AddKeepsTotals(m, a);
    AddKeepsForm(m, a);
  }

  /** An ask that is placed now is not among the allocations yet. */
  predicate PlacedOnce(b: Books, key: string) {
    key in b.requests && !Placed(b, b.requests[key]) ==> key !in b.allocations
  }

  lemma PlaceStep(b: Books, key: string)
    requires Sound(b) && PlacedOnce(b, key) && AllSummable(Next(b, Place(key)))
    ensures Sound(Next(b, Place(key)))
  {
    if key in b.requests && !Placed(b, b.requests[key]) {
      var a := b.requests[key];
      var m := AskAllocated(b, a);
      Standing(b, key);
      FormOf(b);
      AllocatedAsk(b, a);
      hide WellFormed, LinksMatch, TotalsTrack, HistogramAgrees, AskAllocated, AllocationAdded, Pending, OfKind,
           RequestsListed;
      AllocateKeepsTotals(b, a);
      AllocateKeepsForm(b, a);
      AddedFacts(m, a);
      AddKeepsTotals(m, a);
      AddKeepsForm(m, a);
    }
  }

  /** Placing an ask whose allocation is still there counts its size twice. */
  lemma PlacedTwiceIsWrong(b: Books, key: string)
    requires Sound(b) && !PlacedOnce(b, key)
    requires SumFits(TotalOfKind(b, b.requests[key].placeholder), SizeOf(b.facts, b.requests[key]))
    ensures !TotalsTrack(Next(b, Place(key)))
  {
    hide Tracks, WellFormed, LinksMatch, HistogramAgrees, AllSummable;
    Standing(b, key);
    FormOf(b);
    var a := b.requests[key];
    var r, group := Next(b, Place(key)), OfKind(b.allocations, a.placeholder);
    PlacedTwice(b, key);
    var t := SomeTypeIsPositive(b, a);
    hide Next, OfKind, Pending, SizeOf, SumFits;
    ChangedIsWrong(TotalOfKind(b, a.placeholder), b.facts, r.facts, group, SizeOf(b.facts, a), t);
    if Tracks(Plus(TotalOfKind(b, a.placeholder), SizeOf(b.facts, a)), r.facts, group) {
      PruningTracks(Plus(TotalOfKind(b, a.placeholder), SizeOf(b.facts, a)), r.facts, group);
    }
  }

  function TotalOfKind(b: Books, placeholder: bool): Amounts {
    if placeholder then b.allocatedPlaceholder else b.allocatedResource
  }

  lemma PlacedTwice(b: Books, key: string)
    requires WellFormed(b) && !PlacedOnce(b, key)
    ensures var a, r := b.requests[key], Next(b, Place(key));
            && r.allocations == b.allocations && SameSizes(r.facts, b.facts)
            && TotalOfKind(r, a.placeholder) == Plus(TotalOfKind(b, a.placeholder), SizeOf(b.facts, a))
            && forall k | k in OfKind(b.allocations, a.placeholder) ::
                 SizeOf(r.facts, OfKind(b.allocations, a.placeholder)[k]) == SizeOf(b.facts, OfKind(b.allocations, a.placeholder)[k])
  {
    hide NoNegativeSizes, NoZeroSizes, Plus, Minus, Pruned, Decremented;
    assert b.allocations[key] == b.requests[key];
  }

  /** The books are sound after a placement exactly when the ask is not among the allocations already. */
  lemma PlaceSoundIff(b: Books, key: string)
    requires Sound(b) && AllSummable(Next(b, Place(key)))
    requires key in b.requests ==> SumFits(TotalOfKind(b, b.requests[key].placeholder), SizeOf(b.facts, b.requests[key]))
    ensures Sound(Next(b, Place(key))) <==> PlacedOnce(b, key)
  {
    hide TotalsTrack, HistogramAgrees, LinksMatch, AllSummable, WellFormed, SumFits, Next, TotalOfKind;
    if PlacedOnce(b, key) {
      PlaceStep(b, key);
    } else {
      PlacedTwiceIsWrong(b, key);
    }
  }

  lemma AllocatedAsk(b: Books, a: Allocation)
    requires a in b.facts
    ensures var m := AskAllocated(b, a); m.allocations == b.allocations && a in m.facts
  {
    hide Decremented, Pruned, Minus;
  }

  // ---------- the confirmation of a swap ----------

  /** The total of a kind when an allocation that is listed is added once more. */
  lemma AddedTwiceIsWrong(b: Books, a: Allocation)
    requires WellFormed(b) && TotalsTrack(b) && a.key in b.allocations && b.allocations[a.key] == a
    requires SumFits(TotalOfKind(b, a.placeholder), SizeOf(b.facts, a))
    ensures !TotalsTrack(AllocationAdded(b, a))
  {
    hide Tracks, WellFormed;
    KeyOfListed(b, a.key);
    var r, group, total := AllocationAdded(b, a), OfKind(b.allocations, a.placeholder), TotalOfKind(b, a.placeholder);
    assert r.allocations == b.allocations && r.facts == b.facts && TotalOfKind(r, a.placeholder) == Plus(total, SizeOf(b.facts, a));
    var t := SomeTypeIsPositive(b, a);
    hide AllocationAdded, OfKind, Pending, SizeOf, SumFits;
    ChangedIsWrong(total, b.facts, b.facts, group, SizeOf(b.facts, a), t);
    if Tracks(Plus(total, SizeOf(b.facts, a)), b.facts, group) {
      PruningTracks(Plus(total, SizeOf(b.facts, a)), b.facts, group);
    }
  }

  /**
   The confirmation of a swap adds the real allocation. The totals are right after it exactly if the
   allocation is not listed already, which nothing tests.
   */
  lemma ConfirmTracksIff(b: Books, key: string)
    requires Sound(b) && ConfirmsPlaceholder(b, key) && AllSummable(SwapConfirmed(b, key))
    requires key in b.allocations && LinkOf(b, b.allocations[key]).Some? ==>
               SumFits(b.allocatedResource, SizeOf(b.facts, LinkOf(b, b.allocations[key]).value))
    ensures TotalsTrack(SwapConfirmed(b, key)) <==> ConfirmsOnce(b, key)
  {
    hide WellFormed, LinksMatch, TotalsTrack, HistogramAgrees, SwapConfirmed, LinkOf, SumFits, AllSummable;
    if ConfirmsOnce(b, key) {
      SwapEndKeepsSound(b, key);
    } else {
      ConfirmedTwiceIsWrong(b, key);
    }
  }

  lemma ConfirmedTwiceIsWrong(b: Books, key: string)
    requires Sound(b) && ConfirmsPlaceholder(b, key) && !ConfirmsOnce(b, key)
    requires SumFits(b.allocatedResource, SizeOf(b.facts, LinkOf(b, b.allocations[key]).value))
    ensures !TotalsTrack(SwapConfirmed(b, key))
  {
    var a := LinkOf(b, b.allocations[key]).value;
    LinkedAsk(b, key);
    hide WellFormed, LinksMatch, TotalsTrack, HistogramAgrees, SwapConfirmed, LinkOf, SumFits, AllocationRemoved,
         AllocationAdded, Unlinked;
    ConfirmInSteps(b, key);
    RemoveKeepsForm(b, key);
    RemoveKeepsTotals(b, key);
    UnlinkKeepsRest(AllocationRemoved(b, key), a);
    AddedTwiceIsWrong(Unlinked(AllocationRemoved(b, key), a), a);
  }

  /** The real side of the swap of a placeholder, in the books without the placeholder. */
  lemma LinkedAsk(b: Books, key: string)
    requires WellFormed(b) && LinksMatch(b) && ConfirmsPlaceholder(b, key) && !ConfirmsOnce(b, key)
    ensures var a := LinkOf(b, b.allocations[key]).value;
            var u := Unlinked(AllocationRemoved(b, key), a);
            && !a.placeholder && a.key in u.allocations && u.allocations[a.key] == a
            && TotalOfKind(u, false) == b.allocatedResource && SizeOf(u.facts, a) == SizeOf(b.facts, a)
  {
    hide NoNegativeSizes, NoZeroSizes, Minus, Pruned;
    var ph := b.allocations[key];
    var a := LinkOf(b, ph).value;
    assert a in b.facts && !a.placeholder && b.allocations[a.key] == a && a.key != key;
  }

  /** A swap that starts and is confirmed leaves right totals exactly if its ask was not among the allocations. */
  lemma SwapTracksIff(b: Books, ph: Allocation, ask: Allocation)
    requires Sound(b) && CanSwap(b, ph, ask) && AllSummable(SwapConfirmed(Swapped(b, ph, ask, false), ph.key))
    requires SumFits(b.allocatedResource, SizeOf(b.facts, ask))
    ensures TotalsTrack(SwapConfirmed(Swapped(b, ph, ask, false), ph.key)) <==> ask.key !in b.allocations
  {
    hide TotalsTrack, HistogramAgrees, SwapConfirmed, AllSummable, SumFits, Swapped;
    SwapStartKeepsSound(b, ph, ask);
    StartedSwap(b, ph, ask);
    hide WellFormed, LinksMatch, LinkOf, SizeOf;
    ConfirmTracksIff(Swapped(b, ph, ask, false), ph.key);
  }

  lemma StartedSwap(b: Books, ph: Allocation, ask: Allocation)
    requires WellFormed(b) && CanSwap(b, ph, ask)
    ensures var s := Swapped(b, ph, ask, false);
            && s.allocations == b.allocations && LinkOf(s, ph) == Some(ask) && s.allocatedResource == b.allocatedResource
            && SizeOf(s.facts, ask) == SizeOf(b.facts, ask)
  {
    hide Decremented, Minus, Pruned, NoNegativeSizes, NoZeroSizes, UniqueKeys;
  }

  lemma UnwindStep(b: Books, key: string)
    requires Sound(b) && AllSummable(Next(b, Unwind(key)))
    ensures Sound(Next(b, Unwind(key)))
  {
    hide Sound, AllSummable;
    if key in b.requests {
      UnwindKeepsSound(b, key);
    }
  }

  lemma MarkStep(b: Books, a: Allocation)
    requires Sound(b)
    ensures Sound(b.(facts := SetReleased(b.facts, a)))
  {
    var r := b.(facts := SetReleased(b.facts, a));
    assert Relinked(b.facts, r.facts);
    MarkedLinks(b, a);
    hide WellFormed, LinksMatch, TotalsTrack, HistogramAgrees, SetReleased;
    RelinkKeepsTotals(b, r);
    RelinkKeepsForm(b, r);
  }

  lemma MarkedLinks(b: Books, a: Allocation)
    requires LinksMatch(b)
    ensures LinksMatch(b.(facts := SetReleased(b.facts, a)))
  {
  }

  lemma RefusedStep(b: Books, ph: Allocation, a: Allocation)
    requires Sound(b) && CanSwap(b, ph, a)
    ensures Sound(Swapped(b, ph, a, true))
  {
    hide WellFormed, LinksMatch, TotalsTrack, HistogramAgrees, Swapped, CanSwap, SameView;
    RefusedSwapRestores(b, ph, a);
    RealSide(b, ph, a);
    UnlinkedLinks(b, a);
    UnlinkKeepsRest(b, a);
    SameBooks(Unlinked(b, a), Swapped(b, ph, a, true));
  }

  lemma RealSide(b: Books, ph: Allocation, a: Allocation)
    requires CanSwap(b, ph, a)
    ensures !a.placeholder
  {
  }

  /** Entries of zero in the pending total make no difference. */
  lemma SameBooks(b: Books, c: Books)
    requires Sound(b) && c == b.(pending := c.pending) && SameView(c.pending, b.pending)
    ensures Sound(c)
  {
    SamePending(b, c);
    SameForm(b, c);
    hide WellFormed, LinksMatch, Pending, OfKind, Agrees, TotalOf;
  }

  /** A real ask can drop its link. */
  lemma UnlinkedLinks(b: Books, a: Allocation)
    requires LinksMatch(b) && !a.placeholder
    ensures LinksMatch(Unlinked(b, a))
  {
  }

  /** Every step keeps the books sound, as long as the sums over the groups are 64 bit numbers. */
  lemma StepKeepsSound(b: Books, op: Op)
    requires Sound(b) && Legal(b, op) && AllSummable(Next(b, op))
    ensures Sound(Next(b, op))
  {
    hide TotalsTrack, HistogramAgrees, LinksMatch, WellFormed, AskAdded, AskRecovered, AllocationAdded, AskAllocated,
         AskDeallocated, Resized, AskRemoved, AsksRemoved, AllocationRemoved, AllocationsRemoved, Swapped,
         SwapConfirmed, SwapCancelled;
    match op
    case AddAsk(a, fact) => AddAskStep(b, a, fact);
    case Recover(a, fact) => RecoverStep(b, a, fact);
    case Place(key) => PlaceStep(b, key);
    case Resize(key, resource) => ResizeKeepsForm(b, key, resource); ResizeKeepsTotals(b, key, resource);
    case Unwind(key) => UnwindStep(b, key);
    case Rollback(key) => RollbackSoundIff(b, key);
    case RemoveAsk(key) => RemoveAskKeepsSound(b, key);
    case RemoveAsks => RemoveAsksKeepsSound(b);
    case RemoveAllocation(key) => RemoveKeepsForm(b, key); RemoveKeepsTotals(b, key);
    case RemoveAllocations => RemoveAllKeepsSound(b);
    case Release(key) => ReleaseStep(b, key);
    case ReleaseAll => RemoveAllKeepsSound(b); RemoveAsksKeepsSound(AllocationsRemoved(b));
    case Swap(ph, a, refused) => if refused { RefusedStep(b, ph, a); } else { SwapStartKeepsSound(b, ph, a); }
    case ConfirmSwap(key) => SwapEndKeepsSound(b, key);
    case CancelSwap(ph, a) => SwapCancelKeepsSound(b, ph, a);
    case MarkReleased(a) => MarkStep(b, a);
  }

  lemma ReleaseStep(b: Books, key: string)
    requires Sound(b)
    ensures Sound(Next(b, Release(key)))
  {
    hide TotalsTrack, HistogramAgrees, LinksMatch, WellFormed;
    RemoveKeepsForm(b, key);
    RemoveKeepsTotals(b, key);
    RemoveAskKeepsSound(AllocationRemoved(b, key), key);
  }

  lemma AddAskStep(b: Books, a: Allocation, fact: Fact)
    requires Sound(b) && Legal(b, AddAsk(a, fact)) && AllSummable(AskAdded(b, a, fact))
    ensures Sound(AskAdded(b, a, fact))
  {
    FreshIsUnlisted(b, a);
    hide TotalsTrack, HistogramAgrees, LinksMatch, WellFormed, AskAdded, Fresh, Pending, Summable, OfKind;
    AddAskKeepsForm(b, a, fact);
    AddAskKeepsTotals(b, a, fact);
  }

  ghost function Run(b: Books, ops: seq<Op>): Books
    decreases |ops|
  {
    if ops == [] then b else Run(Next(b, ops[0]), ops[1..])
  }

  ghost predicate LegalRun(b: Books, ops: seq<Op>)
    decreases |ops|
  {
    ops != [] ==> Legal(b, ops[0]) && AllSummable(Next(b, ops[0])) && LegalRun(Next(b, ops[0]), ops[1..])
  }

  /**
   After any run from a new application: pending is the sum of the unallocated requests, the two
   allocated totals are the sums of the real and of the placeholder allocations, and the histogram
   is what a rescan of the requests gives.
   */
  lemma {:induction false} RunIsSound(b: Books, ops: seq<Op>)
    requires Sound(b) && LegalRun(b, ops)
    ensures Sound(Run(b, ops))
    decreases |ops|
  {
    hide Sound, Legal, AllSummable, Next;
    if ops != [] {
      StepKeepsSound(b, ops[0]);
      RunIsSound(Next(b, ops[0]), ops[1..]);
    }
  }
}
