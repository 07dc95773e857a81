/** The basic steps of an application keep its books sound: asks and allocations that come, change and go. */
module ApplicationSteps {
  import opened Resources
  import opened Allocations
  import opened PendingPriorities
  import opened TrackedTotals
  import opened ApplicationBooks
  import SortedAsks

  /** The allocations and their sizes are the same. */
  predicate SameSizes(f: Facts, g: Facts) {
    f.Keys == g.Keys && forall a | a in f :: f[a].resource == g[a].resource
  }

  lemma SameSizesKeepTracking(total: Amounts, f: Facts, g: Facts, group: Group)
    requires SameSizes(f, g) && Tracks(total, f, group)
    ensures Tracks(total, g, group)
  {
    SameSizesTrack(total, f, g, group);
  }

  lemma SummableBySize(f: Facts, g: Facts, group: Group)
    requires SameSizes(f, g) && Summable(g, group)
    ensures Summable(f, group)
  {
    forall t: string
      ensures TotalOf(f, group, t) == TotalOf(g, group, t)
    {
      assert SizesOf(f, group, t) == SizesOf(g, group, t);
    }
  }

  // ---------- pending to placed and back ----------

  lemma PendingAllocated(b: Books, a: Allocation)
    requires RequestsListed(b) && a.key in b.requests && b.requests[a.key] == a && !Placed(b, a)
    ensures var r := AskAllocated(b, a);
            && a.key in Pending(b) && Pending(b)[a.key] == a
            && Pending(r) == Pending(b) - {a.key}
            && PrioritiesOf(Pending(r)) == PrioritiesOf(Pending(b)) - {a.key}
  {
    hide Decremented, Pruned, Minus, SizeOf;
    assert Pending(AskAllocated(b, a)) == Pending(b) - {a.key};
  }

  lemma AllocateKeepsTotals(b: Books, a: Allocation)
    requires WellFormed(b) && TotalsTrack(b) && HistogramAgrees(b)
    requires a.key in b.requests && b.requests[a.key] == a && !Placed(b, a)
    ensures TotalsTrack(AskAllocated(b, a)) && HistogramAgrees(AskAllocated(b, a))
  {
    hide Tracks, Agrees, WellFormed, NoZeroSizes, NoNegativeSizes;
    FormOf(b);
    var r := AskAllocated(b, a);
    assert SameSizes(b.facts, r.facts);
    PendingAllocated(b, a);
    hide Tracks, Pending, PrioritiesOf, OfKind, Agrees, Decremented, UniqueKeys, AllocationsListed, SameSizes,
         SizeOf, Minus, Pruned;
    DecrementAgrees(b.priorities, PrioritiesOf(Pending(b)), a.key);
    RemoveTracks(b.pending, b.facts, Pending(b), a.key);
    PruningTracks(Minus(b.pending, SizeOf(b.facts, a)), b.facts, Pending(r));
    SameSizesKeepTracking(r.pending, b.facts, r.facts, Pending(r));
    SameSizesKeepTracking(b.allocatedResource, b.facts, r.facts, OfKind(b.allocations, false));
    SameSizesKeepTracking(b.allocatedPlaceholder, b.facts, r.facts, OfKind(b.allocations, true));
  }

  lemma AllocateKeepsForm(b: Books, a: Allocation)
    requires WellFormed(b) && LinksMatch(b)
    requires a.key in b.requests && b.requests[a.key] == a && !Placed(b, a)
    ensures WellFormed(AskAllocated(b, a)) && LinksMatch(AskAllocated(b, a))
  {
    hide Decremented, Pruned, Minus, SizeOf, IsZero, NonNegative;
  }

  lemma PendingDeallocated(b: Books, a: Allocation)
    requires RequestsListed(b) && a.key in b.requests && b.requests[a.key] == a && Placed(b, a)
    ensures var r := AskDeallocated(b, a);
            && a.key !in Pending(b)
            && Pending(r) == Pending(b)[a.key := a]
            && PrioritiesOf(Pending(r)) == PrioritiesOf(Pending(b))[a.key := a.priority]
  {
    hide Incremented, Plus, SizeOf;
    assert Pending(AskDeallocated(b, a)) == Pending(b)[a.key := a];
  }

  lemma DeallocateKeepsTotals(b: Books, a: Allocation)
    requires WellFormed(b) && TotalsTrack(b) && HistogramAgrees(b)
    requires a.key in b.requests && b.requests[a.key] == a && Placed(b, a)
    requires Summable(b.facts, Pending(AskDeallocated(b, a)))
    ensures TotalsTrack(AskDeallocated(b, a)) && HistogramAgrees(AskDeallocated(b, a))
  {
    hide Tracks, Agrees, WellFormed, NoZeroSizes, NoNegativeSizes;
    FormOf(b);
    var r := AskDeallocated(b, a);
    assert SameSizes(b.facts, r.facts);
    PendingDeallocated(b, a);
    hide Tracks, Pending, PrioritiesOf, OfKind, Agrees, Incremented, UniqueKeys, AllocationsListed, SameSizes,
         SizeOf, Plus, Summable;
    IncrementAgrees(b.priorities, PrioritiesOf(Pending(b)), a.key, a.priority);
    InsertTracks(b.pending, b.facts, Pending(b), a.key, a);
    SameSizesKeepTracking(r.pending, b.facts, r.facts, Pending(r));
    SameSizesKeepTracking(b.allocatedResource, b.facts, r.facts, OfKind(b.allocations, false));
    SameSizesKeepTracking(b.allocatedPlaceholder, b.facts, r.facts, OfKind(b.allocations, true));
  }

  /** Marking an allocation pending changes no size. */
  lemma StillSummable(b: Books, a: Allocation)
    requires AllSummable(AskDeallocated(b, a))
    ensures Summable(b.facts, Pending(AskDeallocated(b, a)))
  {
    var r := AskDeallocated(b, a);
    assert SameSizes(b.facts, r.facts);
    SummableBySize(b.facts, r.facts, Pending(r));
  }

  lemma DeallocateKeepsForm(b: Books, a: Allocation)
    requires WellFormed(b) && LinksMatch(b)
    ensures WellFormed(AskDeallocated(b, a)) && LinksMatch(AskDeallocated(b, a))
  {
    hide Incremented, Plus, SizeOf, IsZero, NonNegative;
  }

  // ---------- allocations come and go ----------

  lemma KindsAdded(b: Books, a: Allocation)
    requires a.key !in b.allocations
    ensures var r, kind := AllocationAdded(b, a), a.placeholder;
            && a.key !in OfKind(b.allocations, kind)
            && OfKind(r.allocations, kind) == OfKind(b.allocations, kind)[a.key := a]
            && OfKind(r.allocations, !kind) == OfKind(b.allocations, !kind)
  {
    hide Plus, SizeOf;
  }

  /** The pending asks depend on the facts and the requests only. */
  lemma SamePending(b: Books, c: Books)
    requires b.facts == c.facts && b.requests == c.requests
    ensures Pending(b) == Pending(c)
  {
  }

  lemma AddKeepsTotals(b: Books, a: Allocation)
    requires WellFormed(b) && TotalsTrack(b) && HistogramAgrees(b) && a.key !in b.allocations
    requires Summable(b.facts, OfKind(AllocationAdded(b, a).allocations, a.placeholder))
    ensures TotalsTrack(AllocationAdded(b, a)) && HistogramAgrees(AllocationAdded(b, a))
  {
    KindsAdded(b, a);
    SamePending(b, AllocationAdded(b, a));
    hide Tracks, Pending, PrioritiesOf, OfKind, Agrees, WellFormed, SizeOf, Plus, Summable;
    FormOf(b);
    InsertTracks(if a.placeholder then b.allocatedPlaceholder else b.allocatedResource, b.facts,
                 OfKind(b.allocations, a.placeholder), a.key, a);
  }

  lemma FormOf(b: Books)
    requires WellFormed(b)
    ensures RequestsListed(b) && NoNegativeSizes(b.facts)
  {
  }

  lemma AddKeepsForm(b: Books, a: Allocation)
    requires WellFormed(b) && LinksMatch(b) && a in b.facts
    ensures WellFormed(AllocationAdded(b, a)) && LinksMatch(AllocationAdded(b, a))
  {
    hide Plus, SizeOf, NoNegativeSizes, NoZeroSizes, UniqueKeys;
  }

  lemma KindsRemoved(b: Books, key: string)
    requires key in b.allocations
    ensures var r, kind := AllocationRemoved(b, key), b.allocations[key].placeholder;
            && key in OfKind(b.allocations, kind) && OfKind(b.allocations, kind)[key] == b.allocations[key]
            && OfKind(r.allocations, kind) == OfKind(b.allocations, kind) - {key}
            && OfKind(r.allocations, !kind) == OfKind(b.allocations, !kind)
  {
    hide Minus, Pruned, SizeOf;
  }

  lemma RemoveKeepsTotals(b: Books, key: string)
    requires WellFormed(b) && TotalsTrack(b) && HistogramAgrees(b)
    ensures TotalsTrack(AllocationRemoved(b, key)) && HistogramAgrees(AllocationRemoved(b, key))
  {
    if key in b.allocations {
      KindsRemoved(b, key);
      SamePending(b, AllocationRemoved(b, key));
      hide Tracks, Pending, PrioritiesOf, OfKind, Agrees, WellFormed, SizeOf, Minus, Pruned;
      FormOf(b);
      var kind, size := b.allocations[key].placeholder, SizeOf(b.facts, b.allocations[key]);
      var total := if kind then b.allocatedPlaceholder else b.allocatedResource;
      RemoveTracks(total, b.facts, OfKind(b.allocations, kind), key);
      PruningTracks(Minus(total, size), b.facts, OfKind(b.allocations, kind) - {key});
    }
  }

  lemma RemoveKeepsForm(b: Books, key: string)
    requires WellFormed(b) && LinksMatch(b)
    ensures WellFormed(AllocationRemoved(b, key)) && LinksMatch(AllocationRemoved(b, key))
  {
    hide Minus, Pruned, SizeOf, NoNegativeSizes, NoZeroSizes, UniqueKeys;
  }

  lemma RemoveAllKeepsSound(b: Books)
    requires Sound(b)
    ensures Sound(AllocationsRemoved(b))
  {
    hide Tracks, Agrees, UniqueKeys, NoNegativeSizes;
    var r := AllocationsRemoved(b);
    assert Pending(r) == Pending(b) && OfKind(r.allocations, false) == map[] && OfKind(r.allocations, true) == map[];
    EmptyTracks(b.facts);
  }

  // ---------- asks come and go ----------

  predicate NotIn(a: Allocation, group: Group) {
    forall k | k in group :: group[k] != a
  }

  /** Facts about other allocations than the members of a group do not matter for its total. */
  lemma SameButNew(total: Amounts, facts: Facts, group: Group, a: Allocation, fact: Fact)
    requires Tracks(total, facts, group) && NotIn(a, group)
    ensures Tracks(total, facts[a := fact], group)
  {
    SameSizesTrack(total, facts, facts[a := fact], group);
  }

  lemma UnknownIsNowhere(b: Books, a: Allocation)
    requires RequestsListed(b) && AllocationsListed(b) && a !in b.facts
    ensures NotIn(a, Pending(b)) && NotIn(a, OfKind(b.allocations, false)) && NotIn(a, OfKind(b.allocations, true))
  {
  }

  lemma PendingAdded(b: Books, a: Allocation, fact: Fact)
    requires RequestsListed(b) && a !in b.facts && !fact.placed && !IsZero(fact.resource)
    ensures Pending(AskAdded(b, a, fact)) == Pending(b)[a.key := a]
  {
    hide Decremented, Incremented, Plus, Minus, Pruned, SizeOf, SortedAsks.Inserted, Prior;
  }

  lemma PrioritiesAdded(group: Group, a: Allocation)
    ensures PrioritiesOf(group[a.key := a]) == PrioritiesOf(group)[a.key := a.priority]
  {
  }

  lemma PriorIsPending(b: Books, key: string)
    requires RequestsListed(b)
    ensures Prior(b, key) == if key in Pending(b) then Some(Pending(b)[key]) else None
  {
  }

  lemma NewSizes(b: Books, a: Allocation, fact: Fact)
    requires RequestsListed(b) && a !in b.facts
    ensures SizeOf(b.facts[a := fact], a) == fact.resource
    ensures a.key in Pending(b) ==> SizeOf(b.facts[a := fact], Pending(b)[a.key]) == SizeOf(b.facts, Pending(b)[a.key])
  {
  }

  lemma NoNegativeAdded(b: Books, a: Allocation, fact: Fact)
    requires WellFormed(b) && NonNegative(fact.resource)
    ensures NoNegativeSizes(b.facts[a := fact])
  {
  }

  lemma AddAskKeepsPending(b: Books, a: Allocation, fact: Fact)
    requires WellFormed(b) && Tracks(b.pending, b.facts, Pending(b))
    requires a !in b.facts && NonNegative(fact.resource) && !fact.placed && !IsZero(fact.resource)
    requires Summable(b.facts[a := fact], Pending(AskAdded(b, a, fact)))
    ensures Tracks(AskAdded(b, a, fact).pending, b.facts[a := fact], Pending(AskAdded(b, a, fact)))
  {
    var facts := b.facts[a := fact];
    UnknownIsNowhere(b, a);
    PendingAdded(b, a, fact);
    PriorIsPending(b, a.key);
    NewSizes(b, a, fact);
    NoNegativeAdded(b, a, fact);
    hide Tracks, Pending, WellFormed, Prior, NotIn, SizeOf, Plus, Minus, Pruned, Summable, SortedAsks.Inserted,
         Incremented, Decremented, NonNegative, NoNegativeSizes;
    SameButNew(b.pending, b.facts, Pending(b), a, fact);
    if a.key in Pending(b) {
      ReplaceTracks(b.pending, facts, Pending(b), a.key, a);
      PruningTracks(Plus(b.pending, Minus(fact.resource, SizeOf(b.facts, Pending(b)[a.key]))), facts, Pending(b)[a.key := a]);
    } else {
      InsertTracks(b.pending, facts, Pending(b), a.key, a);
      PruningTracks(Plus(b.pending, fact.resource), facts, Pending(b)[a.key := a]);
    }
  }

  /** Also for an ask that replaces a pending one: the old ask is counted out of the histogram and of the total. */
  lemma AddAskKeepsTotals(b: Books, a: Allocation, fact: Fact)
    requires WellFormed(b) && TotalsTrack(b) && HistogramAgrees(b)
    requires a !in b.facts && NonNegative(fact.resource)
    requires Summable(AskAdded(b, a, fact).facts, Pending(AskAdded(b, a, fact)))
    ensures TotalsTrack(AskAdded(b, a, fact)) && HistogramAgrees(AskAdded(b, a, fact))
  {
    if !fact.placed && !IsZero(fact.resource) {
      UnknownIsNowhere(b, a);
      AddAskKeepsPending(b, a, fact);
      AddAskKeepsHistogram(b, a, fact);
      hide Tracks, Pending, PrioritiesOf, OfKind, Agrees, WellFormed, Prior, NotIn, SizeOf, Plus, Minus, Pruned,
           Summable, SortedAsks.Inserted, Incremented, Decremented;
      SameButNew(b.allocatedResource, b.facts, OfKind(b.allocations, false), a, fact);
      SameButNew(b.allocatedPlaceholder, b.facts, OfKind(b.allocations, true), a, fact);
    }
  }

  lemma AddAskKeepsHistogram(b: Books, a: Allocation, fact: Fact)
    requires RequestsListed(b) && HistogramAgrees(b) && a !in b.facts && !fact.placed && !IsZero(fact.resource)
    ensures HistogramAgrees(AskAdded(b, a, fact))
  {
    PendingAdded(b, a, fact);
    PrioritiesAdded(Pending(b), a);
    PriorIsPending(b, a.key);
    PrioritiesAligned(b);
    var pending := PrioritiesOf(Pending(b));
    hide Pending, PrioritiesOf, Agrees, Incremented, Decremented, Prior, RequestsListed, Plus, Minus, Pruned, SizeOf,
         SortedAsks.Inserted;
    if a.key in pending {
      assert (pending - {a.key})[a.key := a.priority] == pending[a.key := a.priority];
      DecrementAgrees(b.priorities, pending, a.key);
      IncrementAgrees(Decremented(b.priorities, pending[a.key]), pending - {a.key}, a.key, a.priority);
    } else {
      IncrementAgrees(b.priorities, pending, a.key, a.priority);
    }
  }

  lemma PrioritiesAligned(b: Books)
    ensures PrioritiesOf(Pending(b)).Keys == Pending(b).Keys
    ensures forall k | k in Pending(b) :: PrioritiesOf(Pending(b))[k] == Pending(b)[k].priority
  {
  }

  /** No known allocation has this key. */
  predicate Fresh(b: Books, a: Allocation) {
    forall c | c in b.facts :: c.key != a.key
  }

  lemma NewFactKeepsForm(b: Books, a: Allocation, fact: Fact)
    requires WellFormed(b) && LinksMatch(b) && Fresh(b, a) && StrictlyGreaterThanZero(fact.resource) && fact.link.None?
    ensures var r := b.(facts := b.facts[a := fact], requests := b.requests[a.key := a]); WellFormed(r) && LinksMatch(r)
  {
    hide IsZero, NonNegative;
  }

  /** The form depends on the facts and the two lists only. */
  lemma SameForm(b: Books, c: Books)
    requires WellFormed(b) && LinksMatch(b)
    requires b.facts == c.facts && b.requests == c.requests && b.allocations == c.allocations
    ensures WellFormed(c) && LinksMatch(c)
  {
    hide UniqueKeys, NoNegativeSizes, NoZeroSizes;
  }

  lemma AddAskKeepsForm(b: Books, a: Allocation, fact: Fact)
    requires WellFormed(b) && LinksMatch(b) && Fresh(b, a) && NonNegative(fact.resource) && fact.link.None?
    ensures WellFormed(AskAdded(b, a, fact)) && LinksMatch(AskAdded(b, a, fact))
  {
    hide WellFormed, LinksMatch, Prior, Decremented, Incremented, Plus, Minus, Pruned, SizeOf, SortedAsks.Inserted;
    if !fact.placed && !IsZero(fact.resource) {
      NewFactKeepsForm(b, a, fact);
      SameForm(b.(facts := b.facts[a := fact], requests := b.requests[a.key := a]), AskAdded(b, a, fact));
    }
  }

  lemma RecoverKeepsSound(b: Books, a: Allocation, fact: Fact)
    requires Sound(b) && Fresh(b, a) && StrictlyGreaterThanZero(fact.resource) && fact.placed && fact.link.None?
    ensures Sound(AskRecovered(b, a, fact))
  {
    RecoverKeepsForm(b, a, fact);
    UnknownIsNowhere(b, a);
    PendingRecovered(b, a, fact);
    hide Tracks, Pending, PrioritiesOf, OfKind, Agrees, WellFormed, LinksMatch, NotIn;
    SameButNew(b.pending, b.facts, Pending(b), a, fact);
    SameButNew(b.allocatedResource, b.facts, OfKind(b.allocations, false), a, fact);
    SameButNew(b.allocatedPlaceholder, b.facts, OfKind(b.allocations, true), a, fact);
  }

  lemma PendingRecovered(b: Books, a: Allocation, fact: Fact)
    requires RequestsListed(b) && Fresh(b, a) && fact.placed
    ensures Pending(AskRecovered(b, a, fact)) == Pending(b)
  {
  }

  lemma RecoverKeepsForm(b: Books, a: Allocation, fact: Fact)
    requires WellFormed(b) && LinksMatch(b) && Fresh(b, a) && StrictlyGreaterThanZero(fact.resource) && fact.placed && fact.link.None?
    ensures WellFormed(AskRecovered(b, a, fact)) && LinksMatch(AskRecovered(b, a, fact))
  {
    hide WellFormed, LinksMatch;
    NewFactKeepsForm(b, a, fact);
    SameForm(b.(facts := b.facts[a := fact], requests := b.requests[a.key := a]), AskRecovered(b, a, fact));
  }

  lemma PendingRemoved(b: Books, key: string)
    requires RequestsListed(b) && key in b.requests
    ensures Pending(AskRemoved(b, key)) == Pending(b) - {key}
    ensures PrioritiesOf(Pending(b) - {key}) == PrioritiesOf(Pending(b)) - {key}
    ensures key in Pending(b) <==> !Placed(b, b.requests[key])
    ensures key in Pending(b) ==> Pending(b)[key] == b.requests[key]
    ensures key !in Pending(b) ==> Pending(b) - {key} == Pending(b)
  {
    hide Decremented, Minus, Pruned, SizeOf, SortedAsks.Removed;
    assert Pending(AskRemoved(b, key)) == Pending(b) - {key};
  }

  lemma RemoveAskKeepsSound(b: Books, key: string)
    requires Sound(b)
    ensures Sound(AskRemoved(b, key))
  {
    hide Tracks, Pending, PrioritiesOf, OfKind, Agrees, Decremented, WellFormed, LinksMatch, SizeOf, Minus, Pruned,
         SortedAsks.Removed, Placed;
    if key in b.requests {
      RemoveAskKeepsForm(b, key);
      FormOf(b);
      PendingRemoved(b, key);
      if key in Pending(b) {
        PriorityIn(b, key);
        DecrementAgrees(b.priorities, PrioritiesOf(Pending(b)), key);
        RemoveTracks(b.pending, b.facts, Pending(b), key);
        PruningTracks(Minus(b.pending, SizeOf(b.facts, b.requests[key])), b.facts, Pending(b) - {key});
      }
    }
  }

  lemma PriorityIn(b: Books, key: string)
    requires key in Pending(b)
    ensures key in PrioritiesOf(Pending(b)) && PrioritiesOf(Pending(b))[key] == Pending(b)[key].priority
  {
  }

  lemma RemoveAskKeepsForm(b: Books, key: string)
    requires WellFormed(b) && LinksMatch(b)
    ensures WellFormed(AskRemoved(b, key)) && LinksMatch(AskRemoved(b, key))
  {
    hide Decremented, Minus, Pruned, SizeOf, SortedAsks.Removed, UniqueKeys, NoNegativeSizes;
  }

  lemma RemoveAsksKeepsSound(b: Books)
    requires Sound(b)
    ensures Sound(AsksRemoved(b))
  {
    if b.requests != map[] {
      RemoveAsksKeepsForm(b);
      hide Tracks, OfKind, Agrees, WellFormed, LinksMatch;
      assert Pending(AsksRemoved(b)) == map[] && PrioritiesOf(map[]) == map[];
      NothingPendingAgrees();
      EmptyTracks(b.facts);
    }
  }

  lemma RemoveAsksKeepsForm(b: Books)
    requires WellFormed(b) && LinksMatch(b)
    ensures WellFormed(AsksRemoved(b)) && LinksMatch(AsksRemoved(b))
  {
    hide UniqueKeys, NoNegativeSizes;
  }

  // ---------- sizes ----------

  lemma PendingResized(b: Books, key: string, resource: Amounts)
    requires RequestsListed(b)
    ensures Pending(Resized(b, key, resource)) == Pending(b)
  {
    hide Plus, Minus, Pruned, SizeOf, IsZero;
  }

  /** Of a group, at most the entry under its own key is this allocation. */
  lemma OnlyUnderItsKey(facts: Facts, a: Allocation, f: Fact, group: Group)
    requires forall k | k in group :: group[k].key == k
    ensures forall k | k in group && k != a.key :: SizeOf(facts[a := f], group[k]) == SizeOf(facts, group[k])
  {
  }

  lemma MembersUnderTheirKey(b: Books)
    requires WellFormed(b)
    ensures forall k | k in Pending(b) :: Pending(b)[k].key == k
    ensures forall k | k in OfKind(b.allocations, true) :: OfKind(b.allocations, true)[k].key == k
    ensures forall k | k in OfKind(b.allocations, false) :: OfKind(b.allocations, false)[k].key == k
  {
    hide UniqueKeys, NoNegativeSizes, NoZeroSizes;
  }

  lemma ResizeKeepsForm(b: Books, key: string, resource: Amounts)
    requires WellFormed(b) && LinksMatch(b) && NonNegative(resource)
    ensures WellFormed(Resized(b, key, resource)) && LinksMatch(Resized(b, key, resource))
  {
    hide Plus, Minus, Pruned, SizeOf, IsZero, NonNegative;
  }

  /** There is nothing to book: the new size is zero, the ask is not known, or no type changes. */
  predicate NothingToBook(b: Books, key: string, resource: Amounts) {
    IsZero(resource) || key !in b.requests || IsZero(Minus(resource, SizeOf(b.facts, b.requests[key])))
  }

  /**
   A new size is booked right: there is nothing to book, the ask is pending and not among the
   allocations, or it is a confirmed real allocation.
   */
  predicate ResizeBooked(b: Books, key: string, resource: Amounts) {
    || NothingToBook(b, key, resource)
    || if Placed(b, b.requests[key]) then key in b.allocations && !b.requests[key].placeholder else key !in b.allocations
  }

  /** Where the allocation with a key stands. */
  lemma Standing(b: Books, key: string)
    requires WellFormed(b) && key in b.requests
    ensures key in Pending(b) <==> !Placed(b, b.requests[key])
    ensures key in Pending(b) ==> Pending(b)[key] == b.requests[key]
    ensures key in b.allocations ==> b.allocations[key] == b.requests[key]
    ensures key in OfKind(b.allocations, false) <==> key in b.allocations && !b.requests[key].placeholder
    ensures key in OfKind(b.allocations, true) <==> key in b.allocations && b.requests[key].placeholder
    ensures key in OfKind(b.allocations, false) ==> OfKind(b.allocations, false)[key] == b.requests[key]
    ensures key in OfKind(b.allocations, true) ==> OfKind(b.allocations, true)[key] == b.requests[key]
  {
    hide NoNegativeSizes, NoZeroSizes;
  }

  lemma ResizeKeepsTotals(b: Books, key: string, resource: Amounts)
    requires Sound(b) && NonNegative(resource) && ResizeBooked(b, key, resource) && AllSummable(Resized(b, key, resource))
    ensures TotalsTrack(Resized(b, key, resource)) && HistogramAgrees(Resized(b, key, resource))
  {
    hide Tracks, Agrees, Summable, WellFormed, LinksMatch, Pending, OfKind, Plus, Minus, Pruned;
    var r := Resized(b, key, resource);
    FormOf(b);
    if r != b {
      var a := b.requests[key];
      var f := b.facts[a].(resource := resource);
      Standing(b, key);
      PendingResized(b, key, resource);
      MembersUnderTheirKey(b);
      ResizeKeepsForm(b, key, resource);
      FormOf(r);
      assert SizeOf(r.facts, a) == resource && r.facts == b.facts[a := f];
      hide Tracks, WellFormed, LinksMatch, Pending, OfKind, Agrees, SizeOf, Plus, Minus, Pruned, Summable, IsZero,
           NonNegative, NoNegativeSizes;
      OnlyUnderItsKey(b.facts, a, f, Pending(b));
      OnlyUnderItsKey(b.facts, a, f, OfKind(b.allocations, false));
      OnlyUnderItsKey(b.facts, a, f, OfKind(b.allocations, true));
      FollowResize(b.pending, r.pending, b, r, Pending(b), key, resource);
      FollowResize(b.allocatedResource, r.allocatedResource, b, r, OfKind(b.allocations, false), key, resource);
      FollowResize(b.allocatedPlaceholder, r.allocatedPlaceholder, b, r, OfKind(b.allocations, true), key, resource);
    }
  }

  /** One total follows a resize: it takes the change if the allocation is in its group and stays if not. */
  lemma FollowResize(total: Amounts, after: Amounts, b: Books, r: Books, group: Group, key: string, resource: Amounts)
    requires key in b.requests && Tracks(total, b.facts, group)
    requires NoNegativeSizes(b.facts) && NoNegativeSizes(r.facts) && Summable(r.facts, group)
    requires SizeOf(r.facts, b.requests[key]) == resource
    requires forall k | k in group && k != key :: SizeOf(r.facts, group[k]) == SizeOf(b.facts, group[k])
    requires key in group ==> group[key] == b.requests[key]
    requires after == if key in group then Pruned(Plus(total, Pruned(Minus(resource, SizeOf(b.facts, b.requests[key]))))) else total
    ensures Tracks(after, r.facts, group)
  {
    hide Tracks, SizeOf, Plus, Minus, Pruned, Summable, NoNegativeSizes;
    if key in group {
      ResizeTracks(total, b.facts, r.facts, group, key);
      PruningTracks(Plus(total, Pruned(Minus(resource, SizeOf(b.facts, b.requests[key])))), r.facts, group);
    } else {
      SameSizesTrack(total, b.facts, r.facts, group);
    }
  }
}
