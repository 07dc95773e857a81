/**
 A placed real ask must be among the allocations of its application or in a swap that will bring it
 there (pkg/scheduler/objects/application.go). An ask that is neither is stranded: it counts as placed,
 is not pending, and no confirmation will ever come for it.
 */
module StrandedAsks {
  import opened Resources
  import opened Allocations
  import opened PendingPriorities
  import opened TrackedTotals
  import opened ApplicationBooks
  import opened ApplicationSteps
  import opened ApplicationRuns
  import opened PlaceholderSwaps
  import SortedAsks

  /** The ask is linked to a placeholder that is still there and points back. */
  predicate InSwap(b: Books, a: Allocation) {
    var ph := LinkOf(b, a);
    ph.Some? && ph.value.key in b.allocations && b.allocations[ph.value.key] == ph.value && LinkOf(b, ph.value) == Some(a)
  }

  predicate Stranded(b: Books, key: string) {
    && key in b.requests && !b.requests[key].placeholder && Placed(b, b.requests[key])
    && key !in b.allocations && !InSwap(b, b.requests[key])
  }

  predicate NoneStranded(b: Books) {
    forall k | k in b.requests :: !Stranded(b, k)
  }

  // ---------- steps on asks ----------

  lemma NewRequestStrandsNone(b: Books, r: Books, a: Allocation, fact: Fact)
    requires NoneStranded(b) && WellFormed(b) && LinksMatch(b) && Fresh(b, a)
    requires r.facts == b.facts[a := fact] && r.requests == b.requests[a.key := a]
    requires fact.placed && !a.placeholder ==> a.key in r.allocations
    requires forall k | k in b.allocations :: k in r.allocations && r.allocations[k] == b.allocations[k]
    ensures NoneStranded(r)
  {
    hide NoNegativeSizes, NoZeroSizes, UniqueKeys;
    forall k | k in r.requests
      ensures !Stranded(r, k)
    {
      if k != a.key {
        assert !Stranded(b, k);
        assert InSwap(b, b.requests[k]) ==> InSwap(r, b.requests[k]);
      }
    }
  }

  /** Fewer requests strand nobody. */
  lemma FewerRequestsStrandNone(b: Books, r: Books)
    requires NoneStranded(b) && r.facts == b.facts && r.allocations == b.allocations
    requires forall k | k in r.requests :: k in b.requests && r.requests[k] == b.requests[k]
    ensures NoneStranded(r)
  {
    forall k | k in r.requests
      ensures !Stranded(r, k)
    {
      assert !Stranded(b, k);
    }
  }

  /** New sizes and release marks strand nobody. */
  lemma SameLinksStrandNone(b: Books, r: Books)
    requires NoneStranded(b) && r.requests == b.requests && r.allocations == b.allocations && r.facts.Keys == b.facts.Keys
    requires forall a | a in b.facts :: r.facts[a].placed == b.facts[a].placed && r.facts[a].link == b.facts[a].link
    ensures NoneStranded(r)
  {
    forall k | k in r.requests
      ensures !Stranded(r, k)
    {
      assert !Stranded(b, k);
    }
  }

  /** A request and an allocation with the same key are the same. */
  predicate SameUnderKey(b: Books) {
    forall k | k in b.requests && k in b.allocations :: b.allocations[k] == b.requests[k]
  }

  lemma KeysAgree(b: Books)
    requires WellFormed(b)
    ensures SameUnderKey(b)
  {
    hide NoNegativeSizes, NoZeroSizes;
  }

  /** The link of a real ask is a placeholder. */
  ghost predicate LinksPair(b: Books) {
    forall k | k in b.requests && !b.requests[k].placeholder ::
      LinkOf(b, b.requests[k]).Some? ==> LinkOf(b, b.requests[k]).value.placeholder
  }

  lemma PairsMatch(b: Books)
    requires LinksMatch(b)
    ensures LinksPair(b)
  {
  }

  /** An ask that returns to pending is not placed any more; the others keep their standing. */
  lemma ReturnStrandsNone(b: Books, r: Books, a: Allocation)
    requires NoneStranded(b) && r.requests == b.requests
    requires forall c :: LinkOf(r, c) == LinkOf(b, c) && Placed(r, c) == (c != a && Placed(b, c))
    requires forall k | k in b.allocations && b.allocations[k] != a :: k in r.allocations && r.allocations[k] == b.allocations[k]
    requires LinksPair(b) && SameUnderKey(b) && (a.placeholder ==> r.allocations == b.allocations)
    ensures NoneStranded(r)
  {
    hide LinkOf, Placed;
    forall k | k in r.requests
      ensures !Stranded(r, k)
    {
      assert !Stranded(b, k);
    }
  }

  lemma ReturnEffect(b: Books, a: Allocation)
    requires Placed(b, a)
    ensures var r := AskDeallocated(b, a);
            && r.requests == b.requests && r.allocations == b.allocations
            && forall c :: LinkOf(r, c) == LinkOf(b, c) && Placed(r, c) == (c != a && Placed(b, c))
  {
    hide Incremented, Plus, SizeOf;
  }

  lemma RollbackEffect(b: Books, key: string)
    requires key in b.requests && key in b.allocations && Placed(b, b.allocations[key])
    ensures var r, a := RolledBack(b, key), b.allocations[key];
            && r.requests == b.requests && r.allocations == b.allocations - {key}
            && forall c :: LinkOf(r, c) == LinkOf(b, c) && Placed(r, c) == (c != a && Placed(b, c))
  {
    ReturnEffect(b, b.allocations[key]);
    hide Minus, Pruned, SizeOf, AskDeallocated;
  }

  lemma PlaceStrandsNone(b: Books, key: string)
    requires Sound(b) && NoneStranded(b)
    ensures NoneStranded(Next(b, Place(key)))
  {
    hide TotalsTrack, HistogramAgrees, Decremented, Plus, Minus, Pruned, SizeOf, NoNegativeSizes, NoZeroSizes,
         UniqueKeys, LinksMatch;
    var r := Next(b, Place(key));
    if key in b.requests && !Placed(b, b.requests[key]) {
      var a := b.requests[key];
      Standing(b, key);
      FormOf(b);
      forall k | k in r.requests
        ensures !Stranded(r, k)
      {
        assert !Stranded(b, k);
        assert LinkOf(r, b.requests[k]) == LinkOf(b, b.requests[k]);
      }
    }
  }

  lemma RollbackStrandsNone(b: Books, key: string)
    requires Sound(b) && NoneStranded(b) && !RollsBackPlaceholder(b, key)
    ensures NoneStranded(RolledBack(b, key))
  {
    hide TotalsTrack, HistogramAgrees, WellFormed, LinksMatch, LinkOf, NoneStranded;
    KeysAgree(b);
    if key in b.requests && key in b.allocations && Placed(b, b.allocations[key]) {
      RollbackEffect(b, key);
      PairsMatch(b);
      hide RolledBack, Placed;
      ReturnStrandsNone(b, RolledBack(b, key), b.allocations[key]);
    }
  }

  lemma UnwindStrandsNone(b: Books, key: string)
    requires Sound(b) && NoneStranded(b)
    ensures NoneStranded(Next(b, Unwind(key)))
  {
    hide TotalsTrack, HistogramAgrees, WellFormed, LinksMatch, LinkOf, NoneStranded;
    KeysAgree(b);
    if key in b.requests && Placed(b, b.requests[key]) {
      ReturnEffect(b, b.requests[key]);
      PairsMatch(b);
      hide AskDeallocated, Placed;
      ReturnStrandsNone(b, Next(b, Unwind(key)), b.requests[key]);
    }
  }

  // ---------- steps on swaps ----------

  lemma SwapStrandsNone(b: Books, ph: Allocation, a: Allocation)
    requires Sound(b) && NoneStranded(b) && CanSwap(b, ph, a)
    ensures NoneStranded(Swapped(b, ph, a, false))
  {
    hide TotalsTrack, HistogramAgrees, Decremented, Minus, Pruned, SizeOf, NoNegativeSizes, NoZeroSizes, UniqueKeys;
    var r := Swapped(b, ph, a, false);
    assert a != ph && LinkOf(r, a) == Some(ph) && LinkOf(r, ph) == Some(a);
    assert InSwap(r, a);
    forall k | k in r.requests
      ensures !Stranded(r, k)
    {
      assert !Stranded(b, k);
      var c := b.requests[k];
      if c != a && !c.placeholder && InSwap(b, c) {
        assert LinkOf(b, c).value != ph && LinkOf(b, c).value != a;
        assert InSwap(r, c);
      }
    }
  }

  lemma ConfirmEffect(b: Books, key: string)
    requires key in b.allocations
    ensures var r, link := SwapConfirmed(b, key), LinkOf(b, b.allocations[key]);
            && r.requests == b.requests && (forall a :: Placed(r, a) == Placed(b, a))
            && (forall a :: LinkOf(r, a) == if Some(a) == link then None else LinkOf(b, a))
            && r.allocations == if link.None? then b.allocations - {key} else (b.allocations - {key})[link.value.key := link.value]
  {
    hide Plus, Minus, Pruned, SizeOf;
  }

  lemma KeysOfRequests(b: Books)
    requires WellFormed(b)
    ensures forall k | k in b.requests :: b.requests[k].key == k
  {
    hide UniqueKeys, NoNegativeSizes, NoZeroSizes;
  }

  lemma ConfirmAbsent(b: Books, key: string)
    requires key !in b.allocations
    ensures SwapConfirmed(b, key) == b
  {
  }

  lemma ConfirmKeepsOne(b: Books, r: Books, key: string, k: string)
    requires key in b.allocations && b.allocations[key].placeholder && b.allocations[key].key == key
    requires k in b.requests && b.requests[k].key == k && !Stranded(b, k) && SameUnderKey(b)
    requires var link := LinkOf(b, b.allocations[key]);
             && (link.Some? ==> link.value.key !in b.allocations)
             && r.requests == b.requests && (forall a :: Placed(r, a) == Placed(b, a))
             && (forall a :: LinkOf(r, a) == if Some(a) == link then None else LinkOf(b, a))
             && r.allocations == if link.None? then b.allocations - {key} else (b.allocations - {key})[link.value.key := link.value]
    ensures !Stranded(r, k)
  {
    hide LinkOf, Placed;
    var a, link := b.requests[k], LinkOf(b, b.allocations[key]);
    if InSwap(b, a) && link != Some(a) {
      assert LinkOf(b, a).value != b.allocations[key];
    }
  }

  lemma ConfirmStrandsNone(b: Books, key: string)
    requires Sound(b) && NoneStranded(b) && Legal(b, ConfirmSwap(key))
    ensures NoneStranded(SwapConfirmed(b, key))
  {
    hide TotalsTrack, HistogramAgrees, WellFormed, LinksMatch, SwapConfirmed, LinkOf, Placed;
    if key in b.allocations {
      ConfirmEffect(b, key);
      KeysAgree(b);
      KeyOfListed(b, key);
      KeysOfRequests(b);
      PairsMatch(b);
      var r := SwapConfirmed(b, key);
      forall k | k in r.requests
        ensures !Stranded(r, k)
      {
        assert !Stranded(b, k);
        ConfirmKeepsOne(b, r, key, k);
      }
    } else {
      ConfirmAbsent(b, key);
    }
  }

  lemma CancelEffect(b: Books, ph: Allocation, a: Allocation)
    requires WellFormed(b) && a in b.facts && ph in b.facts && a != ph
    ensures var r := SwapCancelled(b, ph, a);
            && r.requests == b.requests && r.allocations == b.allocations
            && (forall c :: LinkOf(r, c) == if c == a || c == ph then None else LinkOf(b, c))
            && (forall c :: Placed(r, c) == (Placed(b, c) && !(c == a && a.key in b.requests)))
  {
    hide Incremented, Plus, SizeOf, NoNegativeSizes, NoZeroSizes;
  }

  lemma CancelStrandsNone(b: Books, ph: Allocation, a: Allocation)
    requires Sound(b) && NoneStranded(b) && Legal(b, CancelSwap(ph, a))
    ensures NoneStranded(SwapCancelled(b, ph, a))
  {
    hide TotalsTrack, HistogramAgrees;
    var r := SwapCancelled(b, ph, a);
    assert ph in b.facts && a in b.facts && LinkOf(b, ph) == Some(a);
    CancelEffect(b, ph, a);
    FormOf(b);
    hide WellFormed, LinksMatch, SwapCancelled, LinkOf, Placed;
    forall k | k in r.requests
      ensures !Stranded(r, k)
    {
      assert !Stranded(b, k);
    }
  }

  // ---------- runs ----------

  /** No placed request is in a swap with the placeholder. */
  predicate NobodyWaits(b: Books, ph: Allocation) {
    LinkOf(b, ph).Some? ==>
      var a := LinkOf(b, ph).value;
      a.key !in b.requests || !Placed(b, a) || a.key in b.allocations || LinkOf(b, a) != Some(ph)
  }

  /** The ask of a removed real allocation is gone, pending again or in a swap, and nobody waits for a removed placeholder. */
  predicate RemovalStrandsNone(b: Books, key: string) {
    key in b.allocations ==>
      var a := b.allocations[key];
      if a.placeholder then NobodyWaits(b, a) else key !in b.requests || !Placed(b, a) || InSwap(b, a)
  }

  lemma RemovalEffect(b: Books, key: string)
    ensures var r := AllocationRemoved(b, key);
            r.facts == b.facts && r.requests == b.requests && r.allocations == b.allocations - {key}
  {
    hide Minus, Pruned, SizeOf;
  }

  /** Removing an allocation strands an ask exactly when its ask stays behind, or the ask it is in a swap with. */
  lemma RemovalStrandsIff(b: Books, key: string)
    requires Sound(b) && NoneStranded(b)
    ensures NoneStranded(AllocationRemoved(b, key)) <==> RemovalStrandsNone(b, key)
  {
    hide TotalsTrack, HistogramAgrees, WellFormed, LinksMatch, AllocationRemoved, LinkOf, Placed;
    var r := AllocationRemoved(b, key);
    RemovalEffect(b, key);
    KeysAgree(b);
    if key !in b.allocations {
      assert b.allocations - {key} == b.allocations;
      FewerRequestsStrandNone(b, r);
    } else if !RemovalStrandsNone(b, key) {
      RemovalStrands(b, key);
    } else {
      KeyOfListed(b, key);
      KeysOfRequests(b);
      PairsMatch(b);
      forall k | k in r.requests
        ensures !Stranded(r, k)
      {
        assert !Stranded(b, k);
        RemovalKeepsOne(b, r, key, k);
      }
    }
  }

  lemma RemovalKeepsOne(b: Books, r: Books, key: string, k: string)
    requires key in b.allocations && b.allocations[key].key == key && RemovalStrandsNone(b, key) && SameUnderKey(b)
    requires k in b.requests && b.requests[k].key == k && !Stranded(b, k)
    requires r.facts == b.facts && r.requests == b.requests && r.allocations == b.allocations - {key}
    requires LinksPair(b)
    ensures !Stranded(r, k)
  {
    SameStanding(b, r, b.requests[k]);
    if LinkOf(b, b.requests[k]).Some? {
      SameStanding(b, r, LinkOf(b, b.requests[k]).value);
    }
    hide LinkOf, Placed;
  }

  lemma SameStanding(b: Books, r: Books, a: Allocation)
    requires r.facts == b.facts
    ensures LinkOf(r, a) == LinkOf(b, a) && Placed(r, a) == Placed(b, a)
  {
  }

  /** The ask that is left alone. */
  lemma LeftAlone(b: Books, key: string) returns (ask: Allocation)
    requires WellFormed(b) && LinksMatch(b) && key in b.allocations && !RemovalStrandsNone(b, key)
    ensures ask.key in b.requests && b.requests[ask.key] == ask && !ask.placeholder && Placed(b, ask)
    ensures ask.key !in b.allocations - {key}
    ensures InSwap(b, ask) ==> LinkOf(b, ask) == Some(b.allocations[key]) && b.allocations[key].key == key
  {
    var a := b.allocations[key];
    hide NoNegativeSizes, NoZeroSizes;
    KeyOfListed(b, key);
    KeysAgree(b);
    ask := if a.placeholder then LinkOf(b, a).value else a;
  }

  lemma RemovalStrands(b: Books, key: string)
    requires WellFormed(b) && LinksMatch(b) && key in b.allocations && !RemovalStrandsNone(b, key)
    ensures !NoneStranded(AllocationRemoved(b, key))
  {
    hide AllocationRemoved, WellFormed, LinksMatch, RemovalStrandsNone;
    var r := AllocationRemoved(b, key);
    var ask := LeftAlone(b, key);
    RemovalEffect(b, key);
    assert Stranded(r, ask.key);
  }

  // ---------- releases ----------

  /** Nobody waits for a released placeholder. */
  predicate ReleaseStrandsNone(b: Books, key: string) {
    key in b.allocations && b.allocations[key].placeholder ==> NobodyWaits(b, b.allocations[key])
  }

  lemma ReleaseEffect(b: Books, key: string)
    ensures var r := Next(b, Release(key));
            r.facts == b.facts && r.requests == b.requests - {key} && r.allocations == b.allocations - {key}
  {
    hide Minus, Pruned, SizeOf, Decremented, SortedAsks.Removed;
    assert key !in b.requests ==> b.requests - {key} == b.requests;
    assert key !in b.allocations ==> b.allocations - {key} == b.allocations;
  }

  /**
   The release of an allocation together with its ask, as the partition does it for every termination
   but a timeout, strands an ask exactly when it concerns a placeholder in a swap.
   */
  lemma ReleaseStrandsIff(b: Books, key: string)
    requires Sound(b) && NoneStranded(b)
    ensures NoneStranded(Next(b, Release(key))) <==> ReleaseStrandsNone(b, key)
  {
    hide TotalsTrack, HistogramAgrees, WellFormed, LinksMatch, Next, LinkOf, Placed;
    var r := Next(b, Release(key));
    ReleaseEffect(b, key);
    KeysAgree(b);
    if !ReleaseStrandsNone(b, key) {
      ReleaseStrands(b, key);
    } else {
      forall k | k in r.requests
        ensures !Stranded(r, k)
      {
        assert !Stranded(b, k);
        if key in b.allocations {
          KeyOfListed(b, key);
          KeysOfRequests(b);
          PairsMatch(b);
          ReleaseKeepsOne(b, r, key, k);
        } else {
          assert r.allocations == b.allocations;
          StandsAlike(b, r, k);
        }
      }
    }
  }

  lemma StandsAlike(b: Books, r: Books, k: string)
    requires k in b.requests && k in r.requests && r.requests[k] == b.requests[k] && !Stranded(b, k)
    requires r.facts == b.facts && r.allocations == b.allocations
    ensures !Stranded(r, k)
  {
  }

  lemma ReleaseKeepsOne(b: Books, r: Books, key: string, k: string)
    requires key in b.allocations && b.allocations[key].key == key && ReleaseStrandsNone(b, key) && SameUnderKey(b)
    requires k in b.requests && k != key && b.requests[k].key == k && !Stranded(b, k)
    requires r.facts == b.facts && r.requests == b.requests - {key} && r.allocations == b.allocations - {key}
    requires LinksPair(b)
    ensures !Stranded(r, k)
  {
    SameStanding(b, r, b.requests[k]);
    if LinkOf(b, b.requests[k]).Some? {
      SameStanding(b, r, LinkOf(b, b.requests[k]).value);
    }
    hide LinkOf, Placed;
  }

  lemma ReleaseStrands(b: Books, key: string)
    requires WellFormed(b) && LinksMatch(b) && !ReleaseStrandsNone(b, key)
    ensures !NoneStranded(Next(b, Release(key)))
  {
    var r, ph := Next(b, Release(key)), b.allocations[key];
    ReleaseEffect(b, key);
    var ask := LinkOf(b, ph).value;
    hide Next, NoNegativeSizes, NoZeroSizes;
    assert ask.key != key;
    assert Stranded(r, ask.key);
  }

  lemma ReleaseAllStrandsNone(b: Books)
    ensures NoneStranded(Next(b, ReleaseAll))
  {
  }

  /** What a run must avoid, beyond Legal, so that no ask is stranded. Timeouts and node removals do not avoid it. */
  predicate KeepsAsks(b: Books, op: Op) {
    match op
    case Release(key) => ReleaseStrandsNone(b, key)
    case RemoveAllocation(key) => RemovalStrandsNone(b, key)
    case RemoveAllocations => forall k | k in b.requests :: b.requests[k].placeholder || !Placed(b, b.requests[k])
    case _ => true
  }

  lemma AddAskStrandsNone(b: Books, a: Allocation, fact: Fact)
    requires Sound(b) && NoneStranded(b) && Legal(b, AddAsk(a, fact))
    ensures NoneStranded(Next(b, AddAsk(a, fact)))
  {
    hide TotalsTrack, HistogramAgrees, WellFormed, LinksMatch, NoneStranded, Fresh, Plus, Minus, Pruned, SizeOf,
         Incremented, Decremented, Prior, SortedAsks.Inserted, IsZero;
    if !fact.placed && !IsZero(fact.resource) {
      NewRequestStrandsNone(b, AskAdded(b, a, fact), a, fact);
    }
  }

  lemma RecoverStrandsNone(b: Books, a: Allocation, fact: Fact)
    requires Sound(b) && NoneStranded(b) && Legal(b, Recover(a, fact))
    ensures NoneStranded(Next(b, Recover(a, fact)))
  {
    FreshIsUnlisted(b, a);
    hide TotalsTrack, HistogramAgrees, WellFormed, LinksMatch, NoneStranded, Fresh, Plus, SizeOf, Incremented;
    NewRequestStrandsNone(b, Next(b, Recover(a, fact)), a, fact);
  }

  lemma RemoveAskStrandsNone(b: Books, key: string)
    requires NoneStranded(b)
    ensures NoneStranded(AskRemoved(b, key)) && NoneStranded(AsksRemoved(b))
  {
    hide NoneStranded, Minus, Pruned, SizeOf, Decremented, SortedAsks.Removed;
    FewerRequestsStrandNone(b, AskRemoved(b, key));
    FewerRequestsStrandNone(b, AsksRemoved(b));
  }

  lemma ResizeStrandsNone(b: Books, key: string, resource: Amounts)
    requires NoneStranded(b)
    ensures NoneStranded(Resized(b, key, resource))
  {
    hide NoneStranded, Plus, Minus, Pruned, SizeOf, IsZero;
    SameLinksStrandNone(b, Resized(b, key, resource));
  }

  /** A pending ask can drop its link. */
  lemma UnlinkStrandsNone(b: Books, r: Books, a: Allocation)
    requires NoneStranded(b) && LinksPair(b) && !a.placeholder && !Placed(b, a)
    requires r.facts == SetLink(b.facts, a, None) && r.requests == b.requests && r.allocations == b.allocations
    ensures NoneStranded(r)
  {
    forall k | k in r.requests
      ensures !Stranded(r, k)
    {
      assert !Stranded(b, k);
    }
  }

  lemma RefusedStrandsNone(b: Books, ph: Allocation, a: Allocation)
    requires Sound(b) && NoneStranded(b) && CanSwap(b, ph, a)
    ensures NoneStranded(Swapped(b, ph, a, true))
  {
    hide NoneStranded, Swapped, TotalsTrack, HistogramAgrees, WellFormed;
    RefusedSwapRestores(b, ph, a);
    PairsMatch(b);
    hide LinksMatch;
    UnlinkStrandsNone(b, Swapped(b, ph, a, true), a);
  }

  lemma StepStrandsNone(b: Books, op: Op)
    requires Sound(b) && NoneStranded(b) && Legal(b, op) && KeepsAsks(b, op)
    ensures NoneStranded(Next(b, op))
  {
    hide Sound, NoneStranded;
    match op
    case AddAsk(a, fact) => AddAskStrandsNone(b, a, fact);
    case Recover(a, fact) => RecoverStrandsNone(b, a, fact);
    case Place(key) => PlaceStrandsNone(b, key);
    case Resize(key, resource) => ResizeStrandsNone(b, key, resource);
    case Unwind(key) => UnwindStrandsNone(b, key);
    case Rollback(key) => RollbackStrandsNone(b, key);
    case RemoveAsk(key) => RemoveAskStrandsNone(b, key);
    case RemoveAsks => RemoveAskStrandsNone(b, "");
    case RemoveAllocation(key) => RemovalStrandsIff(b, key);
    case RemoveAllocations => NothingPlacedStrandsNone(b);
    case Release(key) => ReleaseStrandsIff(b, key);
    case ReleaseAll => ReleaseAllStrandsNone(b);
    case Swap(ph, a, refused) => if refused { RefusedStrandsNone(b, ph, a); } else { SwapStrandsNone(b, ph, a); }
    case ConfirmSwap(key) => ConfirmStrandsNone(b, key);
    case CancelSwap(ph, a) => CancelStrandsNone(b, ph, a);
    case MarkReleased(a) => SameLinksStrandNone(b, Next(b, op));
  }

  lemma NothingPlacedStrandsNone(b: Books)
    requires KeepsAsks(b, RemoveAllocations)
    ensures NoneStranded(AllocationsRemoved(b))
  {
  }

  ghost predicate KeepsAsksRun(b: Books, ops: seq<Op>)
    decreases |ops|
  {
    ops != [] ==> KeepsAsks(b, ops[0]) && KeepsAsksRun(Next(b, ops[0]), ops[1..])
  }

  /** In every run every placed real request is among the allocations or in a running swap. */
  lemma {:induction false} RunStrandsNone(b: Books, ops: seq<Op>)
    requires Sound(b) && NoneStranded(b) && LegalRun(b, ops) && KeepsAsksRun(b, ops)
    ensures NoneStranded(Run(b, ops))
    decreases |ops|
  {
    hide Sound, NoneStranded, Legal, KeepsAsks, AllSummable, Next;
    if ops != [] {
      StepKeepsSound(b, ops[0]);
      StepStrandsNone(b, ops[0]);
      RunStrandsNone(Next(b, ops[0]), ops[1..]);
    }
  }

  // ---------- a placeholder that was told to go ----------

  /**
   A placeholder that is released as too small and then still picked for a swap leaves as a timed out
   one, without a confirmation: the ask it was swapped for is stranded.
   */
  lemma ReleasedThenSwappedStrands(b: Books, ph: Allocation, ask: Allocation)
    requires Sound(b) && CanSwap(b, ph, ask) && ask.key !in b.allocations
    ensures var released := Next(b, MarkReleased(ph));
            && Legal(released, Swap(ph, ask, false))
            && Stranded(Next(Next(released, Swap(ph, ask, false)), RemoveAllocation(ph.key)), ask.key)
  {
    hide Sound, SetReleased, Swapped, AllocationRemoved, CanSwap, Stranded;
    MarkStep(b, ph);
    MarkedCanSwap(b, ph, ask);
    SwappedStrands(Next(b, MarkReleased(ph)), ph, ask);
  }

  lemma MarkedCanSwap(b: Books, ph: Allocation, ask: Allocation)
    requires CanSwap(b, ph, ask)
    ensures CanSwap(b.(facts := SetReleased(b.facts, ph)), ph, ask)
  {
  }

  lemma SwappedStrands(b: Books, ph: Allocation, ask: Allocation)
    requires Sound(b) && CanSwap(b, ph, ask) && ask.key !in b.allocations
    ensures Stranded(AllocationRemoved(Swapped(b, ph, ask, false), ph.key), ask.key)
  {
    var r := Swapped(b, ph, ask, false);
    hide TotalsTrack, HistogramAgrees, Swapped, AllocationRemoved;
    Standing(b, ask.key);
    SwapEffect(b, ph, ask);
    RemovalEffect(r, ph.key);
    hide WellFormed, LinksMatch, Pending, OfKind;
    SameStanding(r, AllocationRemoved(r, ph.key), ask);
    SameStanding(r, AllocationRemoved(r, ph.key), ph);
    hide LinkOf, Placed;
  }

  lemma SwapEffect(b: Books, ph: Allocation, ask: Allocation)
    requires WellFormed(b) && CanSwap(b, ph, ask)
    ensures var r := Swapped(b, ph, ask, false);
            && r.requests == b.requests && r.allocations == b.allocations && ask != ph
            && LinkOf(r, ask) == Some(ph) && Placed(r, ask)
  {
    hide Decremented, Minus, Pruned, SizeOf, NoNegativeSizes, NoZeroSizes, UniqueKeys;
  }
}
