/**
 The confirmation of a swap by the shim (pkg/scheduler/partition.go). It names a placeholder, and the
 partition takes the real allocation from the link of that placeholder without a test.
 */
module SwapConfirmations {
  import opened Resources
  import opened Allocations
  import opened PendingPriorities
  import opened TrackedTotals
  import opened ApplicationBooks
  import opened ApplicationSteps
  import opened ApplicationRuns
  import opened PlaceholderSwaps
  import SortedAsks

  /** Whether a placeholder is in a swap after a step, by the name of the step alone. */
  predicate OpenAfter(was: bool, op: Op, ph: Allocation) {
    match op
    case Swap(p, _, refused) => (p == ph && !refused) || was
    case CancelSwap(p, _) => p != ph && was
    case _ => was
  }

  /** The last swap of the placeholder was not cancelled. */
  predicate SwapOpen(was: bool, ops: seq<Op>, ph: Allocation)
    decreases |ops|
  {
    if ops == [] then was else SwapOpen(OpenAfter(was, ops[0], ph), ops[1..], ph)
  }

  // ---------- what a step does to the link of a placeholder ----------

  lemma NewFactKeepsLink(b: Books, a: Allocation, fact: Fact, ph: Allocation)
    requires Fresh(b, a) && fact.link.None?
    ensures LinkOf(AskAdded(b, a, fact), ph) == LinkOf(b, ph)
    ensures LinkOf(AllocationAdded(AskRecovered(b, a, fact), a), ph) == LinkOf(b, ph)
  {
    hide Prior, Plus, Minus, Pruned, SizeOf, Incremented, Decremented, SortedAsks.Inserted;
  }

  lemma BasicStepsKeepLink(b: Books, a: Allocation, ph: Allocation)
    ensures LinkOf(AskAllocated(b, a), ph) == LinkOf(b, ph)
    ensures LinkOf(AskDeallocated(b, a), ph) == LinkOf(b, ph)
    ensures LinkOf(AllocationAdded(b, a), ph) == LinkOf(b, ph)
  {
    hide Plus, Minus, Pruned, SizeOf, Incremented, Decremented;
  }

  lemma OtherStepsKeepLink(b: Books, key: string, resource: Amounts, ph: Allocation)
    ensures LinkOf(Resized(b, key, resource), ph) == LinkOf(b, ph)
    ensures LinkOf(AskRemoved(b, key), ph) == LinkOf(b, ph)
    ensures LinkOf(AsksRemoved(b), ph) == LinkOf(b, ph)
    ensures LinkOf(AllocationRemoved(b, key), ph) == LinkOf(b, ph)
    ensures LinkOf(AllocationsRemoved(b), ph) == LinkOf(b, ph)
  {
    hide Plus, Minus, Pruned, SizeOf, Decremented, SortedAsks.Removed, IsZero;
  }

  lemma RollbackKeepsLink(b: Books, key: string, ph: Allocation)
    ensures LinkOf(RolledBack(b, key), ph) == LinkOf(b, ph)
  {
    hide AskDeallocated, Minus, Pruned, SizeOf;
    if key in b.allocations {
      BasicStepsKeepLink(b, b.allocations[key], ph);
    }
  }

  /** A swap links its placeholder; a refused one leaves all links as they were. */
  lemma SwapSetsLink(b: Books, p: Allocation, a: Allocation, refused: bool, ph: Allocation)
    requires Sound(b) && CanSwap(b, p, a) && ph.placeholder
    ensures LinkOf(Swapped(b, p, a, refused), ph) == if p == ph && !refused then Some(a) else LinkOf(b, ph)
  {
    hide TotalsTrack, HistogramAgrees, WellFormed, LinksMatch;
    if refused {
      hide Swapped;
      RefusedFacts(b, p, a);
    } else {
      SwapLinks(b, p, a, ph);
    }
  }

  lemma SwapLinks(b: Books, p: Allocation, a: Allocation, ph: Allocation)
    requires WellFormed(b) && CanSwap(b, p, a) && ph.placeholder
    ensures LinkOf(Swapped(b, p, a, false), ph) == if p == ph then Some(a) else LinkOf(b, ph)
  {
    hide Decremented, Minus, Pruned, SizeOf, NoNegativeSizes, NoZeroSizes, UniqueKeys;
  }

  lemma CancelClearsLink(b: Books, p: Allocation, a: Allocation, ph: Allocation)
    requires !a.placeholder && ph.placeholder
    ensures LinkOf(SwapCancelled(b, p, a), ph) == if p == ph then None else LinkOf(b, ph)
  {
    hide AskDeallocated;
    var u := b.(facts := SetLink(SetLink(b.facts, a, None), p, None));
    if a.key in u.requests {
      BasicStepsKeepLink(u, u.requests[a.key], ph);
    }
  }

  /** The confirmation unlinks the real allocation; the placeholder leaves with its link. */
  lemma ConfirmKeepsLink(b: Books, key: string, ph: Allocation)
    requires WellFormed(b) && LinksMatch(b) && ConfirmsPlaceholder(b, key) && ph.placeholder
    ensures LinkOf(SwapConfirmed(b, key), ph) == LinkOf(b, ph)
  {
    hide WellFormed, LinksMatch, AllocationRemoved, AllocationAdded, LinkOf;
    OtherStepsKeepLink(b, key, map[], ph);
    if key in b.allocations && LinkOf(b, b.allocations[key]).Some? {
      RealLink(b, key);
      var a, r := LinkOf(b, b.allocations[key]).value, AllocationRemoved(b, key);
      BasicStepsKeepLink(r, a, ph);
      UnlinkKeepsLink(AllocationAdded(r, a), a, ph);
    }
  }

  lemma UnlinkKeepsLink(b: Books, a: Allocation, ph: Allocation)
    requires a != ph
    ensures LinkOf(b.(facts := SetLink(b.facts, a, None)), ph) == LinkOf(b, ph)
  {
  }

  lemma RealLink(b: Books, key: string)
    requires WellFormed(b) && LinksMatch(b) && key in b.allocations && b.allocations[key].placeholder
    ensures LinkOf(b, b.allocations[key]).Some? ==> !LinkOf(b, b.allocations[key]).value.placeholder
  {
    KeyOfListed(b, key);
    hide WellFormed;
  }

  lemma StepSetsLink(b: Books, op: Op, ph: Allocation)
    requires Sound(b) && Legal(b, op) && ph.placeholder
    ensures LinkOf(Next(b, op), ph).Some? == OpenAfter(LinkOf(b, ph).Some?, op, ph)
  {
    hide TotalsTrack, HistogramAgrees, WellFormed, LinksMatch, AskAdded, AskRecovered, AllocationAdded, AskAllocated,
         AskDeallocated, Resized, AskRemoved, AsksRemoved, AllocationRemoved, AllocationsRemoved, Swapped,
         SwapConfirmed, SwapCancelled, RolledBack, LinkOf, Fresh, CanSwap, NonNegative, ResizeBooked;
    match op
    case AddAsk(a, fact) => NewFactKeepsLink(b, a, fact, ph);
    case Recover(a, fact) => NewFactKeepsLink(b, a, fact, ph);
    case Place(key) =>
      if key in b.requests {
        BasicStepsKeepLink(b, b.requests[key], ph);
        BasicStepsKeepLink(AskAllocated(b, b.requests[key]), b.requests[key], ph);
      }
    case Resize(key, resource) => OtherStepsKeepLink(b, key, resource, ph);
    case Unwind(key) => if key in b.requests { BasicStepsKeepLink(b, b.requests[key], ph); }
    case Rollback(key) => RollbackKeepsLink(b, key, ph);
    case RemoveAsk(key) => OtherStepsKeepLink(b, key, map[], ph);
    case RemoveAsks => OtherStepsKeepLink(b, "", map[], ph);
    case RemoveAllocation(key) => OtherStepsKeepLink(b, key, map[], ph);
    case RemoveAllocations => OtherStepsKeepLink(b, "", map[], ph);
    case Release(key) =>
      OtherStepsKeepLink(b, key, map[], ph);
      OtherStepsKeepLink(AllocationRemoved(b, key), key, map[], ph);
    case ReleaseAll =>
      OtherStepsKeepLink(b, "", map[], ph);
      OtherStepsKeepLink(AllocationsRemoved(b), "", map[], ph);
    case Swap(p, a, refused) => SwapSetsLink(b, p, a, refused, ph);
    case ConfirmSwap(key) => ConfirmKeepsLink(b, key, ph);
    case CancelSwap(p, a) => CancelClearsLink(b, p, a, ph);
    case MarkReleased(a) => MarkKeepsLink(b, a, ph);
  }

  lemma MarkKeepsLink(b: Books, a: Allocation, ph: Allocation)
    ensures LinkOf(b.(facts := SetReleased(b.facts, a)), ph) == LinkOf(b, ph)
  {
  }

  // ---------- runs ----------

  /**
   In every run a confirmation for a placeholder finds the real allocation exactly if the last swap of
   the placeholder was not cancelled.
   */
  lemma {:induction false} ConfirmationFindsLinkIff(b: Books, ops: seq<Op>, ph: Allocation)
    requires Sound(b) && LegalRun(b, ops) && ph.placeholder
    ensures LinkOf(Run(b, ops), ph).Some? <==> SwapOpen(LinkOf(b, ph).Some?, ops, ph)
    decreases |ops|
  {
    hide Sound, Legal, AllSummable, Next, OpenAfter, LinkOf;
    if ops != [] {
      StepKeepsSound(b, ops[0]);
      StepSetsLink(b, ops[0], ph);
      ConfirmationFindsLinkIff(Next(b, ops[0]), ops[1..], ph);
    }
  }

  /**
   A swap that starts and is cancelled, as when the node of the real allocation is removed: the
   placeholder is still there, and its confirmation takes it away and brings nothing in.
   */
  lemma CancelledThenConfirmed(b: Books, ph: Allocation, ask: Allocation)
    requires Sound(b) && CanSwap(b, ph, ask)
    ensures var s := Next(b, Swap(ph, ask, false));
            var c := Next(s, CancelSwap(ph, ask));
            && Legal(s, CancelSwap(ph, ask)) && ph.key in c.allocations && c.allocations[ph.key] == ph && LinkOf(c, ph).None?
            && Next(c, ConfirmSwap(ph.key)).allocations == b.allocations - {ph.key}
  {
    hide Swapped, SwapCancelled, SwapConfirmed, WellFormed, LinksMatch, TotalsTrack, HistogramAgrees, LinkOf;
    var s := Swapped(b, ph, ask, false);
    SwapEffects(b, ph, ask);
    CancelEffects(s, ph, ask);
    CancelClearsLink(s, ph, ask, ph);
    UnlinkedConfirm(SwapCancelled(s, ph, ask), ph.key);
  }

  lemma UnlinkedConfirm(b: Books, key: string)
    requires key in b.allocations && LinkOf(b, b.allocations[key]).None?
    ensures SwapConfirmed(b, key).allocations == b.allocations - {key}
  {
    hide Plus, Minus, Pruned, SizeOf;
  }

  lemma SwapEffects(b: Books, ph: Allocation, ask: Allocation)
    requires WellFormed(b) && CanSwap(b, ph, ask)
    ensures var s := Swapped(b, ph, ask, false);
            s.allocations == b.allocations && ask in s.facts && LinkOf(s, ask) == Some(ph) && !ask.placeholder
  {
    hide Decremented, Minus, Pruned, SizeOf, NoNegativeSizes, NoZeroSizes, UniqueKeys;
  }

  lemma CancelEffects(b: Books, ph: Allocation, ask: Allocation)
    ensures SwapCancelled(b, ph, ask).allocations == b.allocations
  {
    hide Plus, SizeOf, Incremented;
  }

  /**
   An ask that leaves a running swap, as when the node of a reservation it kept is off the list, and is
   placed elsewhere: all that is legal, and the confirmation of the swap would count it twice.
   */
  lemma ReturnedThenPlaced(b: Books, ph: Allocation, ask: Allocation)
    requires Sound(b) && CanSwap(b, ph, ask) && ask.key !in b.allocations
    ensures var s := Next(b, Swap(ph, ask, false));
            var u := Next(s, Unwind(ask.key));
            var p := Next(u, Place(ask.key));
            && Legal(b, Swap(ph, ask, false)) && Legal(s, Unwind(ask.key)) && Legal(u, Place(ask.key))
            && ph.key in p.allocations && p.allocations[ph.key] == ph && LinkOf(p, ph) == Some(ask)
            && !ConfirmsOnce(p, ph.key)
  {
    hide Sound, WellFormed, LinksMatch, TotalsTrack, HistogramAgrees, Next, Legal, LinkOf, ConfirmsOnce, CanSwap, Swapped,
         AskDeallocated, AskAllocated, AllocationAdded, Placed;
    var s := Next(b, Swap(ph, ask, false));
    SwapAsStep(b, ph, ask);
    var u := Next(s, Unwind(ask.key));
    ReturnAsStep(s, ask, ph);
    PlaceAsStep(u, ask, ph);
    CountedTwice(Next(u, Place(ask.key)), ph, ask);
  }

  lemma SwapAsStep(b: Books, ph: Allocation, ask: Allocation)
    requires Sound(b) && CanSwap(b, ph, ask)
    ensures var s := Next(b, Swap(ph, ask, false));
            && Legal(b, Swap(ph, ask, false)) && LinkOf(s, ph) == Some(ask) && Placed(s, ask) && ask.key != ph.key
            && s.allocations == b.allocations && ph.key in b.allocations && b.allocations[ph.key] == ph
            && ask.key in s.requests && s.requests[ask.key] == ask
  {
    hide TotalsTrack, HistogramAgrees, WellFormed, LinksMatch, Swapped, LinkOf, Placed;
    SwapEffects(b, ph, ask);
    SwapLinks(b, ph, ask, ph);
    SwapPlaces(b, ph, ask);
  }

  lemma ReturnAsStep(b: Books, a: Allocation, ph: Allocation)
    requires a.key in b.requests && b.requests[a.key] == a && Placed(b, a)
    ensures var u := Next(b, Unwind(a.key));
            && Legal(b, Unwind(a.key)) && u.allocations == b.allocations && u.requests == b.requests
            && !Placed(u, a) && LinkOf(u, ph) == LinkOf(b, ph)
  {
    ReturnEffects(b, a);
    BasicStepsKeepLink(b, a, ph);
    hide AskDeallocated, LinkOf;
  }

  lemma PlaceAsStep(b: Books, a: Allocation, ph: Allocation)
    requires a.key in b.requests && b.requests[a.key] == a && !Placed(b, a) && a.key !in b.allocations
    ensures var p := Next(b, Place(a.key));
            Legal(b, Place(a.key)) && p.allocations == b.allocations[a.key := a] && LinkOf(p, ph) == LinkOf(b, ph)
  {
    PlaceEffects(b, a);
    BasicStepsKeepLink(b, a, ph);
    BasicStepsKeepLink(AskAllocated(b, a), a, ph);
    hide AskAllocated, AllocationAdded, LinkOf;
  }

  lemma CountedTwice(b: Books, ph: Allocation, ask: Allocation)
    requires ph.key in b.allocations && b.allocations[ph.key] == ph && LinkOf(b, ph) == Some(ask) && ask.key in b.allocations
    ensures !ConfirmsOnce(b, ph.key)
  {
  }

  lemma SwapPlaces(b: Books, ph: Allocation, ask: Allocation)
    requires WellFormed(b) && CanSwap(b, ph, ask)
    ensures var s := Swapped(b, ph, ask, false);
            s.requests == b.requests && Placed(s, ask) && ask != ph && ask.key != ph.key
  {
    hide Decremented, Minus, Pruned, SizeOf, NoNegativeSizes, NoZeroSizes;
  }

  lemma ReturnEffects(b: Books, a: Allocation)
    requires Placed(b, a)
    ensures var r := AskDeallocated(b, a);
            r.allocations == b.allocations && r.requests == b.requests && a in r.facts && !Placed(r, a)
  {
    hide Plus, SizeOf, Incremented;
  }

  lemma PlaceEffects(b: Books, a: Allocation)
    ensures AllocationAdded(AskAllocated(b, a), a).allocations == b.allocations[a.key := a]
  {
    hide Plus, Minus, Pruned, SizeOf, Decremented;
  }
}
