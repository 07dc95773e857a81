/**
 The swap of a placeholder for a real allocation (pkg/scheduler/objects/application.go): the ask is
 placed and linked to the placeholder, the shim confirms, and the real allocation takes the place of
 the placeholder. On the way the placeholder can refuse its release, or a node can disappear.
 */
module PlaceholderSwaps {
  import opened Resources
  import opened Allocations
  import opened PendingPriorities
  import opened TrackedTotals
  import opened ApplicationBooks
  import opened ApplicationSteps
  import NodeAccounting

  /** A change of links and release marks only. */
  predicate Relinked(f: Facts, g: Facts) {
    f.Keys == g.Keys && forall a | a in f :: f[a].resource == g[a].resource && f[a].placed == g[a].placed
  }

  lemma RelinkKeepsTotals(b: Books, c: Books)
    requires TotalsTrack(b) && HistogramAgrees(b)
    requires c == b.(facts := c.facts) && Relinked(b.facts, c.facts)
    ensures TotalsTrack(c) && HistogramAgrees(c)
  {
    RelinkedPending(b, c);
    hide Tracks, Agrees, Pending, OfKind, PrioritiesOf;
    SameSizesKeepTracking(b.pending, b.facts, c.facts, Pending(b));
    SameSizesKeepTracking(b.allocatedResource, b.facts, c.facts, OfKind(b.allocations, false));
    SameSizesKeepTracking(b.allocatedPlaceholder, b.facts, c.facts, OfKind(b.allocations, true));
  }

  lemma RelinkedPending(b: Books, c: Books)
    requires c.requests == b.requests && Relinked(b.facts, c.facts)
    ensures Pending(c) == Pending(b)
  {
  }

  lemma RelinkKeepsForm(b: Books, c: Books)
    requires WellFormed(b) && c == b.(facts := c.facts) && Relinked(b.facts, c.facts)
    ensures WellFormed(c)
  {
    hide IsZero, NonNegative;
  }

  // ---------- the start ----------

  /** What the scheduler checks before it starts a swap: an unlinked placeholder and a pending real ask. */
  predicate CanSwap(b: Books, ph: Allocation, ask: Allocation) {
    && ph.key in b.allocations && b.allocations[ph.key] == ph && ph.placeholder && LinkOf(b, ph).None?
    && ask.key in b.requests && b.requests[ask.key] == ask && !ask.placeholder && !Placed(b, ask)
  }

  /** A placeholder that is not released is in no swap: the test of the release mark is enough. */
  lemma UnreleasedCanSwap(b: Books, ph: Allocation)
    requires WellFormed(b) && LinksMatch(b) && ph in b.facts && ph.placeholder && !b.facts[ph].released
    ensures LinkOf(b, ph).None?
  {
  }

  lemma StartedLinks(b: Books, ph: Allocation, ask: Allocation)
    requires WellFormed(b) && LinksMatch(b) && CanSwap(b, ph, ask)
    ensures LinksMatch(Swapped(b, ph, ask, false))
  {
    hide Decremented, Minus, Pruned, SizeOf, NoNegativeSizes, NoZeroSizes, UniqueKeys;
    var r := Swapped(b, ph, ask, false);
    assert ph != ask && r.facts[ask].link == Some(ph) && r.facts[ph].link == Some(ask) && r.facts[ph].released;
    assert forall a | a in b.facts && a != ph && a != ask :: r.facts[a] == b.facts[a];
  }

  lemma StartOnlyRelinks(b: Books, ph: Allocation, ask: Allocation)
    ensures var p, r := AskAllocated(b, ask), Swapped(b, ph, ask, false); r == p.(facts := r.facts) && Relinked(p.facts, r.facts)
  {
    hide AskAllocated;
  }

  lemma SwapStartKeepsSound(b: Books, ph: Allocation, ask: Allocation)
    requires Sound(b) && CanSwap(b, ph, ask)
    ensures Sound(Swapped(b, ph, ask, false))
  {
    hide WellFormed, LinksMatch, TotalsTrack, HistogramAgrees, AskAllocated, Swapped, Relinked;
    StartedLinks(b, ph, ask);
    AllocateKeepsTotals(b, ask);
    AllocateKeepsForm(b, ask);
    StartOnlyRelinks(b, ph, ask);
    RelinkKeepsTotals(AskAllocated(b, ask), Swapped(b, ph, ask, false));
    RelinkKeepsForm(AskAllocated(b, ask), Swapped(b, ph, ask, false));
  }

  // ---------- a refused swap ----------

  lemma RefusedFacts(b: Books, ph: Allocation, ask: Allocation)
    requires WellFormed(b) && CanSwap(b, ph, ask)
    ensures Swapped(b, ph, ask, true).facts == SetLink(b.facts, ask, None)
    ensures LinkOf(b, ask).None? ==> SetLink(b.facts, ask, None) == b.facts
  {
    hide Decremented, Incremented, Plus, Minus, Pruned, SizeOf, NoNegativeSizes, NoZeroSizes, UniqueKeys;
    assert b.facts[ph].link.None? && ph != ask;
  }

  /**
   Everything the application keeps is as it was, but for a link that the ask had kept from a swap it
   left before. The pending total may drop an entry of zero.
   */
  lemma RefusedSwapRestores(b: Books, ph: Allocation, ask: Allocation)
    requires Sound(b) && CanSwap(b, ph, ask)
    ensures var r := Swapped(b, ph, ask, true);
            && r == b.(pending := r.pending, facts := SetLink(b.facts, ask, None))
            && (LinkOf(b, ask).None? ==> r.facts == b.facts)
            && SameView(r.pending, b.pending)
  {
    hide Decremented, Incremented, Plus, Minus, Pruned, WellFormed, LinksMatch, TotalsTrack, HistogramAgrees, SameView;
    FormOf(b);
    RefusedFacts(b, ph, ask);
    RefusedHistogram(b, ph, ask);
    RefusedPending(b, ask);
  }

  lemma RefusedHistogram(b: Books, ph: Allocation, ask: Allocation)
    requires WellFormed(b) && HistogramAgrees(b) && CanSwap(b, ph, ask)
    ensures Incremented(Decremented(b.priorities, ask.priority), ask.priority) == b.priorities
    ensures Swapped(b, ph, ask, true).priorities == Incremented(Decremented(b.priorities, ask.priority), ask.priority)
  {
    PendingAllocated(b, ask);
    PriorityIn(b, ask.key);
    hide Plus, Minus, Pruned, SizeOf, Incremented, Decremented, NoNegativeSizes, NoZeroSizes, UniqueKeys, Pending,
         PrioritiesOf;
    DecrementAgrees(b.priorities, PrioritiesOf(Pending(b)), ask.key);
    OutAndInAgain(b.priorities, ask.priority);
  }

  lemma RefusedPending(b: Books, ask: Allocation)
    requires WellFormed(b) && TotalsTrack(b) && ask.key in b.requests && b.requests[ask.key] == ask && !Placed(b, ask)
    ensures SameView(Plus(Pruned(Minus(b.pending, SizeOf(b.facts, ask))), SizeOf(b.facts, ask)), b.pending)
  {
    FormOf(b);
    PendingAllocated(b, ask);
    hide Pending, WellFormed, PrioritiesOf, AskAllocated;
    OutAndInPending(b.pending, b.facts, Pending(b), ask.key);
  }

  lemma OutAndInPending(total: Amounts, facts: Facts, group: Group, k: string)
    requires Tracks(total, facts, group) && k in group && NoNegativeSizes(facts)
    ensures var size := SizeOf(facts, group[k]); SameView(Plus(Pruned(Minus(total, size)), size), total)
  {
    hide NoNegativeSizes, Plus, Minus, Pruned, TotalOf, SizeOf;
    var size := SizeOf(facts, group[k]);
    forall t: string
      ensures Get(Plus(Pruned(Minus(total, size)), size), t) == Get(total, t)
    {
      TotalRemoved(facts, group, k, t);
      TotalIsNotNegative(facts, group - {k}, t);
      SizeIsNotNegative(facts, group[k], t);
      MinusAt(total, size, t);
      PrunedAt(Minus(total, size), t);
      PlusAt(Pruned(Minus(total, size)), size, t);
    }
  }

  /**
   On another node the ask is added and taken off again: the resources are as they were, up to entries
   of zero. An allocation that the node still listed under the key is not listed any more.
   */
  lemma RefusedSwapRestoresNode(n: NodeAccounting.NodeState, key: string, resource: Amounts)
    requires NonNegative(resource) && SumFits(n.inUse, resource)
    ensures var item := NodeAccounting.Item(false, resource);
            var m := NodeAccounting.Next(n, NodeAccounting.Add(key, item, false));
            var r := if FitIn(n.available, resource) then NodeAccounting.Next(m, NodeAccounting.Remove(key)) else m;
            && r.items == (if FitIn(n.available, resource) then n.items - {key} else n.items)
            && r.total == n.total && r.occupied == n.occupied
            && SameView(r.inUse, n.inUse) && SameView(r.available, n.available)
  {
    if FitIn(n.available, resource) {
      assert n.items[key := NodeAccounting.Item(false, resource)] - {key} == n.items - {key};
      PlusThenMinusView(n.inUse, resource);
      MinusThenPlusView(n.available, resource);
    }
  }

  lemma PlusThenMinusView(a: Amounts, b: Amounts)
    requires NonNegative(b) && SumFits(a, b)
    ensures SameView(Pruned(Minus(Plus(a, b), b)), a)
  {
    forall t: string
      ensures Get(Pruned(Minus(Plus(a, b), b)), t) == Get(a, t)
    {
      PlusExact(a, b, t);
      MinusAt(Plus(a, b), b, t);
      PrunedAt(Minus(Plus(a, b), b), t);
    }
  }

  lemma MinusThenPlusView(a: Amounts, b: Amounts)
    requires NonNegative(b) && FitIn(a, b)
    ensures SameView(Plus(Pruned(Minus(a, b)), b), a)
  {
    forall t: string
      ensures Get(Plus(Pruned(Minus(a, b)), b), t) == Get(a, t)
    {
      FitsAt(a, b, t);
      NonNegativeAt(b, t);
      MinusAt(a, b, t);
      PrunedAt(Minus(a, b), t);
      PlusAt(Pruned(Minus(a, b)), b, t);
    }
  }

  lemma FitsAt(a: Amounts, b: Amounts, t: string)
    requires NonNegative(b) && FitIn(a, b)
    ensures Get(b, t) <= Get(a, t) || Get(b, t) == 0
  {
  }

  // ---------- the end ----------

  /** The books with one side of a swap unlinked. */
  function Unlinked(b: Books, a: Allocation): Books {
    b.(facts := SetLink(b.facts, a, None))
  }

  lemma UnlinkKeepsRest(b: Books, a: Allocation)
    requires WellFormed(b) && TotalsTrack(b) && HistogramAgrees(b)
    ensures WellFormed(Unlinked(b, a)) && TotalsTrack(Unlinked(b, a)) && HistogramAgrees(Unlinked(b, a))
  {
    hide WellFormed, TotalsTrack, HistogramAgrees;
    assert Relinked(b.facts, Unlinked(b, a).facts);
    RelinkKeepsTotals(b, Unlinked(b, a));
    RelinkKeepsForm(b, Unlinked(b, a));
  }

  /** The confirmed placeholder is replaced by an ask that is not among the allocations yet. */
  predicate ConfirmsOnce(b: Books, key: string) {
    key in b.allocations && LinkOf(b, b.allocations[key]).Some? ==>
      LinkOf(b, b.allocations[key]).value.key !in b.allocations
  }

  /** The shim confirms swaps by the key of a placeholder. */
  predicate ConfirmsPlaceholder(b: Books, key: string) {
    key in b.allocations ==> b.allocations[key].placeholder
  }

  lemma ConfirmInSteps(b: Books, key: string)
    requires key in b.allocations && LinkOf(b, b.allocations[key]).Some?
    ensures var a := LinkOf(b, b.allocations[key]).value;
            SwapConfirmed(b, key) == AllocationAdded(Unlinked(AllocationRemoved(b, key), a), a)
  {
    hide Plus, Minus, Pruned;
  }

  lemma ConfirmedLinks(b: Books, key: string)
    requires WellFormed(b) && LinksMatch(b) && ConfirmsPlaceholder(b, key)
    requires key in b.allocations && LinkOf(b, b.allocations[key]).Some?
    ensures var a := LinkOf(b, b.allocations[key]).value;
            var u := Unlinked(AllocationRemoved(b, key), a);
            LinksMatch(u) && a in u.facts && u.allocations == b.allocations - {key}
  {
    hide Plus, Minus, Pruned, SizeOf, NoNegativeSizes, NoZeroSizes, UniqueKeys;
  }

  lemma SwapEndKeepsSound(b: Books, key: string)
    requires Sound(b) && ConfirmsPlaceholder(b, key) && ConfirmsOnce(b, key) && AllSummable(SwapConfirmed(b, key))
    ensures Sound(SwapConfirmed(b, key))
  {
    hide WellFormed, LinksMatch, TotalsTrack, HistogramAgrees, AllocationRemoved, AllocationAdded, Unlinked, LinkOf,
         Summable, OfKind, Pending;
    RemoveKeepsForm(b, key);
    RemoveKeepsTotals(b, key);
    if key in b.allocations && LinkOf(b, b.allocations[key]).Some? {
      var a := LinkOf(b, b.allocations[key]).value;
      var u := Unlinked(AllocationRemoved(b, key), a);
      ConfirmInSteps(b, key);
      ConfirmedLinks(b, key);
      UnlinkKeepsRest(AllocationRemoved(b, key), a);
      AddedFacts(u, a);
      AddKeepsTotals(u, a);
      AddKeepsForm(u, a);
    }
  }

  lemma AddedFacts(b: Books, a: Allocation)
    requires AllSummable(AllocationAdded(b, a))
    ensures Summable(b.facts, OfKind(AllocationAdded(b, a).allocations, a.placeholder))
  {
    hide Summable, OfKind, Pending;
  }

  // ---------- a cancelled swap ----------

  /** A placeholder and a real ask of which at least one points at the other. */
  predicate Linked(b: Books, ph: Allocation, ask: Allocation) {
    !ask.placeholder && ph.placeholder && (LinkOf(b, ask) == Some(ph) || LinkOf(b, ph) == Some(ask))
  }

  lemma CancelledLinks(b: Books, ph: Allocation, ask: Allocation)
    requires LinksMatch(b) && Linked(b, ph, ask)
    ensures LinksMatch(Unlinked(Unlinked(b, ask), ph))
  {
    assert LinkOf(b, ask) == Some(ph) ==> LinkOf(b, ph) == Some(ask);
  }

  /** Whichever side sat on the removed node: both sides are free again and the ask is pending. */
  lemma SwapCancelKeepsSound(b: Books, ph: Allocation, ask: Allocation)
    requires Sound(b) && Linked(b, ph, ask) && AllSummable(SwapCancelled(b, ph, ask))
    ensures Sound(SwapCancelled(b, ph, ask))
  {
    var u := Unlinked(Unlinked(b, ask), ph);
    CancelledLinks(b, ph, ask);
    CancelledAsk(b, ph, ask);
    hide WellFormed, LinksMatch, TotalsTrack, HistogramAgrees, AskDeallocated, AllSummable, Unlinked, LinkOf,
         SwapCancelled, Pending, Summable, Linked;
    UnlinkKeepsRest(b, ask);
    UnlinkKeepsRest(Unlinked(b, ask), ph);
    if ask.key in u.requests && Placed(u, ask) {
      StillSummable(u, ask);
      DeallocateKeepsTotals(u, ask);
      DeallocateKeepsForm(u, ask);
    }
  }

  lemma CancelledAsk(b: Books, ph: Allocation, ask: Allocation)
    requires WellFormed(b) && LinksMatch(b) && Linked(b, ph, ask)
    ensures var u := Unlinked(Unlinked(b, ask), ph);
            && ask in u.facts && u.allocations == b.allocations && u.requests == b.requests
            && (ask.key in u.requests ==> u.requests[ask.key] == ask)
            && SwapCancelled(b, ph, ask) == if ask.key in u.requests && Placed(u, ask) then AskDeallocated(u, ask) else u
  {
    hide NoNegativeSizes, NoZeroSizes;
  }
}
