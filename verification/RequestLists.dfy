/**
 The sorted list that the scheduling cycle walks (pkg/scheduler/objects/application.go) against the
 requests of the application: what is listed is a request, and which requests are not listed.
 */
module RequestLists {
  import opened Resources
  import opened Allocations
  import opened PendingPriorities
  import opened TrackedTotals
  import opened ApplicationBooks
  import opened ApplicationSteps
  import opened ApplicationRuns
  import SortedAsks

  predicate DistinctKeys(s: seq<Allocation>) {
    forall i, j | 0 <= i < j < |s| :: s[i].key != s[j].key
  }

  /** The list is sorted, has no duplicates, and lists requests only. */
  ghost predicate ListSound(b: Books) {
    && SortedAsks.Sorted(b.sorted)
    && DistinctKeys(b.sorted)
    && forall a | a in b.sorted :: a.key in b.requests && b.requests[a.key] == a
  }

  predicate AllListed(b: Books) {
    forall k | k in b.requests :: b.requests[k] in b.sorted
  }

  /** Every ask that waits for a node is seen by the scheduling cycle. */
  predicate PendingListed(b: Books) {
    forall k | k in Pending(b) :: Pending(b)[k] in b.sorted
  }

  // ---------- membership ----------

  lemma InsertedMembers(s: seq<Allocation>, a: Allocation)
    requires SortedAsks.Sorted(s)
    ensures forall c :: c in SortedAsks.Inserted(s, a) <==> c in s || c == a
  {
    var r := SortedAsks.Inserted(s, a);
    SortedAsks.InsertKeepsSorted(s, a);
    forall c
      ensures c in r <==> c in s || c == a
    {
      assert c in r <==> multiset(r)[c] > 0;
      assert c in s <==> multiset(s)[c] > 0;
    }
  }

  lemma InsertedStaysSorted(s: seq<Allocation>, a: Allocation)
    requires SortedAsks.Sorted(s)
    ensures SortedAsks.Sorted(SortedAsks.Inserted(s, a))
  {
    SortedAsks.InsertKeepsSorted(s, a);
  }

  lemma InsertedDistinct(s: seq<Allocation>, a: Allocation)
    requires SortedAsks.Sorted(s) && DistinctKeys(s) && forall c | c in s :: c.key != a.key
    ensures DistinctKeys(SortedAsks.Inserted(s, a))
  {
    SortedAsks.InsertKeepsSorted(s, a);
    var i := SortedAsks.InsertIndex(s, a);
    hide SortedAsks.InsertIndex, SortedAsks.Sorted;
    var r := s[..i] + [a] + s[i..];
    forall j, k | 0 <= j < k < |r|
      ensures r[j].key != r[k].key
    {
      assert j != i ==> r[j] == s[if j < i then j else j - 1];
      assert k != i ==> r[k] == s[if k < i then k else k - 1];
    }
  }

  lemma RemovedIs(s: seq<Allocation>, key: string)
    requires DistinctKeys(s)
    ensures DistinctKeys(SortedAsks.Removed(s, key))
    ensures forall c :: c in SortedAsks.Removed(s, key) <==> c in s && c.key != key
  {
    var i, r := SortedAsks.IndexOf(s, key), SortedAsks.Removed(s, key);
    if i < |s| {
      assert forall j | 0 <= j < |r| :: r[j] == s[if j < i then j else j + 1];
      forall c | c in s && c.key != key
        ensures c in r
      {
        var j :| 0 <= j < |s| && s[j] == c;
        assert r[if j < i then j else j - 1] == c;
      }
    }
  }

  // ---------- steps ----------

  /** A step that leaves the list and the requests alone. */
  predicate ListUntouched(op: Op) {
    !op.AddAsk? && !op.Recover? && !op.RemoveAsk? && !op.RemoveAsks? && !op.Release? && !op.ReleaseAll?
  }

  predicate SameList(b: Books, c: Books) {
    c.sorted == b.sorted && c.requests == b.requests
  }

  lemma BasicStepsKeepList(b: Books, a: Allocation)
    ensures SameList(b, AskAllocated(b, a)) && SameList(b, AskDeallocated(b, a)) && SameList(b, AllocationAdded(b, a))
  {
    hide Plus, Minus, Pruned, Incremented, Decremented, SizeOf, SetPlaced;
  }

  lemma RemovalKeepsList(b: Books, key: string)
    ensures SameList(b, AllocationRemoved(b, key))
  {
    hide Plus, Minus, Pruned, SizeOf;
  }

  lemma ConfirmKeepsList(b: Books, key: string)
    ensures SameList(b, SwapConfirmed(b, key))
  {
    hide AllocationAdded, AllocationRemoved, SetLink, LinkOf;
    RemovalKeepsList(b, key);
    if key in b.allocations && LinkOf(b, b.allocations[key]).Some? {
      BasicStepsKeepList(AllocationRemoved(b, key), LinkOf(b, b.allocations[key]).value);
    }
  }

  lemma SwapsKeepList(b: Books, ph: Allocation, a: Allocation, refused: bool)
    ensures SameList(b, Swapped(b, ph, a, refused)) && SameList(b, SwapCancelled(b, ph, a))
  {
    hide AskAllocated, AskDeallocated, SetLink, SetReleased;
    BasicStepsKeepList(b, a);
    BasicStepsKeepList(SwapLinked(b, ph, a), a);
    if a.key in b.requests {
      BasicStepsKeepList(b.(facts := SetLink(SetLink(b.facts, a, None), ph, None)), b.requests[a.key]);
    }
  }

  lemma UntouchedByStep(b: Books, op: Op)
    requires ListUntouched(op)
    ensures SameList(b, Next(b, op))
  {
    hide AskAllocated, AskDeallocated, AllocationAdded, AllocationRemoved, Swapped, SwapConfirmed, SwapCancelled,
         Plus, Minus, Pruned, IsZero, SizeOf, Placed, LinkOf, Incremented;
    match op
    case Place(key) =>
      if key in b.requests {
        BasicStepsKeepList(b, b.requests[key]);
        BasicStepsKeepList(AskAllocated(b, b.requests[key]), b.requests[key]);
      }
    case Unwind(key) => if key in b.requests { BasicStepsKeepList(b, b.requests[key]); }
    case Rollback(key) => if key in b.allocations { BasicStepsKeepList(b, b.allocations[key]); }
    case Swap(ph, a, refused) => SwapsKeepList(b, ph, a, refused);
    case CancelSwap(ph, a) => SwapsKeepList(b, ph, a, false);
    case ConfirmSwap(key) => ConfirmKeepsList(b, key);
    case RemoveAllocation(key) => RemovalKeepsList(b, key);
    case _ =>
  }

  lemma AddedToList(b: Books, a: Allocation, fact: Fact)
    requires ListSound(b) && a.key !in b.requests
    ensures ListSound(AskAdded(b, a, fact))
    ensures AllListed(b) ==> AllListed(AskAdded(b, a, fact))
  {
    hide SortedAsks.Sorted, SortedAsks.InsertIndex, DistinctKeys, Prior, Plus, Minus, Pruned, SizeOf, Incremented,
         Decremented, IsZero;
    if !fact.placed && !IsZero(fact.resource) {
      InsertedStaysSorted(b.sorted, a);
      InsertedMembers(b.sorted, a);
      InsertedDistinct(b.sorted, a);
    }
  }

  lemma RemovedFromList(b: Books, key: string)
    requires ListSound(b)
    ensures ListSound(AskRemoved(b, key))
    ensures AllListed(b) && RequestsListed(b) ==> AllListed(AskRemoved(b, key))
  {
    if key in b.requests {
      SortedAsks.RemoveKeepsSorted(b.sorted, key);
      RemovedIs(b.sorted, key);
      hide SortedAsks.Sorted, SortedAsks.Removed, DistinctKeys;
    }
  }

  lemma ReleasedFromList(b: Books, key: string)
    requires ListSound(b)
    ensures ListSound(Next(b, Release(key)))
    ensures AllListed(b) && RequestsListed(b) ==> AllListed(Next(b, Release(key)))
  {
    RemovalKeepsList(b, key);
    hide AllocationRemoved, SortedAsks.Sorted, DistinctKeys, AskRemoved;
    RemovedFromList(AllocationRemoved(b, key), key);
    RemovalKeepsFacts(b, key);
  }

  lemma RemovalKeepsFacts(b: Books, key: string)
    ensures AllocationRemoved(b, key).facts == b.facts
  {
  }

  /** Every step of a run with fresh keys keeps the list sound. */
  lemma StepKeepsList(b: Books, op: Op)
    requires Sound(b) && ListSound(b) && Legal(b, op)
    ensures ListSound(Next(b, op))
    ensures AllListed(b) && !op.Recover? ==> AllListed(Next(b, op))
  {
    FormOf(b);
    hide Sound, ListSound, AllListed, WellFormed, RequestsListed, AskAdded, AskRecovered, AskRemoved, AsksRemoved,
         AllocationAdded, AllocationRemoved, AllocationsRemoved;
    match op
    case AddAsk(a, fact) => FreshKey(b, a); AddedToList(b, a, fact);
    case Recover(a, fact) => FreshKey(b, a); RecoveredUnlisted(b, a, fact);
    case RemoveAsk(key) => RemovedFromList(b, key);
    case RemoveAsks => WipedList(b);
    case Release(key) => ReleasedFromList(b, key);
    case ReleaseAll => WipedList(b);
    case _ => UntouchedByStep(b, op); SameListSound(b, Next(b, op));
  }

  lemma SameListSound(b: Books, c: Books)
    requires ListSound(b) && SameList(b, c)
    ensures ListSound(c) && (AllListed(b) ==> AllListed(c))
  {
    hide SortedAsks.Sorted, DistinctKeys;
  }

  lemma RecoveredUnlisted(b: Books, a: Allocation, fact: Fact)
    requires ListSound(b) && a.key !in b.requests
    ensures ListSound(Next(b, Recover(a, fact)))
  {
    hide SortedAsks.Sorted, DistinctKeys, Plus, SizeOf, Incremented;
  }

  lemma WipedList(b: Books)
    requires ListSound(b)
    ensures ListSound(AsksRemoved(b)) && (AllListed(b) ==> AllListed(AsksRemoved(b)))
    ensures ListSound(AsksRemoved(AllocationsRemoved(b))) && (AllListed(b) ==> AllListed(AsksRemoved(AllocationsRemoved(b))))
  {
    EmptyListIsSorted();
    hide SortedAsks.Sorted, DistinctKeys;
  }

  lemma FreshKey(b: Books, a: Allocation)
    requires Sound(b) && Fresh(b, a)
    ensures a.key !in b.requests
  {
    hide TotalsTrack, HistogramAgrees, LinksMatch;
    FreshIsUnlisted(b, a);
  }

  lemma EmptyListIsSorted()
    ensures SortedAsks.Sorted([]) && DistinctKeys([])
  {
  }

  lemma {:induction false} RunKeepsList(b: Books, ops: seq<Op>)
    requires Sound(b) && ListSound(b) && LegalRun(b, ops)
    ensures ListSound(Run(b, ops))
    ensures AllListed(b) && (forall op | op in ops :: !op.Recover?) ==> AllListed(Run(b, ops))
    decreases |ops|
  {
    hide Sound, ListSound, Legal, AllSummable, Next, AllListed;
    if ops != [] {
      StepKeepsSound(b, ops[0]);
      StepKeepsList(b, ops[0]);
      RunKeepsList(Next(b, ops[0]), ops[1..]);
    }
  }

  // ---------- asks the scheduling cycle never sees ----------

  /** A rolled back ask waits for a node; it is seen again if and only if it was listed before. */
  lemma RollbackListedIff(b: Books, key: string)
    requires Sound(b) && PendingListed(b)
    requires key in b.requests && key in b.allocations && !b.allocations[key].placeholder
    ensures PendingListed(RolledBack(b, key)) <==> b.requests[key] in b.sorted
  {
    KeysMatch(b, key);
    if Placed(b, b.allocations[key]) {
      RollbackPending(b, key);
      hide Sound, RolledBack, Pending;
      assert PendingListed(RolledBack(b, key)) ==> Pending(RolledBack(b, key))[key] in b.sorted;
    } else {
      assert RolledBack(b, key) == b && key in Pending(b) && Pending(b)[key] == b.requests[key];
    }
  }

  lemma KeysMatch(b: Books, key: string)
    requires Sound(b) && key in b.requests && key in b.allocations
    ensures b.requests[key] == b.allocations[key]
  {
    hide TotalsTrack, HistogramAgrees, LinksMatch, NoNegativeSizes, NoZeroSizes;
  }

  lemma RollbackPending(b: Books, key: string)
    requires Sound(b) && key in b.requests && key in b.allocations && !b.allocations[key].placeholder
    requires Placed(b, b.allocations[key])
    ensures Pending(RolledBack(b, key)) == Pending(b)[key := b.requests[key]]
    ensures RolledBack(b, key).sorted == b.sorted
  {
    RollbackInTwoSteps(b, key);
    FormOf(b);
    var m := AllocationRemoved(b, key);
    SamePending(b, m);
    hide TotalsTrack, HistogramAgrees, LinksMatch, Pending;
    PendingDeallocated(m, b.requests[key]);
  }

  /** A recovered allocation is never listed, so its ask is lost to the scheduling cycle when it is rolled back. */
  lemma RecoveredAskIsLost(b: Books, a: Allocation, fact: Fact)
    requires Sound(b) && ListSound(b) && PendingListed(b) && !a.placeholder
    requires Legal(b, Recover(a, fact)) && AllSummable(Next(b, Recover(a, fact)))
    ensures var r := RolledBack(Next(b, Recover(a, fact)), a.key);
            a.key in Pending(r) && !PendingListed(r)
  {
    var m := Next(b, Recover(a, fact));
    FreshKey(b, a);
    assert a !in b.sorted && m.sorted == b.sorted && m.requests[a.key] == a && m.allocations[a.key] == a;
    RecoveredPending(b, a, fact);
    hide Sound, AskRecovered, AllocationAdded, RolledBack, Pending, Fresh;
    StepKeepsSound(b, Recover(a, fact));
    RollbackPending(m, a.key);
    RollbackListedIff(m, a.key);
  }

  lemma RecoveredPending(b: Books, a: Allocation, fact: Fact)
    requires Sound(b) && PendingListed(b) && Legal(b, Recover(a, fact))
    ensures PendingListed(Next(b, Recover(a, fact)))
  {
    FormOf(b);
    PendingRecovered(b, a, fact);
    SamePending(AskRecovered(b, a, fact), Next(b, Recover(a, fact)));
  }
}
