/**
 An application (pkg/scheduler/objects/application.go): requests, allocations and running totals,
 updated in place. Every method does to the books exactly what its function in ApplicationBooks says.
 */
module Applications {
  import opened Resources
  import opened Allocations
  import opened SortedAsks
  import opened PendingPriorities
  import opened TrackedTotals
  import opened ApplicationBooks
  import opened Nodes
  import Reservations

  ghost function FactOf(a: Allocation): Fact
    reads a`isAllocated, a`resource, a`released, a`release
  {
    Fact(a.isAllocated, a.resource, a.released, if a.release == null then None else Some(a.release))
  }

  class Application {
    const applicationID: string
    /** The node each ask reserves. */
    var reservations: map<string, Node>
    var requests: map<string, Allocation>
    var allocations: map<string, Allocation>
    var pending: Amounts
    var allocatedResource: Amounts
    var allocatedPlaceholder: Amounts
    const priorities: PriorityTracker
    const sortedRequests: SortedRequests
    /** Every allocation the application ever got. */
    ghost var known: set<Allocation>

    ghost predicate Valid()
      reads this, sortedRequests
    {
      && (forall k | k in requests :: requests[k] in known)
      && (forall k | k in allocations :: allocations[k] in known)
      && Sorted(sortedRequests.items)
    }

    ghost function Facts(): Facts
      reads this`known, known`isAllocated, known`resource, known`released, known`release
    {
      map a | a in known :: FactOf(a)
    }

    lemma Known(a: Allocation)
      requires a in known
      ensures a in Facts() && Facts()[a] == FactOf(a)
    {
    }

    /** Nothing but one allocation changed. */
    twostate lemma FactsChanged(a: Allocation)
      requires a in known && known == old(known)
      requires forall c | c in known && c != a :: FactOf(c) == old(FactOf(c))
      ensures Facts() == old(Facts())[a := FactOf(a)]
      ensures a in old(Facts()) && old(Facts())[a] == old(FactOf(a))
    {
      hide FactOf;
    }

    /** The application as a value. */
    ghost function View(): Books
      reads this, known, priorities, sortedRequests
    {
      Books(Facts(), requests, allocations, pending, allocatedResource, allocatedPlaceholder,
            priorities.View(), sortedRequests.items)
    }

    constructor (applicationID: string)
      ensures this.applicationID == applicationID && reservations == map[]
      ensures Valid() && View() == NEW && fresh(priorities) && fresh(sortedRequests)
    {
      this.applicationID, reservations := applicationID, map[];
      requests, allocations, pending, allocatedResource, allocatedPlaceholder := map[], map[], map[], map[], map[];
      priorities := new PriorityTracker();
      sortedRequests := new SortedRequests();
      known := {};
      new;
      assert Facts() == map[];
    }

    // ---------- asks ----------

    method AllocateAskInternal(ask: Allocation) returns (ok: bool)
      requires Valid() && ask in known
      modifies this`pending, priorities, ask`isAllocated
      ensures Valid() && View() == AskAllocated(old(View()), ask)
      ensures ok == !old(ask.isAllocated)
    {
      hide Plus, Minus, Pruned, Decremented, Sorted, Facts;
      ok := ask.Allocate();
      FactsChanged(ask);
      if !ok { return; }
      priorities.RemoveFromPriorities(ask.priority);
      pending := Pruned(Minus(pending, ask.resource));
    }

    method DeallocateAskInternal(ask: Allocation) returns (ok: bool)
      requires Valid() && ask in known
      modifies this`pending, priorities, ask`isAllocated
      ensures Valid() && View() == AskDeallocated(old(View()), ask)
      ensures ok == old(ask.isAllocated)
    {
      hide Plus, Minus, Pruned, Incremented, Sorted, Facts;
      ok := ask.Deallocate();
      FactsChanged(ask);
      if !ok { return; }
      if ask.key in requests && requests[ask.key] == ask {
        priorities.AddToPriorities(ask.priority);
      }
      pending := Plus(pending, ask.resource);
    }

    method AllocateAsk(key: string) returns (ok: bool)
      requires Valid()
      modifies this`pending, priorities, known`isAllocated
      ensures Valid() && View() == if key in requests then AskAllocated(old(View()), requests[key]) else old(View())
      ensures ok == (key in requests && !old(requests[key].isAllocated))
    {
      hide AskAllocated;
      if key !in requests { return false; }
      ok := AllocateAskInternal(requests[key]);
    }

    method DeallocateAsk(key: string) returns (ok: bool)
      requires Valid()
      modifies this`pending, priorities, known`isAllocated
      ensures Valid() && View() == if key in requests then AskDeallocated(old(View()), requests[key]) else old(View())
      ensures ok == (key in requests && old(requests[key].isAllocated))
    {
      hide AskDeallocated;
      if key !in requests { return false; }
      ok := DeallocateAskInternal(requests[key]);
    }

    /** A known allocation more. */
    twostate lemma FactsExtended(a: Allocation)
      requires known == old(known) + {a}
      requires forall c | c in known :: FactOf(c) == old(FactOf(c))
      ensures Facts() == old(Facts())[a := old(FactOf(a))]
    {
      hide FactOf;
    }

    method AddAllocationAskInternal(ask: Allocation)
      requires Valid()
      modifies this`requests, this`known, priorities
      ensures Valid() && View() == AskRecovered(old(View()), ask, old(FactOf(ask)))
      ensures requests == old(requests)[ask.key := ask] && known == old(known) + {ask}
    {
      hide Incremented, Sorted, Facts;
      requests := requests[ask.key := ask];
      known := known + {ask};
      if !ask.isAllocated {
        priorities.AddToPriorities(ask.priority);
      }
      FactsExtended(ask);
    }

    /** Refused for an ask that is placed or asks for nothing. */
    method AddAllocationAsk(ask: Allocation) returns (ok: bool)
      requires Valid()
      modifies this`requests, this`pending, this`known, priorities, sortedRequests
      ensures Valid() && View() == AskAdded(old(View()), ask, old(FactOf(ask)))
      ensures ok == !(ask.isAllocated || IsZero(ask.resource))
    {
      hide Plus, Minus, Pruned, Incremented, Decremented, Sorted, IsZero, Inserted, Facts, Prior, SizeOf;
      if ask.isAllocated || IsZero(ask.resource) { return false; }
      var delta := DropPrior(ask);
      AddAllocationAskInternal(ask);
      pending := Pruned(Plus(pending, delta));
      sortedRequests.InsertAsk(ask);
      return true;
    }

    /** Counts a pending ask with the same key out of the histogram; the delta is what the new one adds to it. */
    method DropPrior(ask: Allocation) returns (delta: Amounts)
      requires Valid()
      modifies priorities
      ensures Valid()
      ensures var b, prior := old(View()), Prior(old(View()), ask.key);
              && View() == b.(priorities := if prior.Some? then Decremented(b.priorities, prior.value.priority) else b.priorities)
              && delta == if prior.Some? then Minus(ask.resource, SizeOf(b.facts, prior.value)) else ask.resource
    {
      hide Minus, Decremented, Sorted, Facts;
      delta := ask.resource;
      if ask.key in requests {
        Known(requests[ask.key]);
        if !requests[ask.key].isAllocated {
          delta := Minus(delta, requests[ask.key].resource);
          priorities.RemoveFromPriorities(requests[ask.key].priority);
        }
      }
    }

    method RecoverAllocationAsk(alloc: Allocation)
      requires Valid()
      modifies this`requests, this`known, priorities
      ensures Valid() && View() == AskRecovered(old(View()), alloc, old(FactOf(alloc)))
      ensures known == old(known) + {alloc}
    {
      AddAllocationAskInternal(alloc);
    }

    /** Refused for a size of zero and for an ask that is not known. */
    method UpdateAllocationResources(key: string, resource: Amounts) returns (ok: bool)
      requires Valid()
      modifies this`pending, this`allocatedResource, known`resource
      ensures Valid() && View() == Resized(old(View()), key, resource)
      ensures ok == (!IsZero(resource) && key in requests)
    {
      hide Plus, Minus, Pruned, Sorted, IsZero, Facts;
      if IsZero(resource) || key !in requests { return false; }
      var existing := requests[key];
      Known(existing);
      var delta := Minus(resource, existing.resource);
      if IsZero(delta) { return true; }
      delta := Pruned(delta);
      if existing.isAllocated {
        allocatedResource := Pruned(Plus(allocatedResource, delta));
      } else {
        pending := Pruned(Plus(pending, delta));
      }
      existing.resource := resource;
      FactsChanged(existing);
      return true;
    }

    method RemoveAllocationAsk(key: string)
      requires Valid() && key != ""
      modifies this`requests, this`pending, priorities, sortedRequests
      ensures Valid() && View() == AskRemoved(old(View()), key)
    {
      hide Minus, Pruned, Decremented, Removed, Sorted, Facts;
      if key in requests {
        var ask := requests[key];
        Known(ask);
        if !ask.isAllocated {
          pending := Pruned(Minus(pending, ask.resource));
          priorities.RemoveFromPriorities(ask.priority);
        }
        requests := requests - {key};
        sortedRequests.RemoveAsk(key);
      }
    }

    method RemoveAllAllocationAsks()
      requires Valid()
      modifies this`requests, this`pending, priorities, sortedRequests
      ensures Valid() && View() == AsksRemoved(old(View()))
    {
      hide Facts;
      if requests != map[] {
        pending, requests := map[], map[];
        sortedRequests.items := [];
        priorities.Reset();
      }
    }

    // ---------- allocations ----------

    method AddAllocationInternal(alloc: Allocation)
      requires Valid() && alloc in known
      modifies this`allocations, this`allocatedResource, this`allocatedPlaceholder
      ensures Valid() && View() == AllocationAdded(old(View()), alloc)
    {
      hide Plus, Sorted, Facts;
      Known(alloc);
      if alloc.placeholder {
        allocatedPlaceholder := Plus(allocatedPlaceholder, alloc.resource);
      } else {
        allocatedResource := Plus(allocatedResource, alloc.resource);
      }
      allocations := allocations[alloc.key := alloc];
    }

    method RemoveAllocationInternal(key: string) returns (alloc: Allocation?)
      requires Valid()
      modifies this`allocations, this`allocatedResource, this`allocatedPlaceholder
      ensures Valid() && View() == AllocationRemoved(old(View()), key)
      ensures alloc == if key in old(allocations) then old(allocations)[key] else null
      ensures if alloc == null then View() == old(View()) else alloc in known
    {
      hide Minus, Pruned, Sorted, Facts;
      if key !in allocations { return null; }
      alloc := allocations[key];
      Known(alloc);
      if alloc.placeholder {
        allocatedPlaceholder := Pruned(Minus(allocatedPlaceholder, alloc.resource));
      } else {
        allocatedResource := Pruned(Minus(allocatedResource, alloc.resource));
      }
      allocations := allocations - {key};
    }

    method RemoveAllAllocations()
      requires Valid()
      modifies this`allocations, this`allocatedResource, this`allocatedPlaceholder
      ensures Valid() && View() == AllocationsRemoved(old(View()))
    {
      hide Facts;
      allocatedResource, allocatedPlaceholder, allocations := map[], map[], map[];
    }

    /** The release of an allocation by the shim: first the allocation, then its ask. */
    method ReleaseAllocation(key: string) returns (alloc: Allocation?)
      requires Valid() && key != ""
      modifies this`allocations, this`allocatedResource, this`allocatedPlaceholder, this`requests, this`pending, priorities, sortedRequests
      ensures Valid() && View() == AskRemoved(AllocationRemoved(old(View()), key), key)
      ensures alloc == if key in old(allocations) then old(allocations)[key] else null
    {
      hide AllocationRemoved, AskRemoved, Facts, Sorted;
      alloc := RemoveAllocationInternal(key);
      RemoveAllocationAsk(key);
    }

    /** Refused unless the application is accepted or running and has the placed allocation and its request. */
    method RollbackAllocation(key: string, active: bool) returns (ok: bool)
      requires Valid()
      modifies this`pending, this`allocatedResource, this`allocations, priorities, known`isAllocated, known`nodeID
      ensures Valid() && View() == if active then RolledBack(old(View()), key) else old(View())
      ensures ok == (active && key in requests && key in old(allocations) && old(allocations[key].isAllocated))
      ensures forall a | a in known :: a.nodeID == if ok && a == old(allocations)[key] then "" else old(a.nodeID)
    {
      hide Plus, Minus, Pruned, Sorted, Incremented, Facts;
      if !active || key !in requests || key !in allocations { return false; }
      var ask := allocations[key];
      Known(ask);
      ok := DeallocateAskInternal(ask);
      if !ok { return; }
      ask.nodeID := "";
      allocatedResource := Pruned(Minus(allocatedResource, ask.resource));
      allocations := allocations - {key};
    }

    // ---------- placeholder swaps ----------

    method SetRelease(alloc: Allocation, release: Allocation?)
      requires Valid() && alloc in known
      modifies alloc`release
      ensures Valid()
      ensures View() == old(View()).(facts := SetLink(old(Facts()), alloc, if release == null then None else Some(release)))
    {
      hide Facts, Sorted;
      alloc.release := release;
      FactsChanged(alloc);
    }

    /** Refused by an allocation that is marked for preemption. */
    method Release(alloc: Allocation) returns (ok: bool)
      requires Valid() && alloc in known
      modifies alloc`released
      ensures Valid() && ok == !alloc.preempted
      ensures View() == if ok then old(View()).(facts := SetReleased(old(Facts()), alloc)) else old(View())
    {
      hide Facts, Sorted;
      ok := alloc.SetReleased(true);
      FactsChanged(alloc);
    }

    /** Places the ask, links it with the placeholder and releases that; all of it is undone if the placeholder refuses. */
    method TrySwap(ph: Allocation, request: Allocation, nodeID: string) returns (ok: bool)
      requires Valid() && ph in known && request in known && ph != request
      modifies this`pending, priorities, request`isAllocated, request`release, request`nodeID, ph`release, ph`released
      ensures Valid() && View() == Swapped(old(View()), ph, request, ph.preempted)
      ensures ok == !ph.preempted && request.nodeID == if ok then nodeID else old(request.nodeID)
    {
      hide Sorted, Facts, AskAllocated, AskDeallocated, SetLink, ApplicationBooks.SetReleased;
      var placed := AllocateAskInternal(request);
      SetRelease(request, ph);
      SetRelease(ph, request);
      ok := Release(ph);
      if !ok {
        placed := DeallocateAskInternal(request);
        SetRelease(request, null);
        SetRelease(ph, null);
        return false;
      }
      request.nodeID := nodeID;
    }

    /** The placeholder leaves and the allocation it is linked to takes its place. */
    method ReplaceAllocation(key: string) returns (ph: Allocation?)
      requires Valid() && forall k | k in allocations && allocations[k].release != null :: allocations[k].release in known
      modifies this`allocations, this`allocatedResource, this`allocatedPlaceholder, known`release
      ensures Valid() && View() == SwapConfirmed(old(View()), key)
      ensures ph == if key in old(allocations) then old(allocations)[key] else null
    {
      hide Sorted, Facts, AllocationAdded, AllocationRemoved;
      ph := RemoveAllocationInternal(key);
      if ph == null { return; }
      Known(ph);
      var alloc := ph.release;
      if alloc == null { return; }
      AddAllocationInternal(alloc);
      SetRelease(alloc, null);
    }

    /** A swap reversed by the removal of a node. */
    method CancelSwap(ph: Allocation, request: Allocation) returns (ok: bool)
      requires Valid() && ph in known && request in known && ph != request
      modifies this`pending, priorities, known`isAllocated, request`release, ph`release
      ensures Valid() && View() == SwapCancelled(old(View()), ph, request)
    {
      hide Sorted, Facts, AskDeallocated, SetLink;
      SetRelease(request, null);
      SetRelease(ph, null);
      ok := DeallocateAsk(request.key);
    }

    // ---------- reservations ----------

    /** The ID of the node each ask reserves. */
    ghost function Reserves(): map<string, string>
      reads this`reservations
    {
      map k | k in reservations :: reservations[k].nodeID
    }

    /** Records the reservation on the node first. Refused for an ask that is unknown, placed or already reserved. */
    method ReserveInternal(node: Node, ask: Allocation) returns (ok: bool)
      modifies this`reservations, node`reservations
      ensures ok == (&& ask.key in requests && !ask.isAllocated && ask.key !in old(reservations)
                     && Reservations.CanHold(old(node.reservations), ask.requiredNode != "") && FitIn(node.totalResource, ask.resource))
      ensures reservations == if ok then old(reservations)[ask.key := node] else old(reservations)
      ensures Reserves() == if ok then old(Reserves())[ask.key := node.nodeID] else old(Reserves())
      ensures node.reservations == if ok then old(node.reservations)[ask.key := Reservations.Held(applicationID, ask.requiredNode != "")]
                                   else old(node.reservations)
    {
      hide FitIn, Reservations.CanHold;
      if ask.key !in requests || ask.isAllocated || ask.key in reservations { return false; }
      ok := node.Reserve(applicationID, ask);
      if ok {
        reservations := reservations[ask.key := node];
      }
    }

    /** Takes the record off the node first; only a record of the application counts. */
    method UnReserveInternal(node: Node, key: string) returns (num: nat)
      modifies this`reservations, node`reservations
      ensures reservations == old(reservations) - {key} && Reserves() == old(Reserves()) - {key}
      ensures node.reservations == old(node.reservations) - {key}
      ensures num == if key in old(reservations) then 1 else 0
    {
      var onNode := node.UnReserve(key);
      if key !in reservations {
        assert reservations - {key} == reservations;
        return 0;
      }
      reservations := reservations - {key};
      return 1;
    }
  }
}
