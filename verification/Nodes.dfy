/** A node (pkg/scheduler/objects/node.go): its resource fields and allocations, updated in place. */
module Nodes {
  import opened Resources
  import opened Allocations
  import opened NodeAccounting
  import Reservations

  class Node {
    const nodeID: string
    var totalResource: Amounts
    var occupiedResource: Amounts
    var allocatedResource: Amounts
    var availableResource: Amounts
    var allocations: map<string, Allocation>
    var reservations: map<string, Reservations.Held>

    ghost function Items(): map<string, Item>
      reads this`allocations, allocations.Values`resource
    {
      map k | k in allocations :: Item(allocations[k].foreign, allocations[k].resource)
    }

    /** The node as a value. */
    ghost function View(): NodeState
      reads this, allocations.Values`resource
    {
      NodeState(totalResource, occupiedResource, allocatedResource, availableResource, Items())
    }

    /** Nothing but the size of one allocation changed. */
    twostate lemma OneItemChanged(alloc: Allocation)
      requires allocations == old(allocations) && forall k | k in allocations && allocations[k] == alloc :: k == alloc.key
      requires forall k | k in allocations && allocations[k] != alloc :: allocations[k].resource == old(allocations[k].resource)
      ensures Items() == if alloc.key in allocations && allocations[alloc.key] == alloc
                         then old(Items())[alloc.key := Item(alloc.foreign, alloc.resource)] else old(Items())
      ensures alloc.key in allocations && allocations[alloc.key] == alloc ==>
                alloc.key in old(Items()) && old(Items())[alloc.key] == Item(alloc.foreign, old(alloc.resource))
    {
    }

    lemma ItemAt(key: string)
      ensures key in Items() <==> key in allocations
      ensures key in allocations ==> Items()[key] == Item(allocations[key].foreign, allocations[key].resource)
    {
    }

    twostate predicate SameSizes()
      reads this`allocations, allocations.Values`resource
    {
      forall k | k in allocations && k in old(allocations) && allocations[k] == old(allocations)[k] ::
        allocations[k].resource == old(allocations[k].resource)
    }

    twostate lemma ItemAdded(alloc: Allocation)
      requires allocations == old(allocations)[alloc.key := alloc] && SameSizes()
      ensures Items() == old(Items())[alloc.key := Item(alloc.foreign, alloc.resource)]
    {
    }

    twostate lemma ItemRemoved(key: string)
      requires allocations == old(allocations) - {key} && SameSizes()
      ensures Items() == old(Items()) - {key}
    {
    }

    constructor (nodeID: string, capacity: Amounts)
      ensures this.nodeID == nodeID && View() == NewNode(capacity) && allocations == map[] && reservations == map[]
    {
      this.nodeID := nodeID;
      totalResource := Pruned(capacity);
      occupiedResource, allocatedResource, allocations, reservations := map[], map[], map[], map[];
      availableResource := SubEliminateNegative(Pruned(capacity), map[]);
      new;
      assert SubEliminateNegative(totalResource, map[]) == totalResource;
    }

    method RefreshAvailableResource()
      modifies this`availableResource
      ensures View() == Refreshed(old(View()))
    {
      hide Plus, Minus, Pruned, Items;
      availableResource := totalResource;
      availableResource := Minus(availableResource, allocatedResource);
      availableResource := Minus(availableResource, occupiedResource);
      availableResource := Pruned(availableResource);
    }

    /** Returns the change of capacity, or nil if nothing changed. */
    method SetCapacity(newCapacity: Amounts) returns (delta: Option<Amounts>)
      modifies this`totalResource, this`availableResource
      ensures View() == CapacitySet(old(View()), newCapacity)
      ensures totalResource == if Equals(old(totalResource), newCapacity) then old(totalResource) else Pruned(newCapacity)
      ensures delta == if Equals(old(totalResource), newCapacity) then None else Some(Minus(newCapacity, old(totalResource)))
    {
      if Equals(totalResource, newCapacity) { return None; }
      delta := Some(Minus(newCapacity, totalResource));
      totalResource := Pruned(newCapacity);
      RefreshAvailableResource();
    }

    method UpdateAllocatedResource(delta: Amounts)
      modifies this`allocatedResource, this`availableResource
      ensures View() == UsageChanged(old(View()), delta)
    {
      hide Plus, Minus, Pruned, Items;
      allocatedResource := Plus(allocatedResource, delta);
      allocatedResource := Pruned(allocatedResource);
      RefreshAvailableResource();
    }

    /** The fit is checked unless the addition is forced. */
    method AddAllocationInternal(alloc: Allocation, force: bool) returns (added: bool)
      modifies this`allocations, this`occupiedResource, this`allocatedResource, this`availableResource
      ensures View() == Next(old(View()), Add(alloc.key, Item(alloc.foreign, alloc.resource), force))
      ensures added == (force || FitIn(old(availableResource), alloc.resource))
      ensures allocations == if added then old(allocations)[alloc.key := alloc] else old(allocations)
    {
      hide Plus, Minus, Pruned, FitIn, Equals, Items;
      var res := alloc.resource;
      if force || FitIn(availableResource, res) {
        allocations := allocations[alloc.key := alloc];
        ItemAdded(alloc);
        if alloc.foreign {
          occupiedResource := Plus(occupiedResource, res);
        } else {
          allocatedResource := Plus(allocatedResource, res);
        }
        availableResource := Minus(availableResource, res);
        availableResource := Pruned(availableResource);
        return true;
      }
      return false;
    }

    method RemoveAllocation(key: string) returns (alloc: Allocation?)
      modifies this`allocations, this`occupiedResource, this`allocatedResource, this`availableResource
      ensures View() == Next(old(View()), Remove(key))
      ensures allocations == old(allocations) - {key}
      ensures alloc == if key in old(allocations) then old(allocations)[key] else null
    {
      hide Plus, Minus, Pruned, FitIn, Equals, Items;
      ItemAt(key);
      if key !in allocations { return null; }
      alloc := allocations[key];
      allocations := allocations - {key};
      ItemRemoved(key);
      if alloc.foreign {
        occupiedResource := Minus(occupiedResource, alloc.resource);
      } else {
        allocatedResource := Minus(allocatedResource, alloc.resource);
        allocatedResource := Pruned(allocatedResource);
      }
      availableResource := Plus(availableResource, alloc.resource);
    }

    method SwapEntry(key: string, replace: Allocation)
      modifies this`allocations
      ensures allocations == (old(allocations) - {key})[replace.key := replace]
      ensures Items() == (old(Items()) - {key})[replace.key := Item(replace.foreign, replace.resource)]
    {
      hide Items;
      allocations := allocations - {key};
      ItemRemoved(key);
      label Gone:
      allocations := allocations[replace.key := replace];
      ItemAdded@Gone(replace);
    }

    /** Swaps a placeholder for the real allocation; the delta is the difference in size. */
    method ReplaceAllocation(key: string, replace: Allocation, delta: Amounts)
      requires key in allocations
      modifies this`allocations, this`occupiedResource, this`allocatedResource, this`availableResource
      ensures View() == Next(old(View()), Replace(key, replace.key, Item(replace.foreign, replace.resource), delta))
      ensures allocations == (old(allocations) - {key})[replace.key := replace]
    {
      hide Plus, Minus, Pruned, FitIn, Equals, Items;
      ItemAt(key);
      SwapEntry(key, replace);
      allocatedResource := Plus(allocatedResource, delta);
      availableResource := Minus(availableResource, delta);
      availableResource := Pruned(availableResource);
    }

    /** Stores the new version of a foreign allocation and accounts for the difference to the one it replaces. */
    method UpdateForeignAllocation(alloc: Allocation) returns (existing: Allocation?)
      modifies this`allocations, this`occupiedResource, this`allocatedResource, this`availableResource
      ensures View() == Next(old(View()), UpdateForeign(alloc.key, Item(alloc.foreign, alloc.resource)))
      ensures existing == if alloc.key in old(allocations) then old(allocations)[alloc.key] else null
    {
      hide Plus, Minus, Pruned, FitIn, Equals, Items;
      ItemAt(alloc.key);
      existing := if alloc.key in allocations then allocations[alloc.key] else null;
      allocations := allocations[alloc.key := alloc];
      ItemAdded(alloc);
      if existing == null { return null; }
      var delta := Minus(alloc.resource, existing.resource);
      delta := Pruned(delta);
      occupiedResource := Plus(occupiedResource, delta);
      occupiedResource := Pruned(occupiedResource);
      RefreshAvailableResource();
    }

    /** Refused when others hold the node or the ask does not fit on the empty node. */
    method Reserve(appID: string, ask: Allocation) returns (ok: bool)
      modifies this`reservations
      ensures ok == (Reservations.CanHold(old(reservations), ask.requiredNode != "") && FitIn(totalResource, ask.resource))
      ensures reservations == if ok then old(reservations)[ask.key := Reservations.Held(appID, ask.requiredNode != "")] else old(reservations)
    {
      hide FitIn;
      var required := ask.requiredNode != "";
      if !required && reservations != map[] { return false; }
      if required {
        var left := reservations.Keys;
        while left != {}
          invariant left <= reservations.Keys && reservations == old(reservations)
          invariant forall k | k in reservations && k !in left :: reservations[k].required
        {
          var k :| k in left;
          if !reservations[k].required { return false; }
          left := left - {k};
        }
      }
      if !FitIn(totalResource, ask.resource) { return false; }
      reservations := reservations[ask.key := Reservations.Held(appID, required)];
      return true;
    }

    method UnReserve(key: string) returns (num: nat)
      modifies this`reservations
      ensures reservations == old(reservations) - {key}
      ensures num == if key in old(reservations) then 1 else 0
    {
      if key !in reservations {
        assert reservations - {key} == reservations;
        return 0;
      }
      reservations := reservations - {key};
      return 1;
    }
  }

  /**
   The partition's resize of a placed allocation: the allocation itself first, then the usage of its
   node. The node does not hold an ask whose swap on it is not confirmed.
   */
  method ResizeOnNode(node: Node, alloc: Allocation, resource: Amounts)
    requires forall k | k in node.allocations && node.allocations[k] == alloc :: k == alloc.key
    modifies node`allocatedResource, node`availableResource, alloc`resource
    ensures alloc.resource == resource
    ensures node.View() == if alloc.key in node.allocations && node.allocations[alloc.key] == alloc
                           then Next(old(node.View()), Resize(alloc.key, resource))
                           else UsageChanged(old(node.View()), Delta(old(alloc.resource), resource))
  {
    hide Node.Items, Plus, Minus;
    var delta := Pruned(Minus(resource, alloc.resource));
    alloc.resource := resource;
    node.OneItemChanged(alloc);
    node.UpdateAllocatedResource(delta);
  }
}
