/**
 The swap of a placeholder for a real allocation on another node (pkg/scheduler/objects/application.go):
 application, node and links change together, or not at all.
 */
module NodeSwaps {
  import opened Resources
  import opened Allocations
  import opened ApplicationBooks
  import opened PlaceholderSwaps
  import opened Applications
  import opened Nodes
  import NodeAccounting

  /**
   Nothing of the application changed but an entry of zero in a total. An ask that was tried has lost
   the link it may have kept from a swap it left before.
   */
  ghost predicate AppRestored(b: Books, r: Books, ask: Allocation, tried: bool) {
    && r == b.(pending := r.pending, facts := if tried then SetLink(b.facts, ask, None) else b.facts)
    && SameView(r.pending, b.pending)
  }

  /** The resources are as they were. An allocation listed under the key of an ask that was tried is not listed any more. */
  ghost predicate NodeRestored(n: NodeAccounting.NodeState, r: NodeAccounting.NodeState, key: string, tried: bool) {
    && r.total == n.total && r.occupied == n.occupied && r.items == (if tried then n.items - {key} else n.items)
    && SameView(r.inUse, n.inUse) && SameView(r.available, n.available)
  }

  lemma AppIsRestored(b: Books, ph: Allocation, ask: Allocation)
    requires Sound(b) && CanSwap(b, ph, ask)
    ensures ph != ask && AppRestored(b, Swapped(b, ph, ask, true), ask, true) && AppRestored(b, b, ask, false)
  {
    hide Sound, Swapped, CanSwap, SetLink, SameView, LinkOf;
    TwoSides(b, ph, ask);
    RefusedSwapRestores(b, ph, ask);
    NothingChanged(b, ask);
  }

  lemma NothingChanged(b: Books, ask: Allocation)
    ensures AppRestored(b, b, ask, false)
  {
  }

  lemma TwoSides(b: Books, ph: Allocation, ask: Allocation)
    requires CanSwap(b, ph, ask)
    ensures ph != ask
  {
  }

  /** The node while the ask holds its spot, and after it lost it again. */
  lemma NodeIsRestored(n: NodeAccounting.NodeState, key: string, resource: Amounts)
    requires NonNegative(resource) && SumFits(n.inUse, resource)
    ensures var m := NodeAccounting.Next(n, NodeAccounting.Add(key, NodeAccounting.Item(false, resource), false));
            if FitIn(n.available, resource)
            then
              && m == NodeAccounting.Added(n, key, NodeAccounting.Item(false, resource))
              && NodeRestored(n, NodeAccounting.Next(m, NodeAccounting.Remove(key)), key, true)
            else NodeRestored(n, m, key, false)
  {
    hide NodeAccounting.Added, NodeAccounting.Removed, FitIn, SumFits, NonNegative;
    RefusedSwapRestoresNode(n, key, resource);
  }

  /** The ask takes its spot on the node first; a placeholder that refuses its release gets everything undone. */
  method SwapOnNode(app: Application, ph: Allocation, request: Allocation, node: Node) returns (ok: bool)
    requires app.Valid() && ph in app.known && request in app.known
    requires Sound(app.View()) && CanSwap(app.View(), ph, request)
    requires !request.foreign
    requires NonNegative(request.resource) && SumFits(node.allocatedResource, request.resource)
    modifies app`pending, app.priorities, request`isAllocated, request`release, request`nodeID, ph`release, ph`released,
             node`allocations, node`occupiedResource, node`allocatedResource, node`availableResource
    ensures app.Valid()
    ensures ok == (FitIn(old(node.availableResource), request.resource) && !ph.preempted)
    ensures ok ==> app.View() == Swapped(old(app.View()), ph, request, false) && request.nodeID == node.nodeID
    ensures ok ==> node.View() == NodeAccounting.Added(old(node.View()), request.key, NodeAccounting.Item(false, request.resource))
    ensures var tried := FitIn(old(node.availableResource), request.resource);
            !ok ==> AppRestored(old(app.View()), app.View(), request, tried)
                    && NodeRestored(old(node.View()), node.View(), request.key, tried)
    ensures !ok ==> request.nodeID == old(request.nodeID)
  {
    hide Sound, CanSwap, Swapped, FitIn, NodeAccounting.Added, NodeAccounting.Next, SumFits, NonNegative,
         AppRestored, NodeRestored, Application.Facts, Application.Valid;
    AppIsRestored(app.View(), ph, request);
    NodeIsRestored(node.View(), request.key, request.resource);
    hide Node.Items;
    var added := node.AddAllocationInternal(request, false);
    if !added { return false; }
    ok := app.TrySwap(ph, request, node.nodeID);
    if !ok {
      var removed := node.RemoveAllocation(request.key);
    }
  }
}
