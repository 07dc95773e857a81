/**
 The total resource of a partition (pkg/scheduler/partition.go): it is never recomputed, each change of
 the node list or of a node's capacity only adds a delta to it. Module Partitions has the partition itself.
 */
module PartitionTotals {
  import opened Quantities
  import opened Resources
  import opened MapSums

  /** The total, unset until the first node, and the capacity of every listed node. */
  datatype Totals = Totals(total: Option<Amounts>, capacities: map<string, Amounts>)

  datatype Change = NodeAdded(id: string, capacity: Amounts) | NodeRemoved(id: string) | NodeResized(id: string, capacity: Amounts)

  function WithDelta(total: Option<Amounts>, delta: Amounts): Option<Amounts> {
    Some(Pruned(if total.None? then delta else Plus(total.value, delta)))
  }

  function Next(s: Totals, change: Change): Totals {
    match change
    case NodeAdded(id, capacity) =>
      if id in s.capacities then s
      else Totals(WithDelta(s.total, capacity), s.capacities[id := capacity])
    case NodeRemoved(id) =>
      if id !in s.capacities then s
      else Totals(WithDelta(s.total, Multiply(s.capacities[id], -1)), s.capacities - {id})
    case NodeResized(id, capacity) =>
      if id !in s.capacities || Equals(s.capacities[id], capacity) then s
      else Totals(WithDelta(s.total, Minus(capacity, s.capacities[id])), s.capacities[id := Pruned(capacity)])
  }

  /** The node list after a change: a listed node keeps its capacity until it is resized, and then has the new one. */
  lemma CapacitiesAfter(s: Totals, change: Change)
    ensures var after := Next(s, change).capacities;
            && after.Keys == (match change
                              case NodeAdded(id, _) => s.capacities.Keys + {id}
                              case NodeRemoved(id) => s.capacities.Keys - {id}
                              case NodeResized(_, _) => s.capacities.Keys)
            && (forall id | id in after && id != change.id :: after[id] == s.capacities[id])
            && (change.NodeAdded? ==> SameView(after[change.id], if change.id in s.capacities then s.capacities[change.id] else change.capacity))
            && (change.NodeResized? && change.id in after ==> SameView(after[change.id], change.capacity))
  {
    hide Plus, Minus, Multiply, Equals;
    if change.NodeResized? && change.id in s.capacities {
      EqualsIsSameView(s.capacities[change.id], change.capacity);
    }
  }

  function OfType(capacities: map<string, Amounts>, k: string): map<string, int> {
    map id | id in capacities :: Get(capacities[id], k) as int
  }

  /** The total is the sum over the nodes. */
  ghost predicate Exact(s: Totals) {
    forall k: string :: Get(OrZero(s.total), k) == Sum(OfType(s.capacities, k))
  }

  /** What a caller can see of the nodes alone: nothing is negative and the sums are 64 bit numbers. */
  ghost predicate Summable(capacities: map<string, Amounts>) {
    && (forall id | id in capacities :: NonNegative(capacities[id]))
    && forall k: string :: Sum(OfType(capacities, k)) <= MAX_INT64
  }

  // ---------- one change ----------

  lemma OfTypeRemoved(capacities: map<string, Amounts>, id: string, k: string)
    requires id in capacities
    ensures Sum(OfType(capacities - {id}, k)) == Sum(OfType(capacities, k)) - Get(capacities[id], k)
  {
    SumRemove(OfType(capacities, k), id);
    assert OfType(capacities, k) - {id} == OfType(capacities - {id}, k);
  }

  lemma OfTypeSet(capacities: map<string, Amounts>, id: string, capacity: Amounts, k: string)
    ensures Sum(OfType(capacities[id := capacity], k))
            == Sum(OfType(capacities - {id}, k)) + Get(capacity, k)
  {
    OfTypeRemoved(capacities[id := capacity], id, k);
    assert capacities[id := capacity] - {id} == capacities - {id};
  }

  lemma SumsAreQuantities(capacities: map<string, Amounts>, k: string)
    requires Summable(capacities)
    ensures 0 <= Sum(OfType(capacities, k)) <= MAX_INT64
  {
    SumNonNegative(OfType(capacities, k));
  }

  lemma DeltaIsExact(total: Option<Amounts>, delta: Amounts, k: string)
    requires 0 <= Get(OrZero(total), k) + Get(delta, k) <= MAX_INT64
    ensures Get(OrZero(WithDelta(total, delta)), k) == Get(OrZero(total), k) + Get(delta, k)
  {
    WithDeltaAt(total, delta, k);
  }

  lemma NegatedCapacity(capacity: Amounts, k: string)
    requires NonNegative(capacity)
    ensures Get(Multiply(capacity, -1), k) == 0 - Get(capacity, k)
  {
    if k in capacity {
      assert capacity[k] * -1 == 0 - capacity[k];
    }
  }

  lemma CapacityDifference(from: Amounts, to: Amounts, k: string)
    requires NonNegative(from) && NonNegative(to)
    ensures Get(Minus(to, from), k) == Get(to, k) - Get(from, k)
  {
  }

  /** The amount a change adds to one type, wherever the change does something. */
  lemma ChangeIsExact(s: Totals, change: Change, k: string)
    requires Exact(s) && Summable(s.capacities) && Summable(Next(s, change).capacities)
    ensures Get(OrZero(Next(s, change).total), k) == Sum(OfType(Next(s, change).capacities, k))
  {
    var t := Next(s, change);
    SumsAreQuantities(s.capacities, k);
    SumsAreQuantities(t.capacities, k);
    if t != s {
      match change
      case NodeAdded(id, capacity) =>
        assert s.capacities - {id} == s.capacities;
        OfTypeSet(s.capacities, id, capacity, k);
        DeltaIsExact(s.total, capacity, k);
      case NodeRemoved(id) =>
        OfTypeRemoved(s.capacities, id, k);
        NegatedCapacity(s.capacities[id], k);
        DeltaIsExact(s.total, Multiply(s.capacities[id], -1), k);
      case NodeResized(id, capacity) =>
        OfTypeRemoved(s.capacities, id, k);
        OfTypeSet(s.capacities, id, Pruned(capacity), k);
        assert t.capacities[id] == Pruned(capacity);
        NonNegativeUnpruned(capacity);
        CapacityDifference(s.capacities[id], capacity, k);
        DeltaIsExact(s.total, Minus(capacity, s.capacities[id]), k);
    }
  }

  lemma NonNegativeUnpruned(capacity: Amounts)
    requires NonNegative(Pruned(capacity))
    ensures NonNegative(capacity)
  {
    forall k | k in capacity
      ensures capacity[k] >= 0
    {
      if capacity[k] != 0 {
        assert k in Pruned(capacity);
      }
    }
  }

  // ---------- whole runs ----------

  function Run(s: Totals, changes: seq<Change>): Totals
    decreases |changes|
  {
    if changes == [] then s else Run(Next(s, changes[0]), changes[1..])
  }

  ghost predicate SummableRun(s: Totals, changes: seq<Change>)
    decreases |changes|
  {
    Summable(s.capacities) && (changes != [] ==> SummableRun(Next(s, changes[0]), changes[1..]))
  }

  /** After any run the total is the sum over the nodes, as long as that sum was a 64 bit number all along. */
  lemma {:induction false} RunIsExact(s: Totals, changes: seq<Change>)
    requires Exact(s) && SummableRun(s, changes)
    ensures Exact(Run(s, changes))
    decreases |changes|
  {
    if changes != [] {
      forall k: string
        ensures Get(OrZero(Next(s, changes[0]).total), k) == Sum(OfType(Next(s, changes[0]).capacities, k))
      {
        ChangeIsExact(s, changes[0], k);
      }
      RunIsExact(Next(s, changes[0]), changes[1..]);
    }
  }

  lemma NoNodesIsExact()
    ensures Exact(Totals(None, map[]))
  {
    forall k: string
      ensures Sum(OfType(map[], k)) == 0
    {
      SumEmpty<string>();
      assert OfType(map[], k) == map[];
    }
  }

  /**
   Adding a node and removing it again restores the total if and only if the sum did not saturate: a node
   that overflowed the total takes its whole capacity away again.
   */
  lemma AddThenRemoveIff(s: Totals, id: string, capacity: Amounts, k: string)
    requires id !in s.capacities && NonNegative(capacity) && 0 <= Get(OrZero(s.total), k)
    ensures var t := Next(Next(s, NodeAdded(id, capacity)), NodeRemoved(id));
            && t.capacities == s.capacities
            && (Get(OrZero(t.total), k) == Get(OrZero(s.total), k) <==> Get(OrZero(s.total), k) + Get(capacity, k) <= MAX_INT64)
  {
    var t := Next(s, NodeAdded(id, capacity));
    assert t.capacities - {id} == s.capacities;
    NegatedCapacity(capacity, k);
    WithDeltaAt(s.total, capacity, k);
    WithDeltaAt(t.total, Multiply(capacity, -1), k);
  }

  lemma WithDeltaAt(total: Option<Amounts>, delta: Amounts, k: string)
    ensures Get(OrZero(WithDelta(total, delta)), k) == SatAdd(Get(OrZero(total), k), Get(delta, k))
  {
  }
}
