/**
 Quota preemption (pkg/scheduler/objects/quota_preemptor.go): the amount that a queue is over its
 maximum is split over the leaf queues below it in proportion to their usage, and each leaf collects
 victims up to its part. Shares are exact rationals here; the source uses floating point.
 */
module QuotaPreemptor {
  import opened Quantities
  import opened Resources
  import opened MapSums

  datatype Queue = Queue(leaf: bool, used: Amounts, guaranteed: Option<Amounts>, children: seq<Queue>)

  // ---------- the budget of the queue that is over its maximum ----------

  /** The negative entries, as positive amounts. */
  function Shortfalls(a: Amounts): Amounts {
    map k | k in a && a[k] < 0 :: Neg(a[k])
  }

  /**
   What has to be preempted: usage above the maximum, limited for each type by the usage above the
   guarantee where the hierarchy reports one. None if there is nothing to do.
   */
  function PreemptableResource(max: Option<Amounts>, inUse: Amounts, preempting: Option<Amounts>,
                               parentPreemptable: Amounts): Option<Amounts>
  {
    var used := SubOnlyExisting(Some(inUse), preempting);
    if IsEmpty(max) || IsEmpty(used) then
      None
    else
      var net := Shortfalls(SubOnlyExisting(max, used).value);
      var result := ComponentWiseMinOnlyExisting(Some(net), Some(Shortfalls(parentPreemptable)));
      if IsEmpty(result) then None else result
  }

  /**
   There is a budget exactly if a type is over the maximum. It names exactly these types. The amount is
   what is over the maximum, or what the hierarchy reports as preemptable if that is less.
   */
  lemma BudgetIsExcess(max: Option<Amounts>, inUse: Amounts, preempting: Option<Amounts>, parentPreemptable: Amounts)
    requires NonNegative(OrZero(max)) && NonNegative(inUse) && NonNegative(OrZero(preempting))
    requires forall k | k in parentPreemptable :: parentPreemptable[k] != MIN_INT64
    ensures var r := PreemptableResource(max, inUse, preempting, parentPreemptable);
            var used := SubOnlyExisting(Some(inUse), preempting).value;
            && (r.Some? <==> exists k :: k in OrZero(max) && OrZero(max)[k] < Get(used, k))
            && (r.Some? ==> forall k :: k in r.value <==> k in max.value && max.value[k] < Get(used, k))
            && (r.Some? ==> forall k | k in r.value ::
                              var excess := used[k] - max.value[k];
                              r.value[k] == if k in parentPreemptable && 0 < 0 - parentPreemptable[k] < excess
                                            then 0 - parentPreemptable[k] else excess)
  {
    hide Shortfalls, SubOnlyExisting, NonNegative;
    HasCounterparts(inUse, preempting);
    if !IsEmpty(max) {
      ExcessOfType(max.value, SubOnlyExisting(Some(inUse), preempting).value, parentPreemptable);
      BudgetOfExcess(max, inUse, preempting, parentPreemptable);
    }
  }

  lemma BudgetOfExcess(max: Option<Amounts>, inUse: Amounts, preempting: Option<Amounts>, parentPreemptable: Amounts)
    requires !IsEmpty(max) && SubOnlyExisting(Some(inUse), preempting).Some? && NonNegative(max.value)
    ensures var used := SubOnlyExisting(Some(inUse), preempting).value;
            var net := Shortfalls(SubOnlyExisting(max, Some(used)).value);
            var r := PreemptableResource(max, inUse, preempting, parentPreemptable);
            && (r.None? ==> forall k :: !(k in max.value && max.value[k] < Get(used, k)) || k !in net)
            && (r.Some? ==> r == ComponentWiseMinOnlyExisting(Some(net), Some(Shortfalls(parentPreemptable))) && r.value != map[])
  {
    hide Shortfalls;
    var used := SubOnlyExisting(Some(inUse), preempting).value;
    if used == map[] {
      assert forall k :: Get(used, k) == 0;
    } else {
      var net := Shortfalls(SubOnlyExisting(max, Some(used)).value);
      assert ComponentWiseMinOnlyExisting(Some(net), Some(Shortfalls(parentPreemptable))).value.Keys == net.Keys;
    }
  }

  lemma HasCounterparts(inUse: Amounts, preempting: Option<Amounts>)
    requires NonNegative(inUse) && NonNegative(OrZero(preempting))
    ensures var used := SubOnlyExisting(Some(inUse), preempting);
            used.Some? && forall k | k in used.value :: used.value[k] != MIN_INT64
  {
  }

  lemma ExcessOfType(max: Amounts, used: Amounts, parentPreemptable: Amounts)
    requires NonNegative(max) && (forall k | k in used :: used[k] != MIN_INT64)
    requires forall k | k in parentPreemptable :: parentPreemptable[k] != MIN_INT64
    ensures var net := Shortfalls(SubOnlyExisting(Some(max), Some(used)).value);
            && (forall k :: k in net <==> k in max && max[k] < Get(used, k))
            && (forall k | k in net :: k in used && net[k] == used[k] - max[k])
            && (forall k :: k in Shortfalls(parentPreemptable) <==> k in parentPreemptable && parentPreemptable[k] < 0)
            && (forall k | k in Shortfalls(parentPreemptable) ::
                  Shortfalls(parentPreemptable)[k] == 0 - parentPreemptable[k])
  {
  }

  // ---------- the split over the children ----------

  /** |v|, except that the smallest quantity has no counterpart. */
  function Magnitude(v: Quantity): Quantity {
    if v < 0 then Neg(v) else v
  }

  /** The distance of a child's usage from its guarantee, or None if the child is skipped. */
  function Usage(child: Queue): Option<Amounts> {
    if child.used == map[] || GreaterOnlyExisting(OrZero(child.guaranteed), child.used, true) then
      None
    else
      var used := if IsEmpty(child.guaranteed) then child.used
                  else SubOnlyExisting(child.guaranteed, Some(child.used)).value;
      Some(map k | k in used :: Magnitude(used[k]))
  }

  /**
   A child takes part in the split exactly if it uses something and has no guarantee or is above it in a
   type. What counts are the types of the guarantee, or all it uses if there is none.
   */
  lemma TakesPartIff(child: Queue)
    requires NonNegative(child.used) && NonNegative(OrZero(child.guaranteed))
    ensures Usage(child).Some? <==>
              && child.used != map[]
              && (IsEmpty(child.guaranteed)
                  || exists k :: k in child.guaranteed.value && k in child.used && child.guaranteed.value[k] < child.used[k])
    ensures Usage(child).Some? && IsEmpty(child.guaranteed) ==> Usage(child).value == child.used
    ensures Usage(child).Some? && !IsEmpty(child.guaranteed) ==> Usage(child).value.Keys == child.guaranteed.value.Keys
  {
  }

  /**
   The usage of a type above its guarantee is what counts, exactly if the usage has reached the
   guarantee. Below it, the part of the guarantee that is not used counts instead.
   */
  lemma UsageIsExcessIff(child: Queue, k: string)
    requires Usage(child).Some? && !IsEmpty(child.guaranteed) && k in child.guaranteed.value
    requires child.guaranteed.value[k] >= 0 && Get(child.used, k) >= 0
    ensures var excess := Get(child.used, k) - child.guaranteed.value[k];
            Usage(child).value[k] == (if excess > 0 then excess else 0) <==> excess >= 0
  {
  }

  /** A queue that uses 1 of its 10 guaranteed memory takes part in the split of memory with 9. */
  lemma UnderusedExample()
    ensures var child := Queue(true, map["memory" := 1, "vcore" := 5], Some(map["memory" := 10, "vcore" := 1]), []);
            Usage(child) == Some(map["memory" := 9, "vcore" := 4])
  {
    var used: Amounts := map["memory" := 1, "vcore" := 5];
    var guaranteed: Amounts := map["memory" := 10, "vcore" := 1];
    assert "vcore" in guaranteed && "vcore" in used && used["vcore"] > guaranteed["vcore"];
    assert !GreaterOnlyExisting(guaranteed, used, true);
    var difference := SubOnlyExisting(Some(guaranteed), Some(used)).value;
    assert difference == map["memory" := 9, "vcore" := -4];
    var r: Amounts := map["memory" := 9, "vcore" := 4];
    assert (map k | k in difference :: Magnitude(difference[k])) == r;
  }

  /** The total over the first n children. */
  function TotalUsage(q: Queue, n: nat): Amounts
    requires n <= |q.children|
  {
    if n == 0 then map[]
    else
      var u := Usage(q.children[n - 1]);
      if u.None? then TotalUsage(q, n - 1) else Plus(TotalUsage(q, n - 1), u.value)
  }

  /** The share of a quantity in a total: the quantity itself if there is no total. */
  function Share(v: Quantity, total: Quantity): real {
    if v == 0 then 0.0
    else if total == 0 then v as real
    else v as real / total as real
  }

  function ChildAmount(v: Quantity, total: Quantity, parent: Quantity): int {
    (Share(v, total) * parent as real).Floor
  }

  /** The part of the parent's budget that goes to a child. */
  function ChildBudget(usage: Amounts, total: Amounts, parent: Amounts): Amounts {
    map k | k in usage && k in parent :: Clamp(ChildAmount(usage[k], Get(total, k), parent[k]))
  }

  /** A leaf queue is named by the child positions that lead to it. */
  type Path = seq<nat>

  /** The budgets of all leaf queues below q. */
  function LeafBudgets(q: Queue, path: Path, budget: Amounts): map<Path, Amounts>
    decreases q, 0
  {
    LeafBudgetsUpTo(q, |q.children|, path, budget)
  }

  function LeafBudgetsUpTo(q: Queue, n: nat, path: Path, budget: Amounts): map<Path, Amounts>
    requires n <= |q.children|
    decreases q, 0, n
  {
    if n == 0 then map[]
    else
      var child := q.children[n - 1];
      var u := Usage(child);
      var rest := LeafBudgetsUpTo(q, n - 1, path, budget);
      if u.None? then rest
      else rest + OwnLeaves(child, path + [n - 1], ChildBudget(u.value, TotalUsage(q, |q.children|), budget))
  }

  /** A leaf queue, or the leaf queues below. */
  function OwnLeaves(child: Queue, path: Path, budget: Amounts): map<Path, Amounts>
    decreases child, 1
  {
    if child.leaf then map[path := budget] else LeafBudgets(child, path, budget)
  }

  /** The shared map that the recursive split fills. */
  class LeafQueues {
    var budgets: map<Path, Amounts>

    constructor ()
      ensures budgets == map[]
    {
      budgets := map[];
    }
  }

  method GetChildQueuesPreemptableResource(q: Queue, path: Path, parentBudget: Amounts, leafQueues: LeafQueues)
    modifies leafQueues
    ensures leafQueues.budgets == old(leafQueues.budgets) + LeafBudgets(q, path, parentBudget)
    decreases q
  {
    hide Usage, TotalUsage, ChildBudget, LeafBudgets;
    ghost var before := leafQueues.budgets;
    if |q.children| == 0 {
      WholeIsUpTo(q, path, parentBudget);
      assert before + map[] == before;
      return;
    }
    var total, childrenPreemptable := ChildrenUsage(q);
    for i := 0 to |q.children|
      invariant leafQueues.budgets == old(leafQueues.budgets) + LeafBudgetsUpTo(q, i, path, parentBudget)
    {
      if i in childrenPreemptable {
        ghost var done := LeafBudgetsUpTo(q, i, path, parentBudget);
        var b := ChildBudget(childrenPreemptable[i], total, parentBudget);
        if q.children[i].leaf {
          leafQueues.budgets := leafQueues.budgets[path + [i] := b];
          assert leafQueues.budgets == before + done + map[path + [i] := b];
          MergeAssociative(before, done, map[path + [i] := b]);
        } else {
          GetChildQueuesPreemptableResource(q.children[i], path + [i], b, leafQueues);
          MergeAssociative(before, done, LeafBudgets(q.children[i], path + [i], b));
        }
      }
    }
    WholeIsUpTo(q, path, parentBudget);
  }

  lemma WholeIsUpTo(q: Queue, path: Path, budget: Amounts)
    ensures LeafBudgets(q, path, budget) == LeafBudgetsUpTo(q, |q.children|, path, budget)
  {
  }

  lemma MergeAssociative(a: map<Path, Amounts>, b: map<Path, Amounts>, c: map<Path, Amounts>)
    ensures a + b + c == a + (b + c)
  {
  }

  /** One child of the first pass. The types are visited in any order. */
  method ChildUsage(child: Queue) returns (preemptable: Option<Amounts>)
    ensures preemptable == Usage(child)
  {
    hide GreaterOnlyExisting;
    if child.used == map[] || GreaterOnlyExisting(OrZero(child.guaranteed), child.used, true) {
      return None;
    }
    var used := child.used;
    if !IsEmpty(child.guaranteed) {
      used := SubOnlyExisting(child.guaranteed, Some(child.used)).value;
    }
    var amounts := Magnitudes(used);
    return Some(amounts);
  }

  method Magnitudes(used: Amounts) returns (amounts: Amounts)
    ensures amounts == map k | k in used :: Magnitude(used[k])
  {
    amounts := map[];
    var left := used.Keys;
    while left != {}
      invariant left <= used.Keys && amounts.Keys == used.Keys - left
      invariant forall k | k in amounts :: amounts[k] == Magnitude(used[k])
    {
      var k :| k in left;
      if used[k] < 0 {
        amounts := amounts[k := Neg(used[k])];
      } else {
        amounts := amounts[k := used[k]];
      }
      left := left - {k};
    }
  }

  /** The first pass over the children: usage per child and in total. */
  method ChildrenUsage(q: Queue) returns (total: Amounts, usages: map<nat, Amounts>)
    ensures total == TotalUsage(q, |q.children|)
    ensures forall j: nat :: j in usages <==> j < |q.children| && Usage(q.children[j]).Some?
    ensures forall j | j in usages :: usages[j] == Usage(q.children[j]).value
  {
    hide Usage, Plus;
    total, usages := map[], map[];
    for i := 0 to |q.children|
      invariant total == TotalUsage(q, i)
      invariant forall j: nat :: j in usages <==> j < i && Usage(q.children[j]).Some?
      invariant forall j | j in usages :: usages[j] == Usage(q.children[j]).value
    {
      var preemptable := ChildUsage(q.children[i]);
      if preemptable.None? { continue; }
      usages := usages[i := preemptable.value];
      total := Plus(total, preemptable.value);
    }
  }

  // ---------- conservation ----------

  /** No entry is the quantity without a counterpart, and no sum of usages saturates, at any level. */
  predicate Exact(q: Queue)
    decreases q
  {
    && (forall i, k | 0 <= i < |q.children| && Usage(q.children[i]).Some? && k in Usage(q.children[i]).value ::
          Usage(q.children[i]).value[k] >= 0)
    && (forall i | 0 <= i < |q.children| && Usage(q.children[i]).Some? ::
          SumFits(TotalUsage(q, i), Usage(q.children[i]).value))
    && (forall i | 0 <= i < |q.children| :: Exact(q.children[i]))
  }

  /** The budget entries of one type. */
  function OfType(budgets: map<Path, Amounts>, k: string): map<Path, int> {
    map p | p in budgets :: Get(budgets[p], k) as int
  }

  lemma RatioAtMostOne(v: real, total: real)
    requires 0.0 <= v <= total && 0.0 < total
    ensures 0.0 <= v / total <= 1.0 && v / total * total == v
  {
  }

  lemma ScaleReal(s: real, p: real)
    requires 0.0 <= s <= 1.0 && 0.0 <= p
    ensures 0.0 <= s * p <= p
  {
  }

  lemma MulMono(x: real, y: real, t: real)
    requires x <= y && 0.0 <= t
    ensures x * t <= y * t
  {
  }

  lemma Regroup(s: real, p: real, t: real)
    ensures s * p * t == s * t * p
  {
  }

  lemma WholeProduct(x: int, y: int)
    ensures (x * y) as real == x as real * y as real
  {
  }

  /** Rounding a part s * p down and scaling it back with t. */
  lemma FloorScaled(s: real, p: real, t: real, x: int)
    requires 0.0 <= s <= 1.0 && 0.0 <= p && 0.0 <= t && x == (s * p).Floor
    ensures 0 <= x && x as real <= p
    ensures x as real * t <= s * t * p
    ensures t > 0.0 ==> s * t * p < (x + 1) as real * t
  {
    ScaleReal(s, p);
    MulMono(x as real, s * p, t);
    Regroup(s, p, t);
    if t > 0.0 {
      MulStrict(s * p, (x + 1) as real, t);
    }
  }

  lemma MulStrict(x: real, y: real, t: real)
    requires x < y && 0.0 < t
    ensures x * t < y * t
  {
  }

  /** One more would be above the proportion. */
  lemma FloorShareStrict(v: Quantity, total: Quantity, parent: Quantity)
    requires 0 <= v <= total && 0 < total && 0 <= parent
    ensures v * parent < (ChildAmount(v, total, parent) + 1) * total
  {
    var x := ChildAmount(v, total, parent);
    if v > 0 {
      RatioAtMostOne(v as real, total as real);
      FloorScaled(Share(v, total), parent as real, total as real, x);
      WholeProduct(x + 1, total);
      WholeProduct(v, parent);
    }
  }

  /** The part is the exact proportion v / total of the parent, rounded down. */
  lemma FloorShare(v: Quantity, total: Quantity, parent: Quantity)
    requires 0 <= v <= total && 0 <= parent
    ensures 0 <= ChildAmount(v, total, parent) <= parent
    ensures v == 0 ==> ChildAmount(v, total, parent) == 0
    ensures ChildAmount(v, total, parent) * total <= v * parent
  {
    if v > 0 {
      var x := ChildAmount(v, total, parent);
      RatioAtMostOne(v as real, total as real);
      FloorScaled(Share(v, total), parent as real, total as real, x);
      WholeProduct(x, total);
      WholeProduct(v, parent);
    }
  }

  /** What child i gets of type k. */
  function ChildPart(q: Queue, i: nat, budget: Amounts, k: string): Quantity
    requires i < |q.children|
  {
    var u := Usage(q.children[i]);
    if u.None? then 0 else Get(ChildBudget(u.value, TotalUsage(q, |q.children|), budget), k)
  }

  function ChildUse(q: Queue, i: nat, k: string): Quantity
    requires i < |q.children|
  {
    Get(OrZero(Usage(q.children[i])), k)
  }

  function PartSum(q: Queue, n: nat, budget: Amounts, k: string): int
    requires n <= |q.children|
  {
    if n == 0 then 0 else PartSum(q, n - 1, budget, k) + ChildPart(q, n - 1, budget, k)
  }

  lemma TotalStep(q: Queue, i: nat, k: string)
    requires Exact(q) && i < |q.children|
    ensures Get(TotalUsage(q, i + 1), k) == Get(TotalUsage(q, i), k) + ChildUse(q, i, k)
    ensures ChildUse(q, i, k) >= 0
  {
    var u := Usage(q.children[i]);
    if u.Some? {
      assert SumFits(TotalUsage(q, i), u.value);
      assert k in u.value ==> u.value[k] >= 0;
    }
  }

  lemma TotalOfNone(q: Queue, k: string)
    ensures Get(TotalUsage(q, 0), k) == 0
  {
  }

  lemma ExactChild(q: Queue, i: nat)
    requires Exact(q) && i < |q.children|
    ensures Exact(q.children[i])
  {
  }

  lemma {:induction false} TotalMonotone(q: Queue, i: nat, n: nat, k: string)
    requires Exact(q) && i <= n <= |q.children|
    ensures 0 <= Get(TotalUsage(q, i), k) <= Get(TotalUsage(q, n), k)
    decreases n
  {
    hide Usage, TotalUsage, Exact, ChildUse;
    if n == 0 {
      TotalOfNone(q, k);
    } else if i < n {
      TotalStep(q, n - 1, k);
      TotalMonotone(q, i, n - 1, k);
    } else {
      TotalStep(q, n - 1, k);
      TotalMonotone(q, n - 1, n - 1, k);
    }
  }

  lemma PartBound(q: Queue, i: nat, budget: Amounts, k: string)
    requires Exact(q) && NonNegative(budget) && i < |q.children|
    ensures 0 <= ChildPart(q, i, budget, k) <= Get(budget, k)
    ensures ChildUse(q, i, k) == 0 ==> ChildPart(q, i, budget, k) == 0
    ensures ChildPart(q, i, budget, k) * Get(TotalUsage(q, |q.children|), k) <= ChildUse(q, i, k) * Get(budget, k)
  {
    hide Usage, TotalUsage, Exact, ChildAmount;
    TotalStep(q, i, k);
    TotalMonotone(q, i, i, k);
    TotalMonotone(q, i + 1, |q.children|, k);
    var total := Get(TotalUsage(q, |q.children|), k);
    if k in budget && Usage(q.children[i]).Some? && k in Usage(q.children[i]).value {
      FloorShare(ChildUse(q, i, k), total, budget[k]);
    }
  }

  lemma {:induction false} PartSumScaled(q: Queue, n: nat, budget: Amounts, k: string)
    requires Exact(q) && NonNegative(budget) && n <= |q.children|
    ensures PartSum(q, n, budget, k) >= 0
    ensures PartSum(q, n, budget, k) * Get(TotalUsage(q, |q.children|), k) <= Get(TotalUsage(q, n), k) * Get(budget, k)
    ensures Get(TotalUsage(q, |q.children|), k) == 0 ==> PartSum(q, n, budget, k) == 0
  {
    hide Usage, TotalUsage, Exact, ChildUse, ChildPart, NonNegative, Get;
    if n == 0 {
      TotalOfNone(q, k);
    } else {
      PartSumScaled(q, n - 1, budget, k);
      PartBound(q, n - 1, budget, k);
      TotalStep(q, n - 1, k);
      TotalMonotone(q, n - 1, n - 1, k);
      TotalMonotone(q, n, |q.children|, k);
      var total, b := Get(TotalUsage(q, |q.children|), k), Get(budget, k);
      AddProducts(PartSum(q, n - 1, budget, k), ChildPart(q, n - 1, budget, k), total);
      AddProducts(Get(TotalUsage(q, n - 1), k), ChildUse(q, n - 1, k), b);
    }
  }

  lemma AddProducts(x: int, y: int, z: int)
    ensures (x + y) * z == x * z + y * z
  {
  }

  lemma FactorAtLeast(m: int, t: int)
    requires t > 0
    ensures m >= 1 ==> m * t >= t
  {
  }

  lemma CancelFactor(x: int, y: int, t: int)
    requires t > 0 && x * t <= t * y
    ensures x <= y
  {
    AddProducts(x - y, y, t);
    FactorAtLeast(x - y, t);
  }

  lemma ScaleMono(x: int, y: int, t: int)
    requires x <= y && 0 <= t
    ensures x * t <= y * t
  {
  }

  lemma CancelStrict(x: int, y: int, t: int)
    requires t > 0 && x * t < y * t
    ensures x < y
  {
    if y <= x {
      ScaleMono(y, x, t);
    }
  }

  /** What a child gets is its proportion of the budget, rounded down. */
  lemma PartIsProportion(q: Queue, i: nat, budget: Amounts, k: string)
    requires Exact(q) && NonNegative(budget) && i < |q.children| && Get(TotalUsage(q, |q.children|), k) > 0
    ensures var part, total, share := ChildPart(q, i, budget, k), Get(TotalUsage(q, |q.children|), k), ChildUse(q, i, k) * Get(budget, k);
            part * total <= share < (part + 1) * total
  {
    hide Usage, TotalUsage, Exact, ChildAmount;
    PartBound(q, i, budget, k);
    TotalStep(q, i, k);
    TotalMonotone(q, i, i, k);
    TotalMonotone(q, i + 1, |q.children|, k);
    var total := Get(TotalUsage(q, |q.children|), k);
    if k in budget && Usage(q.children[i]).Some? && k in Usage(q.children[i]).value {
      FloorShareStrict(ChildUse(q, i, k), total, budget[k]);
    }
  }

  lemma StrictStep(use: int, u: int, sum: int, part: int, n: nat, total: int, b: int)
    requires total > 0 && u * b < (part + 1) * total
    requires if n == 0 then use == 0 && sum == 0 else use * b < (sum + n) * total
    ensures (use + u) * b < (sum + part + n + 1) * total
  {
    AddProducts(use, u, b);
    AddProducts(sum + n, part + 1, total);
  }

  lemma {:induction false} PartSumShort(q: Queue, n: nat, budget: Amounts, k: string)
    requires Exact(q) && NonNegative(budget) && 0 < n <= |q.children| && Get(TotalUsage(q, |q.children|), k) > 0
    ensures Get(TotalUsage(q, n), k) * Get(budget, k) < (PartSum(q, n, budget, k) + n) * Get(TotalUsage(q, |q.children|), k)
  {
    hide Usage, TotalUsage, Exact, ChildUse, ChildPart, NonNegative, Get;
    PartIsProportion(q, n - 1, budget, k);
    TotalStep(q, n - 1, k);
    if n == 1 {
      TotalOfNone(q, k);
    } else {
      PartSumShort(q, n - 1, budget, k);
    }
    StrictStep(Get(TotalUsage(q, n - 1), k), ChildUse(q, n - 1, k), PartSum(q, n - 1, budget, k),
               ChildPart(q, n - 1, budget, k), n - 1, Get(TotalUsage(q, |q.children|), k), Get(budget, k));
  }

  /**
   One level of the split: the parts of all children together are at most the budget. They fall short of
   it by less than one per child if there is any usage to share it out by, and are nothing if there is none.
   */
  lemma LevelConserves(q: Queue, budget: Amounts, k: string)
    requires Exact(q) && NonNegative(budget)
    ensures PartSum(q, |q.children|, budget, k) <= Get(budget, k)
    ensures Get(TotalUsage(q, |q.children|), k) > 0 ==> Get(budget, k) < PartSum(q, |q.children|, budget, k) + |q.children|
    ensures Get(TotalUsage(q, |q.children|), k) == 0 ==> PartSum(q, |q.children|, budget, k) == 0
  {
    hide Usage, TotalUsage, Exact, ChildUse, ChildPart, NonNegative, Get, PartSum;
    BudgetAt(budget, k);
    PartSumScaled(q, |q.children|, budget, k);
    TotalMonotone(q, 0, |q.children|, k);
    var total := Get(TotalUsage(q, |q.children|), k);
    if total > 0 {
      CancelFactor(PartSum(q, |q.children|, budget, k), Get(budget, k), total);
      if |q.children| == 0 {
        TotalOfNone(q, k);
      }
      PartSumShort(q, |q.children|, budget, k);
      CancelStrict(Get(budget, k), PartSum(q, |q.children|, budget, k) + |q.children|, total);
    }
  }

  lemma BudgetAt(budget: Amounts, k: string)
    requires NonNegative(budget)
    ensures Get(budget, k) >= 0
  {
  }

  // ---------- which leaves get a budget, and of which types ----------

  /** The path leads to a leaf queue and passes no child that the split skips. */
  predicate Reached(q: Queue, p: Path)
    decreases |p|
  {
    && p != [] && p[0] < |q.children| && Usage(q.children[p[0]]).Some?
    && if q.children[p[0]].leaf then |p| == 1 else Reached(q.children[p[0]], p[1..])
  }

  /** Every queue on the path uses the type. */
  predicate UsedAlong(q: Queue, p: Path, k: string)
    requires Reached(q, p)
    decreases |p|
  {
    && k in Usage(q.children[p[0]]).value
    && (q.children[p[0]].leaf || UsedAlong(q.children[p[0]], p[1..], k))
  }

  /** The budget that arrives at the end of a path: a proportion of a proportion, and so on. */
  function PathBudget(q: Queue, p: Path, budget: Amounts): Amounts
    requires Reached(q, p)
    decreases |p|
  {
    var child := q.children[p[0]];
    var b := ChildBudget(Usage(child).value, TotalUsage(q, |q.children|), budget);
    if child.leaf then b else PathBudget(child, p[1..], b)
  }

  lemma {:induction false} PathBudgetTypes(q: Queue, p: Path, budget: Amounts, k: string)
    requires Reached(q, p)
    ensures k in PathBudget(q, p, budget) <==> k in budget && UsedAlong(q, p, k)
    decreases |p|
  {
    var child := q.children[p[0]];
    if !child.leaf {
      PathBudgetTypes(child, p[1..], ChildBudget(Usage(child).value, TotalUsage(q, |q.children|), budget), k);
    }
  }

  lemma OwnLeavesAre(child: Queue, path: Path, b: Amounts, p: Path)
    ensures var rest := if |path| <= |p| then p[|path|..] else [];
            && (p in OwnLeaves(child, path, b) <==>
                  path <= p && if child.leaf then p == path else Reached(child, rest))
            && (p in OwnLeaves(child, path, b) ==>
                  OwnLeaves(child, path, b)[p] == if child.leaf then b else PathBudget(child, rest, b))
    decreases child, 2
  {
    hide Usage, TotalUsage, ChildBudget, LeafBudgets, Reached, PathBudget;
    if !child.leaf {
      LeafBudgetsAre(child, path, b, p);
    }
  }

  /** The leaf queues that get a budget are exactly those that are reached, and each gets what arrives on its path. */
  lemma {:induction false} LeafBudgetsAre(q: Queue, path: Path, budget: Amounts, p: Path)
    ensures p in LeafBudgets(q, path, budget) <==> path <= p && Reached(q, p[|path|..])
    ensures p in LeafBudgets(q, path, budget) ==> LeafBudgets(q, path, budget)[p] == PathBudget(q, p[|path|..], budget)
    decreases q, 1
  {
    hide Usage, TotalUsage, ChildBudget, Reached, PathBudget;
    WholeIsUpTo(q, path, budget);
    LeafBudgetsUpToAre(q, |q.children|, path, budget, p);
    if path <= p {
      FirstChild(q, p[|path|..]);
    }
  }

  lemma FirstChild(q: Queue, p: Path)
    ensures Reached(q, p) ==> p != [] && p[0] < |q.children|
  {
  }

  lemma {:induction false} LeafBudgetsUpToAre(q: Queue, n: nat, path: Path, budget: Amounts, p: Path)
    requires n <= |q.children|
    ensures var m := LeafBudgetsUpTo(q, n, path, budget);
            && (p in m <==> path <= p && |p| > |path| && p[|path|] < n && Reached(q, p[|path|..]))
            && (p in m ==> m[p] == PathBudget(q, p[|path|..], budget))
    decreases q, 0, n
  {
    hide Usage, TotalUsage, ChildBudget, OwnLeaves;
    if n > 0 {
      var i := n - 1;
      UpToStep(q, i, path, budget);
      LeafBudgetsUpToAre(q, i, path, budget, p);
      hide LeafBudgetsUpTo;
      var child, u := q.children[i], Usage(q.children[i]);
      if u.Some? {
        OwnLeavesAre(child, path + [i], ChildBudget(u.value, TotalUsage(q, |q.children|), budget), p);
        if path + [i] <= p {
          assert path <= p && p[|path|] == i && p[|path|..][0] == i && p[|path|..][1..] == p[|path| + 1..];
        } else if path <= p && |p| > |path| {
          assert p[..|path| + 1] == path + [p[|path|]];
        }
      }
    }
  }

  /**
   What arrives on a path is, level by level, the proportion of the budget of the level above, rounded
   down, if that level has any usage of the type.
   */
  lemma PathBudgetStep(q: Queue, p: Path, budget: Amounts, k: string)
    requires Reached(q, p) && Exact(q) && NonNegative(budget)
    ensures var child, total := q.children[p[0]], Get(TotalUsage(q, |q.children|), k);
            var b := ChildBudget(Usage(child).value, TotalUsage(q, |q.children|), budget);
            && PathBudget(q, p, budget) == (if child.leaf then b else PathBudget(child, p[1..], b))
            && NonNegative(b) && Get(b, k) == ChildPart(q, p[0], budget, k)
            && (total > 0 ==> Get(b, k) * total <= ChildUse(q, p[0], k) * Get(budget, k) < (Get(b, k) + 1) * total)
  {
    hide TotalUsage, Exact, ChildBudget, ChildUse;
    ChildBudgetNonNegative(q, p[0], budget);
    if Get(TotalUsage(q, |q.children|), k) > 0 {
      PartIsProportion(q, p[0], budget, k);
    }
  }

  ghost predicate Below(p: Path, path: Path, n: nat) {
    |p| > |path| && p[..|path|] == path && p[|path|] < n
  }

  lemma OfTypeUnion(a: map<Path, Amounts>, b: map<Path, Amounts>, k: string)
    requires a.Keys !! b.Keys
    ensures Sum(OfType(a + b, k)) == Sum(OfType(a, k)) + Sum(OfType(b, k))
  {
    assert OfType(a + b, k) == OfType(a, k) + OfType(b, k);
    SumUnion(OfType(a, k), OfType(b, k));
  }

  /**
   The split is conservative over the whole tree: for each type the budgets of all leaf queues add up
   to at most the budget of the queue at the top, and none of them is negative.
   */
  lemma {:induction false} SplitConserves(q: Queue, path: Path, budget: Amounts, k: string)
    requires Exact(q) && NonNegative(budget)
    ensures Sum(OfType(LeafBudgets(q, path, budget), k)) <= Get(budget, k)
    ensures forall p | p in LeafBudgets(q, path, budget) ::
              Below(p, path, |q.children|) && Get(LeafBudgets(q, path, budget)[p], k) >= 0
    decreases q, 1
  {
    SplitConservesUpTo(q, |q.children|, path, budget, k);
    LevelConserves(q, budget, k);
  }

  lemma ChildBudgetNonNegative(q: Queue, i: nat, budget: Amounts)
    requires Exact(q) && NonNegative(budget) && i < |q.children| && Usage(q.children[i]).Some?
    ensures NonNegative(ChildBudget(Usage(q.children[i]).value, TotalUsage(q, |q.children|), budget))
  {
    var b := ChildBudget(Usage(q.children[i]).value, TotalUsage(q, |q.children|), budget);
    forall k | k in b
      ensures b[k] >= 0
    {
      PartBound(q, i, budget, k);
    }
  }

  lemma NoLeaves(k: string)
    ensures Sum(OfType(map[], k)) == 0
  {
  }

  /** The leaves of the children before child i, and its own. */
  lemma JoinLeaves(rest: map<Path, Amounts>, own: map<Path, Amounts>, path: Path, i: nat, k: string)
    requires forall p | p in rest :: Below(p, path, i) && Get(rest[p], k) >= 0
    requires forall p | p in own :: |p| > |path| && p[..|path|] == path && p[|path|] == i && Get(own[p], k) >= 0
    ensures Sum(OfType(rest + own, k)) == Sum(OfType(rest, k)) + Sum(OfType(own, k))
    ensures forall p | p in rest + own :: Below(p, path, i + 1) && Get((rest + own)[p], k) >= 0
  {
    OfTypeUnion(rest, own, k);
  }

  lemma UpToStep(q: Queue, i: nat, path: Path, budget: Amounts)
    requires i < |q.children|
    ensures LeafBudgetsUpTo(q, 0, path, budget) == map[]
    ensures var rest, u := LeafBudgetsUpTo(q, i, path, budget), Usage(q.children[i]);
            LeafBudgetsUpTo(q, i + 1, path, budget) ==
            if u.None? then rest
            else rest + OwnLeaves(q.children[i], path + [i], ChildBudget(u.value, TotalUsage(q, |q.children|), budget))
  {
    hide Usage, TotalUsage, ChildBudget, OwnLeaves;
  }

  lemma {:induction false} SplitConservesUpTo(q: Queue, n: nat, path: Path, budget: Amounts, k: string)
    requires Exact(q) && NonNegative(budget) && n <= |q.children|
    ensures Sum(OfType(LeafBudgetsUpTo(q, n, path, budget), k)) <= PartSum(q, n, budget, k)
    ensures forall p | p in LeafBudgetsUpTo(q, n, path, budget) ::
              Below(p, path, n) && Get(LeafBudgetsUpTo(q, n, path, budget)[p], k) >= 0
    decreases q, 0, n
  {
    hide Usage, TotalUsage, ChildBudget, Exact, ChildPart, OwnLeaves, OfType, Sum, Get, NonNegative;
    if n == 0 {
      NoLeaves(k);
    } else {
      hide LeafBudgetsUpTo;
      UpToStep(q, n - 1, path, budget);
      SplitConservesUpTo(q, n - 1, path, budget, k);
      PartBound(q, n - 1, budget, k);
      if Usage(q.children[n - 1]).Some? {
        var own := ChildLeaves(q, n - 1, path, budget, k);
        JoinLeaves(LeafBudgetsUpTo(q, n - 1, path, budget), own, path, n - 1, k);
      }
    }
  }

  /** The leaves that one child contributes. */
  lemma ChildLeaves(q: Queue, i: nat, path: Path, budget: Amounts, k: string) returns (own: map<Path, Amounts>)
    requires Exact(q) && NonNegative(budget) && i < |q.children| && Usage(q.children[i]).Some?
    ensures var b := ChildBudget(Usage(q.children[i]).value, TotalUsage(q, |q.children|), budget);
            own == OwnLeaves(q.children[i], path + [i], b)
    ensures Sum(OfType(own, k)) <= ChildPart(q, i, budget, k)
    ensures forall p | p in own :: |p| > |path| && p[..|path|] == path && p[|path|] == i && Get(own[p], k) >= 0
    decreases q, 0, 0
  {
    hide Usage, TotalUsage, ChildBudget, Exact, LeafBudgets;
    ExactChild(q, i);
    ChildBudgetNonNegative(q, i, budget);
    var child, b := q.children[i], ChildBudget(Usage(q.children[i]).value, TotalUsage(q, |q.children|), budget);
    own := OwnLeaves(child, path + [i], b);
    if child.leaf {
      assert OfType(own, k) == map[][path + [i] := Get(b, k) as int];
      SumInsert(map[], path + [i], Get(b, k));
    } else {
      SplitConserves(child, path + [i], b, k);
      forall p | p in own
        ensures p[..|path|] == path && p[|path|] == i
      {
        assert p[..|path| + 1] == path + [i];
      }
    }
  }

  // ---------- collecting victims in a leaf ----------

  datatype Victim = Victim(key: string, appID: string, resource: Amounts)

  datatype Collected = Collected(picked: seq<Victim>, total: Amounts)

  /** A victim is taken if it fits on its own, its application exists, and the new total stays in the budget. */
  function Collect(budget: Amounts, victims: seq<Victim>, n: nat, apps: set<string>): Collected
    requires n <= |victims|
  {
    if n == 0 then
      Collected([], map[])
    else
      var c, v := Collect(budget, victims, n - 1, apps), victims[n - 1];
      if !FitInMaxUndef(Some(budget), v.resource) || v.appID !in apps then
        c
      else
        var total := Plus(c.total, v.resource);
        if GreaterOnlyExisting(budget, total, true) then Collected(c.picked + [v], total)
        else c.(total := Minus(total, v.resource))
  }

  function ByApp(picked: seq<Victim>, app: string): seq<Victim> {
    if picked == [] then []
    else
      var v := picked[|picked| - 1];
      ByApp(picked[..|picked| - 1], app) + (if v.appID == app then [v] else [])
  }

  /** For every application the map has its victims, in the order in which they were taken. */
  ghost predicate Grouped(byApp: map<string, seq<Victim>>, picked: seq<Victim>) {
    forall a :: (if a in byApp then byApp[a] else []) == ByApp(picked, a)
  }

  lemma GroupedOneMore(byApp: map<string, seq<Victim>>, picked: seq<Victim>, v: Victim)
    requires Grouped(byApp, picked)
    ensures Grouped(byApp[v.appID := (if v.appID in byApp then byApp[v.appID] else []) + [v]], picked + [v])
  {
    assert (picked + [v])[..|picked|] == picked;
  }

  /** The selection loop; the victims are grouped by application for the release messages. */
  method PreemptVictims(budget: Amounts, victims: seq<Victim>, apps: set<string>)
    returns (byApp: map<string, seq<Victim>>, total: Amounts)
    ensures total == Collect(budget, victims, |victims|, apps).total
    ensures Grouped(byApp, Collect(budget, victims, |victims|, apps).picked)
  {
    hide Grouped, Plus, Minus, GreaterOnlyExisting, FitInMaxUndef;
    byApp, total := map[], map[];
    NothingGrouped();
    for i := 0 to |victims|
      invariant total == Collect(budget, victims, i, apps).total
      invariant Grouped(byApp, Collect(budget, victims, i, apps).picked)
    {
      var victim := victims[i];
      if !FitInMaxUndef(Some(budget), victim.resource) { continue; }
      if victim.appID !in apps { continue; }
      total := Plus(total, victim.resource);
      if GreaterOnlyExisting(budget, total, true) {
        GroupedOneMore(byApp, Collect(budget, victims, i, apps).picked, victim);
        byApp := byApp[victim.appID := (if victim.appID in byApp then byApp[victim.appID] else []) + [victim]];
      } else {
        total := Minus(total, victim.resource);
      }
    }
  }

  lemma NothingGrouped()
    ensures Grouped(map[], [])
  {
  }

  /** The exact amount of one type in a list of victims. */
  function Amount(victims: seq<Victim>, k: string): int {
    if victims == [] then 0
    else Amount(victims[..|victims| - 1], k) + Get(victims[|victims| - 1].resource, k)
  }

  ghost predicate NoSaturation(victims: seq<Victim>) {
    && (forall i | 0 <= i < |victims| :: NonNegative(victims[i].resource))
    && forall k: string :: Amount(victims, k) <= MAX_INT64
  }

  lemma AmountStep(victims: seq<Victim>, n: nat, k: string)
    requires n < |victims|
    ensures Amount(victims[..n + 1], k) == Amount(victims[..n], k) + Get(victims[n].resource, k)
  {
    assert victims[..n + 1][..n] == victims[..n];
  }

  lemma {:induction false} AmountPrefix(victims: seq<Victim>, n: nat, k: string)
    requires n <= |victims| && forall i | 0 <= i < |victims| :: NonNegative(victims[i].resource)
    ensures 0 <= Amount(victims[..n], k) <= Amount(victims, k)
    decreases |victims| - n, n
  {
    if n < |victims| {
      AmountPrefix(victims, n + 1, k);
      AmountStep(victims, n, k);
      AmountNonNegative(victims[..n], k);
    } else {
      assert victims[..n] == victims;
      AmountNonNegative(victims, k);
    }
  }

  lemma {:induction false} AmountNonNegative(victims: seq<Victim>, k: string)
    requires forall i | 0 <= i < |victims| :: NonNegative(victims[i].resource)
    ensures Amount(victims, k) >= 0
  {
    if victims != [] {
      AmountNonNegative(victims[..|victims| - 1], k);
    }
  }

  lemma CollectStep(budget: Amounts, victims: seq<Victim>, n: nat, apps: set<string>, c: Collected, next: Collected)
    requires n < |victims| && c == Collect(budget, victims, n, apps) && next == Collect(budget, victims, n + 1, apps)
    requires NonNegative(budget) && NonNegative(victims[n].resource) && SumFits(c.total, victims[n].resource)
    requires forall k | k in budget :: Get(c.total, k) <= budget[k]
    ensures forall k | k in budget :: Get(next.total, k) <= budget[k]
    ensures || (next.picked == c.picked && SameView(next.total, c.total))
            || (next.picked == c.picked + [victims[n]]
                && forall k: string :: Get(next.total, k) == Get(c.total, k) + Get(victims[n].resource, k))
  {
    PlusThenMinus(c.total, victims[n].resource);
    var total := Plus(c.total, victims[n].resource);
    forall k: string
      ensures Get(total, k) == Get(c.total, k) + Get(victims[n].resource, k)
    {
      PlusExact(c.total, victims[n].resource, k);
    }
    if next.total == total && next.picked != c.picked && total != map[] {
      assert forall k | k in budget && k in total :: total[k] <= budget[k];
    }
  }

  lemma CollectNone(budget: Amounts, victims: seq<Victim>, apps: set<string>)
    ensures Collect(budget, victims, 0, apps) == Collected([], map[])
  {
  }

  /** The tracked total is the exact sum of the victims that were taken, and stays within the budget. */
  lemma {:induction false} CollectWithinBudget(budget: Amounts, victims: seq<Victim>, n: nat, apps: set<string>, k: string)
    requires n <= |victims| && NonNegative(budget) && NoSaturation(victims)
    ensures var c := Collect(budget, victims, n, apps);
            && Get(c.total, k) == Amount(c.picked, k) <= Amount(victims[..n], k)
            && 0 <= Get(c.total, k)
            && (k in budget ==> Get(c.total, k) <= budget[k])
    decreases n
  {
    hide Collect;
    if n == 0 {
      CollectNone(budget, victims, apps);
    } else {
      var c, next, v := Collect(budget, victims, n - 1, apps), Collect(budget, victims, n, apps), victims[n - 1];
      forall j: string
        ensures && Get(c.total, j) == Amount(c.picked, j) && 0 <= Get(c.total, j)
                && Get(c.total, j) + Get(v.resource, j) <= MAX_INT64
                && (j in budget ==> Get(c.total, j) <= budget[j])
                && Get(c.total, j) <= Amount(victims[..n - 1], j)
      {
        CollectWithinBudget(budget, victims, n - 1, apps, j);
        AmountStep(victims, n - 1, j);
        AmountPrefix(victims, n, j);
      }
      CollectStep(budget, victims, n - 1, apps, c, next);
      AmountStep(victims, n - 1, k);
      assert (c.picked + [v])[..|c.picked|] == c.picked;
      AmountPrefix(victims, n - 1, k);
    }
  }

  /**
   A candidate is taken exactly if its application is there and, with the ones taken before it, it stays
   within the budget in every type of the budget. A budget without types takes nothing.
   */
  lemma CollectTakesIff(budget: Amounts, victims: seq<Victim>, n: nat, apps: set<string>)
    requires n < |victims| && NonNegative(budget) && NoSaturation(victims)
    ensures var c, next, v := Collect(budget, victims, n, apps), Collect(budget, victims, n + 1, apps), victims[n];
            && (next.picked == c.picked || next.picked == c.picked + [v])
            && (next.picked == c.picked + [v] <==>
                  && v.appID in apps && budget != map[]
                  && (forall k | k in budget :: Amount(c.picked, k) + Get(v.resource, k) <= budget[k])
                  && (c.total == map[] && v.resource == map[] ==> forall k | k in budget :: budget[k] > 0))
  {
    var c, v := Collect(budget, victims, n, apps), victims[n];
    forall k: string
      ensures Get(c.total, k) == Amount(c.picked, k) && 0 <= Get(c.total, k) && Get(c.total, k) + Get(v.resource, k) <= MAX_INT64
    {
      CollectWithinBudget(budget, victims, n, apps, k);
      AmountStep(victims, n, k);
      AmountPrefix(victims, n + 1, k);
    }
    hide Amount;
    TakenIff(budget, c, v);
  }

  lemma TakenIff(budget: Amounts, c: Collected, v: Victim)
    requires NonNegative(budget) && NonNegative(v.resource)
    requires forall k: string :: 0 <= Get(c.total, k) && Get(c.total, k) + Get(v.resource, k) <= MAX_INT64
    ensures FitInMaxUndef(Some(budget), v.resource) && GreaterOnlyExisting(budget, Plus(c.total, v.resource), true) <==>
              && budget != map[]
              && (forall k | k in budget :: Get(c.total, k) + Get(v.resource, k) <= budget[k])
              && (c.total == map[] && v.resource == map[] ==> forall k | k in budget :: budget[k] > 0)
  {
    var total := Plus(c.total, v.resource);
    forall k: string
      ensures Get(total, k) == Get(c.total, k) + Get(v.resource, k)
    {
      PlusExactAt(c.total, v.resource, k);
    }
    assert total == map[] <==> c.total == map[] && v.resource == map[] by {
      assert total.Keys == c.total.Keys + v.resource.Keys;
    }
    hide Plus;
    assert forall k | k in budget && k !in total :: Get(total, k) == 0;
  }

  lemma PlusExactAt(a: Amounts, b: Amounts, k: string)
    requires 0 <= Get(a, k) && 0 <= Get(b, k) && Get(a, k) + Get(b, k) <= MAX_INT64
    ensures Get(Plus(a, b), k) == Get(a, k) + Get(b, k)
  {
  }

  // ---------- the whole of quota preemption ----------

  /** What the leaves claim of a type, over the leaves whose budget has the type. */
  function Claims(budgets: map<Path, Amounts>, victims: map<Path, seq<Victim>>, apps: set<string>, k: string): map<Path, int>
    requires budgets.Keys <= victims.Keys
  {
    map p | p in budgets ::
      if k in budgets[p] then Get(Collect(budgets[p], victims[p], |victims[p]|, apps).total, k) as int else 0
  }

  /**
   Whatever candidates the leaf queues have, all victims taken below a queue together stay within the
   budget of that queue.
   */
  lemma ClaimsWithinBudget(q: Queue, budget: Amounts, victims: map<Path, seq<Victim>>, apps: set<string>, k: string)
    requires Exact(q) && NonNegative(budget)
    requires LeafBudgets(q, [], budget).Keys <= victims.Keys
    requires forall p | p in victims :: NoSaturation(victims[p])
    ensures Sum(Claims(LeafBudgets(q, [], budget), victims, apps, k)) <= Get(budget, k)
  {
    hide LeafBudgets, NoSaturation, Exact;
    var budgets := LeafBudgets(q, [], budget);
    SplitConserves(q, [], budget, k);
    forall p | p in budgets
      ensures Claims(budgets, victims, apps, k)[p] <= OfType(budgets, k)[p]
    {
      forall j | j in budgets[p]
        ensures budgets[p][j] >= 0
      {
        SplitConserves(q, [], budget, j);
      }
      CollectWithinBudget(budgets[p], victims[p], |victims[p]|, apps, k);
    }
    SumMonotone(Claims(budgets, victims, apps, k), OfType(budgets, k));
  }
}
