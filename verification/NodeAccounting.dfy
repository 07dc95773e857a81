/**
 The resource accounting of a node on values: what each node operation does to the four resource
 fields and to the list of allocations (pkg/scheduler/objects/node.go). Module Nodes has the node
 itself, whose methods are proved to do exactly this.
 */
module NodeAccounting {
  import opened Resources
  import opened MapSums

  datatype Item = Item(foreign: bool, resource: Amounts)

  datatype NodeState = NodeState(
    total: Amounts, occupied: Amounts, inUse: Amounts, available: Amounts, items: map<string, Item>)

  datatype Op =
    | Add(key: string, item: Item, force: bool)
    | Remove(key: string)
    | Replace(placeholder: string, key: string, item: Item, delta: Amounts)
    | SetCapacity(capacity: Amounts)
    | Resize(key: string, resource: Amounts)
    | UpdateForeign(key: string, item: Item)

  function NewNode(capacity: Amounts): NodeState {
    NodeState(Pruned(capacity), map[], map[], Pruned(capacity), map[])
  }

  // ---------- the operations ----------

  function Refreshed(s: NodeState): NodeState {
    s.(available := Pruned(Minus(Minus(s.total, s.inUse), s.occupied)))
  }

  function Added(s: NodeState, key: string, item: Item): NodeState {
    s.(occupied := if item.foreign then Plus(s.occupied, item.resource) else s.occupied,
       inUse := if item.foreign then s.inUse else Plus(s.inUse, item.resource),
       available := Pruned(Minus(s.available, item.resource)),
       items := s.items[key := item])
  }

  function Removed(s: NodeState, key: string): NodeState
    requires key in s.items
  {
    var item := s.items[key];
    s.(occupied := if item.foreign then Minus(s.occupied, item.resource) else s.occupied,
       inUse := if item.foreign then s.inUse else Pruned(Minus(s.inUse, item.resource)),
       available := Plus(s.available, item.resource),
       items := s.items - {key})
  }

  function Replaced(s: NodeState, placeholder: string, key: string, item: Item, delta: Amounts): NodeState {
    s.(inUse := Plus(s.inUse, delta),
       available := Pruned(Minus(s.available, delta)),
       items := (s.items - {placeholder})[key := item])
  }

  /** The change of a resource from one value to another. */
  function Delta(from: Amounts, to: Amounts): Amounts {
    Pruned(Minus(to, from))
  }

  /** The usage changes by a delta, whatever is on the node. */
  function UsageChanged(s: NodeState, delta: Amounts): NodeState {
    Refreshed(s.(inUse := Pruned(Plus(s.inUse, delta))))
  }

  function Resized(s: NodeState, key: string, resource: Amounts): NodeState
    requires key in s.items
  {
    var item := s.items[key];
    Refreshed(s.(inUse := Pruned(Plus(s.inUse, Delta(item.resource, resource))), items := s.items[key := item.(resource := resource)]))
  }

  function ForeignUpdated(s: NodeState, key: string, item: Item): NodeState {
    if key !in s.items then s.(items := s.items[key := item])
    else Refreshed(s.(occupied := Pruned(Plus(s.occupied, Delta(s.items[key].resource, item.resource))),
                      items := s.items[key := item]))
  }

  function CapacitySet(s: NodeState, capacity: Amounts): NodeState {
    if Equals(s.total, capacity) then s else Refreshed(s.(total := Pruned(capacity)))
  }

  function Next(s: NodeState, op: Op): NodeState {
    match op
    case Add(key, item, force) => if force || FitIn(s.available, item.resource) then Added(s, key, item) else s
    case Remove(key) => if key in s.items then Removed(s, key) else s
    case Replace(ph, key, item, delta) => if ph in s.items then Replaced(s, ph, key, item, delta) else s
    case SetCapacity(capacity) => CapacitySet(s, capacity)
    case Resize(key, resource) => if key in s.items then Resized(s, key, resource) else s
    case UpdateForeign(key, item) => ForeignUpdated(s, key, item)
  }

  /** What is on the node after an operation, and its capacity. */
  lemma ItemsAfter(s: NodeState, op: Op)
    ensures var items := Next(s, op).items;
            match op
            case Add(key, item, force) => items == if force || FitIn(s.available, item.resource) then s.items[key := item] else s.items
            case Remove(key) => items == s.items - {key}
            case Replace(ph, key, item, _) => items == if ph in s.items then (s.items - {ph})[key := item] else s.items
            case SetCapacity(_) => items == s.items
            case Resize(key, resource) =>
              && items.Keys == s.items.Keys && (forall k | k in items && k != key :: items[k] == s.items[k])
              && (key in items ==> items[key].resource == resource && items[key].foreign == s.items[key].foreign)
            case UpdateForeign(key, item) => items == s.items[key := item]
    ensures if op.SetCapacity? then SameView(Next(s, op).total, op.capacity) else Next(s, op).total == s.total
  {
    hide Plus, Minus, Equals, FitIn;
    if op.SetCapacity? {
      EqualsIsSameView(s.total, op.capacity);
    }
    if op.Remove? && op.key !in s.items {
      assert s.items - {op.key} == s.items;
    }
  }

  // ---------- the invariants ----------

  /** Every unit of capacity is available, allocated or occupied. */
  ghost predicate Balanced(s: NodeState) {
    forall k: string :: Get(s.available, k) + Get(s.inUse, k) + Get(s.occupied, k) == Get(s.total, k)
  }

  /** The quantities of one type of the items of one kind. */
  function OfKind(items: map<string, Item>, foreign: bool, k: string): map<string, int> {
    map key | key in items && items[key].foreign == foreign :: Get(items[key].resource, k) as int
  }

  /** A usage field is the sum over the allocations of one kind. */
  ghost predicate KindTracked(usage: Amounts, items: map<string, Item>, foreign: bool) {
    forall k: string :: Get(usage, k) == Sum(OfKind(items, foreign, k))
  }

  ghost predicate Tracked(s: NodeState) {
    KindTracked(s.inUse, s.items, false) && KindTracked(s.occupied, s.items, true)
  }

  /** Refreshing the available resource is exact. */
  predicate RefreshFits(s: NodeState) {
    DifferenceFits(s.total, s.inUse) && DifferenceFits(Minus(s.total, s.inUse), s.occupied)
  }

  /** No sum or difference of a step saturates. */
  predicate StepFits(s: NodeState, op: Op) {
    match op
    case Add(key, item, force) =>
      && SumFits(if item.foreign then s.occupied else s.inUse, item.resource)
      && DifferenceFits(s.available, item.resource)
    case Remove(key) =>
      key in s.items ==>
        var item := s.items[key];
        && DifferenceFits(if item.foreign then s.occupied else s.inUse, item.resource)
        && SumFits(s.available, item.resource)
    case Replace(ph, key, item, delta) => SumFits(s.inUse, delta) && DifferenceFits(s.available, delta)
    case SetCapacity(capacity) => RefreshFits(s.(total := Pruned(capacity)))
    case Resize(key, resource) =>
      key in s.items ==>
        var prior := s.items[key].resource;
        var delta := Delta(prior, resource);
        && DifferenceFits(resource, prior) && SumFits(s.inUse, delta)
        && RefreshFits(s.(inUse := Pruned(Plus(s.inUse, delta))))
    case UpdateForeign(key, item) =>
      key in s.items ==>
        var prior := s.items[key].resource;
        var delta := Delta(prior, item.resource);
        && DifferenceFits(item.resource, prior) && SumFits(s.occupied, delta)
        && RefreshFits(s.(occupied := Pruned(Plus(s.occupied, delta))))
  }

  lemma ViewPlus(a: Amounts, b: Amounts)
    requires SumFits(a, b)
    ensures forall k: string :: Get(Plus(a, b), k) == Get(a, k) + Get(b, k)
  {
    forall k: string ensures Get(Plus(a, b), k) == Get(a, k) + Get(b, k) { PlusExact(a, b, k); }
  }

  lemma ViewMinus(a: Amounts, b: Amounts)
    requires DifferenceFits(a, b)
    ensures forall k: string :: Get(Minus(a, b), k) == Get(a, k) - Get(b, k)
  {
    forall k: string ensures Get(Minus(a, b), k) == Get(a, k) - Get(b, k) { MinusExact(a, b, k); }
  }

  lemma RefreshBalances(s: NodeState)
    requires RefreshFits(s)
    ensures Balanced(Refreshed(s))
  {
    ViewMinus(s.total, s.inUse);
    ViewMinus(Minus(s.total, s.inUse), s.occupied);
    hide Minus, Pruned;
    var r := Refreshed(s);
    forall k: string
      ensures Get(r.available, k) + Get(r.inUse, k) + Get(r.occupied, k) == Get(r.total, k)
    {
      assert Get(r.available, k) == Get(Minus(Minus(s.total, s.inUse), s.occupied), k);
    }
  }

  lemma AddedBalances(s: NodeState, key: string, item: Item)
    requires Balanced(s) && StepFits(s, Add(key, item, true))
    ensures Balanced(Added(s, key, item))
  {
    var usage, res := if item.foreign then s.occupied else s.inUse, item.resource;
    ViewPlus(usage, res);
    ViewMinus(s.available, res);
    hide Plus, Minus, Pruned;
    var r := Added(s, key, item);
    forall k: string
      ensures Get(r.available, k) + Get(r.inUse, k) + Get(r.occupied, k) == Get(r.total, k)
    {
      assert Get(r.available, k) == Get(Minus(s.available, res), k);
      assert Get(s.available, k) + Get(s.inUse, k) + Get(s.occupied, k) == Get(s.total, k);
    }
  }

  lemma RemovedBalances(s: NodeState, key: string)
    requires Balanced(s) && key in s.items && StepFits(s, Remove(key))
    ensures Balanced(Removed(s, key))
  {
    var item := s.items[key];
    ViewMinus(if item.foreign then s.occupied else s.inUse, item.resource);
    ViewPlus(s.available, item.resource);
    hide Plus, Minus, Pruned;
    var r := Removed(s, key);
    forall k: string
      ensures Get(r.available, k) + Get(r.inUse, k) + Get(r.occupied, k) == Get(r.total, k)
    {
      assert !item.foreign ==> Get(r.inUse, k) == Get(Minus(s.inUse, item.resource), k);
      assert Get(s.available, k) + Get(s.inUse, k) + Get(s.occupied, k) == Get(s.total, k);
    }
  }

  lemma ReplacedBalances(s: NodeState, placeholder: string, key: string, item: Item, delta: Amounts)
    requires Balanced(s) && StepFits(s, Replace(placeholder, key, item, delta))
    ensures Balanced(Replaced(s, placeholder, key, item, delta))
  {
    ViewPlus(s.inUse, delta);
    ViewMinus(s.available, delta);
    hide Plus, Minus, Pruned;
    var r := Replaced(s, placeholder, key, item, delta);
    forall k: string
      ensures Get(r.available, k) + Get(r.inUse, k) + Get(r.occupied, k) == Get(r.total, k)
    {
      assert Get(r.available, k) == Get(Minus(s.available, delta), k);
      assert Get(s.available, k) + Get(s.inUse, k) + Get(s.occupied, k) == Get(s.total, k);
    }
  }

  /** Every operation keeps available + allocated + occupied == total, for every type. */
  lemma NextBalances(s: NodeState, op: Op)
    requires Balanced(s) && StepFits(s, op)
    ensures Balanced(Next(s, op))
  {
    hide Balanced, RefreshFits, SumFits, DifferenceFits, Plus, Minus, Pruned, FitIn, Equals;
    match op
    case Add(key, item, force) => AddedBalances(s, key, item);
    case Remove(key) => if key in s.items { RemovedBalances(s, key); }
    case Replace(ph, key, item, delta) => ReplacedBalances(s, ph, key, item, delta);
    case SetCapacity(capacity) =>
      if !Equals(s.total, capacity) { RefreshBalances(s.(total := Pruned(capacity))); }
    case Resize(key, resource) =>
      if key in s.items {
        var item := s.items[key];
        var delta := Delta(item.resource, resource);
        var changed := s.(inUse := Pruned(Plus(s.inUse, delta)), items := s.items[key := item.(resource := resource)]);
        RefreshSame(s.(inUse := Pruned(Plus(s.inUse, delta))), changed);
        RefreshBalances(changed);
      }
    case UpdateForeign(key, item) =>
      if key in s.items {
        var delta := Delta(s.items[key].resource, item.resource);
        var changed := s.(occupied := Pruned(Plus(s.occupied, delta)), items := s.items[key := item]);
        RefreshSame(s.(occupied := Pruned(Plus(s.occupied, delta))), changed);
        RefreshBalances(changed);
      } else {
        BalanceIgnoresItems(s, s.items[key := item]);
      }
  }

  lemma RefreshSame(s: NodeState, t: NodeState)
    requires s.total == t.total && s.inUse == t.inUse && s.occupied == t.occupied
    ensures RefreshFits(s) == RefreshFits(t)
  {
  }

  lemma BalanceIgnoresItems(s: NodeState, items: map<string, Item>)
    requires Balanced(s)
    ensures Balanced(s.(items := items))
  {
  }

  /** Adding with the fit check never makes a quantity of the available resource negative. */
  lemma TryAddStaysNonNegative(s: NodeState, key: string, item: Item)
    requires NonNegative(s.available) && NonNegative(item.resource)
    ensures NonNegative(Next(s, Add(key, item, false)).available)
  {
    if FitIn(s.available, item.resource) {
      var after := Pruned(Minus(s.available, item.resource));
      forall k | k in after
        ensures after[k] >= 0
      {
        assert k in item.resource ==> item.resource[k] <= Get(s.available, k);
      }
    }
  }

  // ---------- the usage fields are sums ----------

  /**
   Replacements carry their own size difference and updates keep the kind: the callers keep to that. A
   key that is added again while it is listed, and a foreign update of an unknown key, are not prevented;
   ReAddTracksIff and UnknownForeignTracksIff say what they do.
   */
  predicate Legal(s: NodeState, op: Op) {
    match op
    case Add(key, item, force) => key in s.items ==> IsZero(s.items[key].resource)
    case Remove(key) => true
    case Replace(ph, key, item, delta) =>
      && ph in s.items && !s.items[ph].foreign && !item.foreign && (key == ph || key !in s.items)
      && delta == Minus(item.resource, s.items[ph].resource) && DifferenceFits(item.resource, s.items[ph].resource)
    case SetCapacity(capacity) => true
    case Resize(key, resource) => key in s.items ==> !s.items[key].foreign
    case UpdateForeign(key, item) => key in s.items && s.items[key].foreign && item.foreign
  }

  lemma SumWith(items: map<string, Item>, key: string, item: Item, foreign: bool, k: string)
    requires key !in items
    ensures Sum(OfKind(items[key := item], foreign, k))
            == Sum(OfKind(items, foreign, k)) + (if item.foreign == foreign then Get(item.resource, k) else 0)
  {
    var m := OfKind(items, foreign, k);
    if item.foreign == foreign {
      assert OfKind(items[key := item], foreign, k) == m[key := Get(item.resource, k) as int];
      SumInsert(m, key, Get(item.resource, k));
    } else {
      assert OfKind(items[key := item], foreign, k) == m;
    }
  }

  lemma SumWithout(items: map<string, Item>, key: string, foreign: bool, k: string)
    requires key in items
    ensures Sum(OfKind(items, foreign, k))
            == Sum(OfKind(items - {key}, foreign, k)) + (if items[key].foreign == foreign then Get(items[key].resource, k) else 0)
  {
    SumWith(items - {key}, key, items[key], foreign, k);
    assert (items - {key})[key := items[key]] == items;
  }

  lemma SumChanged(items: map<string, Item>, key: string, item: Item, foreign: bool, k: string)
    requires key in items && items[key].foreign == item.foreign
    ensures Sum(OfKind(items[key := item], foreign, k))
            == Sum(OfKind(items, foreign, k))
               + (if item.foreign == foreign then Get(item.resource, k) - Get(items[key].resource, k) else 0)
  {
    SumWithout(items, key, foreign, k);
    SumWith(items - {key}, key, item, foreign, k);
    assert (items - {key})[key := item] == items[key := item];
  }

  /** A usage field differs from another one by the resource of an item, or not at all. */
  ghost predicate Differs(usage: Amounts, base: Amounts, added: bool, res: Amounts) {
    forall k: string :: Get(usage, k) == Get(base, k) + (if added then Get(res, k) else 0)
  }

  lemma KindWith(usage: Amounts, items: map<string, Item>, key: string, item: Item, foreign: bool, after: Amounts)
    requires KindTracked(usage, items, foreign) && key !in items
    requires Differs(after, usage, item.foreign == foreign, item.resource)
    ensures KindTracked(after, items[key := item], foreign)
  {
    forall k: string
      ensures Get(after, k) == Sum(OfKind(items[key := item], foreign, k))
    {
      SumWith(items, key, item, foreign, k);
    }
  }

  lemma KindWithout(usage: Amounts, items: map<string, Item>, key: string, foreign: bool, after: Amounts)
    requires KindTracked(usage, items, foreign) && key in items
    requires Differs(usage, after, items[key].foreign == foreign, items[key].resource)
    ensures KindTracked(after, items - {key}, foreign)
  {
    forall k: string
      ensures Get(after, k) == Sum(OfKind(items - {key}, foreign, k))
    {
      SumWithout(items, key, foreign, k);
    }
  }

  lemma AddedDiffers(s: NodeState, key: string, item: Item)
    requires StepFits(s, Add(key, item, true))
    ensures var t := Added(s, key, item);
            && t.items == s.items[key := item]
            && Differs(t.inUse, s.inUse, !item.foreign, item.resource) && Differs(t.occupied, s.occupied, item.foreign, item.resource)
  {
    ViewPlus(if item.foreign then s.occupied else s.inUse, item.resource);
    hide Plus, Minus, Pruned, SumFits, DifferenceFits;
  }

  lemma AddedTracks(s: NodeState, key: string, item: Item)
    requires Tracked(s) && key !in s.items && StepFits(s, Add(key, item, true))
    ensures Tracked(Added(s, key, item))
  {
    AddedDiffers(s, key, item);
    hide Added, Differs, KindTracked, StepFits;
    KindWith(s.inUse, s.items, key, item, false, Added(s, key, item).inUse);
    KindWith(s.occupied, s.items, key, item, true, Added(s, key, item).occupied);
  }

  /** One usage field when the item under a key is overwritten and the new one is charged in full. */
  lemma OverwrittenIff(usage: Amounts, items: map<string, Item>, key: string, item: Item, foreign: bool, after: Amounts)
    requires KindTracked(usage, items, foreign) && key in items
    requires Differs(after, usage, item.foreign == foreign, item.resource)
    ensures KindTracked(after, items[key := item], foreign) <==> (items[key].foreign == foreign ==> IsZero(items[key].resource))
  {
    var prior := items[key];
    forall k: string
      ensures Get(after, k) == Sum(OfKind(items[key := item], foreign, k)) + (if prior.foreign == foreign then Get(prior.resource, k) else 0)
    {
      SumWithout(items, key, foreign, k);
      SumWith(items - {key}, key, item, foreign, k);
      assert (items - {key})[key := item] == items[key := item];
    }
    hide OfKind;
    if KindTracked(after, items[key := item], foreign) && prior.foreign == foreign {
      forall k | k in prior.resource
        ensures prior.resource[k] == 0
      {
        assert Get(after, k) == Sum(OfKind(items[key := item], foreign, k));
      }
    }
  }

  /** Adding a key that is listed charges both sizes. That is right exactly when the replaced item has none. */
  lemma ReAddTracksIff(s: NodeState, key: string, item: Item)
    requires Tracked(s) && key in s.items && StepFits(s, Add(key, item, true))
    ensures Tracked(Added(s, key, item)) <==> IsZero(s.items[key].resource)
  {
    AddedDiffers(s, key, item);
    hide Added, Differs, KindTracked, StepFits, IsZero;
    OverwrittenIff(s.inUse, s.items, key, item, false, Added(s, key, item).inUse);
    OverwrittenIff(s.occupied, s.items, key, item, true, Added(s, key, item).occupied);
  }

  function Cores(n: nat): Amounts
    requires n < 10
  {
    map["vcore" := n]
  }

  lemma CoreMath(n: nat)
    requires 0 < n < 9
    ensures Plus(Cores(n), Cores(1)) == Cores(n + 1) && Minus(Cores(n + 1), Cores(1)) == Cores(n)
    ensures Pruned(Cores(n)) == Cores(n) && FitIn(Cores(n), Cores(1)) && Plus(map[], Cores(1)) == Cores(1)
  {
  }

  /** The same core added twice under one key and removed once: the empty node has a core in use. */
  lemma ReAddExample()
    ensures var add := Add("a", Item(false, Cores(1)), false);
            var left := Next(Next(Next(NewNode(Cores(4)), add), add), Remove("a"));
            left.items == map[] && left.inUse == Cores(1) && left.available == Cores(3)
  {
    hide Plus, Minus, Pruned, FitIn, Cores;
    CoreMath(1);
    CoreMath(2);
    CoreMath(3);
    CoreMath(4);
    var item := Item(false, Cores(1));
    var add := Add("a", item, false);
    assert map["a" := item]["a" := item] == map["a" := item] && map["a" := item] - {"a"} == map[];
    assert Next(NewNode(Cores(4)), add) == NodeState(Cores(4), map[], Cores(1), Cores(3), map["a" := item]);
    assert Next(Next(NewNode(Cores(4)), add), add) == NodeState(Cores(4), map[], Cores(2), Cores(2), map["a" := item]);
  }

  lemma RemovedTracks(s: NodeState, key: string)
    requires Tracked(s) && key in s.items && StepFits(s, Remove(key))
    ensures Tracked(Removed(s, key))
  {
    var item := s.items[key];
    ViewMinus(if item.foreign then s.occupied else s.inUse, item.resource);
    hide Plus, Minus, Pruned, KindTracked, SumFits, DifferenceFits;
    assert SameView(Pruned(Minus(s.inUse, item.resource)), Minus(s.inUse, item.resource));
    KindWithout(s.inUse, s.items, key, false, Removed(s, key).inUse);
    KindWithout(s.occupied, s.items, key, true, Removed(s, key).occupied);
  }

  lemma ReplacedTracks(s: NodeState, ph: string, key: string, item: Item, delta: Amounts)
    requires Tracked(s) && Legal(s, Replace(ph, key, item, delta)) && StepFits(s, Replace(ph, key, item, delta))
    ensures Tracked(Replaced(s, ph, key, item, delta))
  {
    ViewPlus(s.inUse, delta);
    ViewMinus(item.resource, s.items[ph].resource);
    var items := (s.items - {ph})[key := item];
    forall k: string
      ensures Get(Plus(s.inUse, delta), k) == Sum(OfKind(items, false, k))
      ensures Get(s.occupied, k) == Sum(OfKind(items, true, k))
    {
      hide Plus, Minus, Pruned, OfKind, SumFits, DifferenceFits;
      SumWithout(s.items, ph, false, k);
      SumWithout(s.items, ph, true, k);
      SumWith(s.items - {ph}, key, item, false, k);
      SumWith(s.items - {ph}, key, item, true, k);
    }
  }

  lemma KindChanged(usage: Amounts, items: map<string, Item>, key: string, item: Item, foreign: bool, after: Amounts, delta: Amounts)
    requires KindTracked(usage, items, foreign) && key in items && items[key].foreign == item.foreign
    requires forall k: string :: Get(delta, k) == Get(item.resource, k) - Get(items[key].resource, k)
    requires Differs(after, usage, item.foreign == foreign, delta)
    ensures KindTracked(after, items[key := item], foreign)
  {
    forall k: string
      ensures Get(after, k) == Sum(OfKind(items[key := item], foreign, k))
    {
      SumChanged(items, key, item, foreign, k);
    }
  }

  lemma ChangedTracks(s: NodeState, key: string, item: Item, t: NodeState)
    requires Tracked(s) && key in s.items && s.items[key].foreign == item.foreign
    requires DifferenceFits(item.resource, s.items[key].resource)
    requires SumFits(if item.foreign then s.occupied else s.inUse, Delta(s.items[key].resource, item.resource))
    requires t.items == s.items[key := item]
    requires var usage := Pruned(Plus(if item.foreign then s.occupied else s.inUse, Delta(s.items[key].resource, item.resource)));
             if item.foreign then t.inUse == s.inUse && t.occupied == usage else t.inUse == usage && t.occupied == s.occupied
    ensures Tracked(t)
  {
    var prior := s.items[key].resource;
    var base, delta := if item.foreign then s.occupied else s.inUse, Delta(prior, item.resource);
    ViewPlus(base, delta);
    ViewMinus(item.resource, prior);
    hide Plus, Minus, Pruned, KindTracked, SumFits, DifferenceFits;
    forall k: string
      ensures Get(delta, k) == Get(item.resource, k) - Get(prior, k)
    {
      assert Get(delta, k) == Get(Minus(item.resource, prior), k);
    }
    assert SameView(Pruned(Plus(base, delta)), Plus(base, delta));
    KindChanged(s.inUse, s.items, key, item, false, t.inUse, delta);
    KindChanged(s.occupied, s.items, key, item, true, t.occupied, delta);
  }

  lemma NextTracks(s: NodeState, op: Op)
    requires Tracked(s) && Legal(s, op) && StepFits(s, op)
    ensures Tracked(Next(s, op))
  {
    hide Plus, Minus, Pruned, OfKind, SumFits, DifferenceFits, RefreshFits, FitIn, Equals;
    match op
    case Add(key, item, force) =>
      if key in s.items { ReAddTracksIff(s, key, item); } else { AddedTracks(s, key, item); }
    case Remove(key) => if key in s.items { RemovedTracks(s, key); }
    case Replace(ph, key, item, delta) => ReplacedTracks(s, ph, key, item, delta);
    case SetCapacity(capacity) =>
    case Resize(key, resource) =>
      if key in s.items { ChangedTracks(s, key, s.items[key].(resource := resource), Resized(s, key, resource)); }
    case UpdateForeign(key, item) => ChangedTracks(s, key, item, ForeignUpdated(s, key, item));
  }

  /** A foreign update for a key the node does not know is stored but not accounted. */
  lemma UnknownForeignTracksIff(s: NodeState, key: string, item: Item)
    requires Tracked(s) && key !in s.items
    ensures Tracked(ForeignUpdated(s, key, item)) <==> IsZero(item.resource)
  {
    var t := ForeignUpdated(s, key, item);
    forall k: string
      ensures Sum(OfKind(t.items, true, k)) == Get(s.occupied, k) + (if item.foreign then Get(item.resource, k) else 0)
      ensures Sum(OfKind(t.items, false, k)) == Get(s.inUse, k) + (if item.foreign then 0 else Get(item.resource, k))
    {
      SumWith(s.items, key, item, true, k);
      SumWith(s.items, key, item, false, k);
    }
    hide OfKind;
    if Tracked(t) {
      forall k | k in item.resource
        ensures item.resource[k] == 0
      {
        assert Get(t.inUse, k) == Sum(OfKind(t.items, false, k)) && Get(t.occupied, k) == Sum(OfKind(t.items, true, k));
      }
    }
  }

  lemma UsageAfterChange(s: NodeState, prior: Amounts, resource: Amounts, k: string)
    requires DifferenceFits(resource, prior) && SumFits(s.inUse, Delta(prior, resource))
    ensures Get(UsageChanged(s, Delta(prior, resource)).inUse, k) == Get(s.inUse, k) + Get(resource, k) - Get(prior, k)
  {
    ViewPlus(s.inUse, Delta(prior, resource));
    ViewMinus(resource, prior);
    hide Plus, Minus, Pruned, SumFits, DifferenceFits;
    assert Get(Delta(prior, resource), k) == Get(Minus(resource, prior), k);
    assert SameView(Pruned(Plus(s.inUse, Delta(prior, resource))), Plus(s.inUse, Delta(prior, resource)));
  }

  /**
   A new size of an ask that the node does not hold, as in a swap that is not confirmed, is charged to
   the usage all the same. That is right exactly when no type changes.
   */
  lemma UnlistedResizeTracksIff(s: NodeState, prior: Amounts, resource: Amounts)
    requires Tracked(s) && DifferenceFits(resource, prior) && SumFits(s.inUse, Delta(prior, resource))
    ensures Tracked(UsageChanged(s, Delta(prior, resource))) <==> SameView(resource, prior)
  {
    var t := UsageChanged(s, Delta(prior, resource));
    assert t.items == s.items && t.occupied == s.occupied;
    hide UsageChanged, DifferenceFits, SumFits, KindTracked;
    forall k: string
      ensures Get(t.inUse, k) == Get(s.inUse, k) + Get(resource, k) - Get(prior, k)
    {
      UsageAfterChange(s, prior, resource, k);
    }
    MovedTracksIff(s.inUse, t.inUse, s.items, prior, resource);
  }

  lemma MovedTracksIff(usage: Amounts, after: Amounts, items: map<string, Item>, prior: Amounts, resource: Amounts)
    requires KindTracked(usage, items, false)
    requires forall k: string :: Get(after, k) == Get(usage, k) + Get(resource, k) - Get(prior, k)
    ensures KindTracked(after, items, false) <==> SameView(resource, prior)
  {
    hide OfKind;
    if KindTracked(after, items, false) {
      forall k: string
        ensures Get(resource, k) == Get(prior, k)
      {
        assert Get(after, k) == Sum(OfKind(items, false, k)) && Get(usage, k) == Sum(OfKind(items, false, k));
      }
    }
  }

  // ---------- whole runs ----------

  /** A run in which every step is legal and exact, and the state it ends in. */
  ghost predicate IsRun(capacity: Amounts, ops: seq<Op>, s: NodeState)
    decreases |ops|
  {
    if ops == [] then
      s == NewNode(capacity)
    else
      var last := ops[|ops| - 1];
      exists before: NodeState ::
        IsRun(capacity, ops[..|ops| - 1], before) && Legal(before, last) && StepFits(before, last) && s == Next(before, last)
  }

  /** After any run a node is balanced, and its usage is the sum of its allocations. */
  lemma {:induction false} RunKeepsAccounts(capacity: Amounts, ops: seq<Op>, s: NodeState)
    requires IsRun(capacity, ops, s)
    ensures Balanced(s) && Tracked(s)
    decreases |ops|
  {
    if ops == [] {
      NewNodeKeepsAccounts(capacity);
    } else {
      hide Balanced, Tracked, StepFits, Legal, Next;
      var last := ops[|ops| - 1];
      var before: NodeState :|
        IsRun(capacity, ops[..|ops| - 1], before) && Legal(before, last) && StepFits(before, last) && s == Next(before, last);
      RunKeepsAccounts(capacity, ops[..|ops| - 1], before);
      NextBalances(before, last);
      NextTracks(before, last);
    }
  }

  lemma NewNodeKeepsAccounts(capacity: Amounts)
    ensures Balanced(NewNode(capacity)) && Tracked(NewNode(capacity))
  {
    forall k: string, foreign: bool
      ensures Sum(OfKind(map[], foreign, k)) == 0
    {
      SumEmpty<string>();
      assert OfKind(map[], foreign, k) == map[];
    }
  }
}
