/** A running total that is kept equal to the sum of the sizes of a group of allocations. */
module TrackedTotals {
  import opened Quantities
  import opened Resources
  import opened Allocations
  import opened MapSums

  /** What changes about an allocation: its state, size, release mark and the allocation it is swapped with. */
  datatype Fact = Fact(placed: bool, resource: Amounts, released: bool, link: Option<Allocation>)

  type Facts = map<Allocation, Fact>
  type Group = map<string, Allocation>

  function SizeOf(facts: Facts, a: Allocation): Amounts {
    if a in facts then facts[a].resource else map[]
  }

  function SizesOf(facts: Facts, group: Group, t: string): map<string, int> {
    map k | k in group :: Get(SizeOf(facts, group[k]), t) as int
  }

  ghost function TotalOf(facts: Facts, group: Group, t: string): int {
    Sum(SizesOf(facts, group, t))
  }

  ghost predicate Tracks(total: Amounts, facts: Facts, group: Group) {
    forall t: string :: Get(total, t) == TotalOf(facts, group, t)
  }

  predicate NoNegativeSizes(facts: Facts) {
    forall a | a in facts :: NonNegative(facts[a].resource)
  }

  /** The sums over the group are 64 bit numbers. */
  ghost predicate Summable(facts: Facts, group: Group) {
    forall t: string :: TotalOf(facts, group, t) <= MAX_INT64
  }

  // ---------- one type ----------

  lemma TotalInserted(facts: Facts, group: Group, k: string, a: Allocation, t: string)
    requires k !in group
    ensures TotalOf(facts, group[k := a], t) == TotalOf(facts, group, t) + Get(SizeOf(facts, a), t)
  {
    SumInsert(SizesOf(facts, group, t), k, Get(SizeOf(facts, a), t));
    assert SizesOf(facts, group[k := a], t) == SizesOf(facts, group, t)[k := Get(SizeOf(facts, a), t)];
  }

  lemma TotalRemoved(facts: Facts, group: Group, k: string, t: string)
    requires k in group
    ensures TotalOf(facts, group - {k}, t) == TotalOf(facts, group, t) - Get(SizeOf(facts, group[k]), t)
  {
    TotalInserted(facts, group - {k}, k, group[k], t);
    assert (group - {k})[k := group[k]] == group;
  }

  lemma TotalIsNotNegative(facts: Facts, group: Group, t: string)
    requires NoNegativeSizes(facts)
    ensures 0 <= TotalOf(facts, group, t)
  {
    SumNonNegative(SizesOf(facts, group, t));
  }

  lemma PlusAt(a: Amounts, b: Amounts, t: string)
    ensures Get(Plus(a, b), t) == SatAdd(Get(a, t), Get(b, t))
  {
  }

  lemma MinusAt(a: Amounts, b: Amounts, t: string)
    ensures Get(Minus(a, b), t) == SatSub(Get(a, t), Get(b, t))
  {
  }

  lemma NonNegativeAt(a: Amounts, t: string)
    requires NonNegative(a)
    ensures 0 <= Get(a, t)
  {
  }

  // ---------- the total follows the group ----------

  lemma PruningTracks(total: Amounts, facts: Facts, group: Group)
    requires Tracks(total, facts, group)
    ensures Tracks(Pruned(total), facts, group)
  {
  }

  lemma SizeIsNotNegative(facts: Facts, a: Allocation, t: string)
    requires NoNegativeSizes(facts)
    ensures 0 <= Get(SizeOf(facts, a), t)
  {
  }

  lemma InsertTracks(total: Amounts, facts: Facts, group: Group, k: string, a: Allocation)
    requires Tracks(total, facts, group) && k !in group
    requires NoNegativeSizes(facts) && Summable(facts, group[k := a])
    ensures Tracks(Plus(total, SizeOf(facts, a)), facts, group[k := a])
  {
    hide SizeOf, Plus, TotalOf;
    forall t: string
      ensures Get(Plus(total, SizeOf(facts, a)), t) == TotalOf(facts, group[k := a], t)
    {
      TotalInserted(facts, group, k, a, t);
      TotalIsNotNegative(facts, group[k := a], t);
      PlusAt(total, SizeOf(facts, a), t);
    }
  }

  lemma RemoveTracks(total: Amounts, facts: Facts, group: Group, k: string)
    requires Tracks(total, facts, group) && k in group && NoNegativeSizes(facts)
    ensures Tracks(Minus(total, SizeOf(facts, group[k])), facts, group - {k})
  {
    hide SizeOf, Minus, TotalOf;
    forall t: string
      ensures Get(Minus(total, SizeOf(facts, group[k])), t) == TotalOf(facts, group - {k}, t)
    {
      TotalRemoved(facts, group, k, t);
      TotalIsNotNegative(facts, group - {k}, t);
      SizeIsNotNegative(facts, group[k], t);
      MinusAt(total, SizeOf(facts, group[k]), t);
    }
  }

  /** Only the sizes matter, and only those of the members. */
  lemma SameSizesTrack(total: Amounts, facts: Facts, after: Facts, group: Group)
    requires Tracks(total, facts, group)
    requires forall k | k in group :: SizeOf(after, group[k]) == SizeOf(facts, group[k])
    ensures Tracks(total, after, group)
  {
    hide SizeOf;
    forall t: string
      ensures TotalOf(after, group, t) == TotalOf(facts, group, t)
    {
      assert SizesOf(after, group, t) == SizesOf(facts, group, t);
    }
  }

  lemma EmptyTracks(facts: Facts)
    ensures Tracks(map[], facts, map[])
  {
    forall t: string
      ensures TotalOf(facts, map[], t) == 0
    {
      assert SizesOf(facts, map[], t) == map[];
      SumEmpty<string>();
    }
  }

  /** One member takes the place of another; the difference in size is added to the total. */
  lemma ReplaceTracks(total: Amounts, facts: Facts, group: Group, k: string, a: Allocation)
    requires Tracks(total, facts, group) && k in group
    requires NoNegativeSizes(facts) && Summable(facts, group[k := a])
    ensures Tracks(Plus(total, Minus(SizeOf(facts, a), SizeOf(facts, group[k]))), facts, group[k := a])
  {
    hide SizeOf, Plus, Minus, TotalOf;
    var delta := Minus(SizeOf(facts, a), SizeOf(facts, group[k]));
    assert (group - {k})[k := a] == group[k := a];
    forall t: string
      ensures Get(Plus(total, delta), t) == TotalOf(facts, group[k := a], t)
    {
      TotalRemoved(facts, group, k, t);
      TotalInserted(facts, group - {k}, k, a, t);
      TotalIsNotNegative(facts, group[k := a], t);
      SizeIsNotNegative(facts, group[k], t);
      SizeIsNotNegative(facts, a, t);
      MinusAt(SizeOf(facts, a), SizeOf(facts, group[k]), t);
      PlusAt(total, delta, t);
    }
  }

  /** The change of size of one member, added to the total. */
  lemma ResizeTracks(total: Amounts, facts: Facts, after: Facts, group: Group, k: string)
    requires Tracks(total, facts, group) && k in group
    requires forall j | j in group && j != k :: SizeOf(after, group[j]) == SizeOf(facts, group[j])
    requires NoNegativeSizes(facts) && NoNegativeSizes(after) && Summable(after, group)
    ensures var delta := Pruned(Minus(SizeOf(after, group[k]), SizeOf(facts, group[k])));
            Tracks(Plus(total, delta), after, group)
  {
    hide SizeOf, Plus, Minus, TotalOf;
    var a := group[k];
    var delta := Pruned(Minus(SizeOf(after, a), SizeOf(facts, a)));
    forall t: string
      ensures Get(Plus(total, delta), t) == TotalOf(after, group, t)
    {
      TotalResized(facts, after, group, k, t);
      TotalIsNotNegative(after, group, t);
      SizeIsNotNegative(facts, a, t);
      SizeIsNotNegative(after, a, t);
      MinusAt(SizeOf(after, a), SizeOf(facts, a), t);
      PrunedAt(Minus(SizeOf(after, a), SizeOf(facts, a)), t);
      PlusAt(total, delta, t);
    }
  }

  lemma PrunedAt(a: Amounts, t: string)
    ensures Get(Pruned(a), t) == Get(a, t)
  {
  }

  lemma TotalResized(facts: Facts, after: Facts, group: Group, k: string, t: string)
    requires k in group
    requires forall j | j in group && j != k :: SizeOf(after, group[j]) == SizeOf(facts, group[j])
    ensures TotalOf(after, group, t)
            == TotalOf(facts, group, t) - Get(SizeOf(facts, group[k]), t) + Get(SizeOf(after, group[k]), t)
  {
    hide SizeOf;
    var size := Get(SizeOf(after, group[k]), t);
    SumReplace(SizesOf(facts, group, t), k, size);
    assert SizesOf(after, group, t) == SizesOf(facts, group, t)[k := size];
  }
}
