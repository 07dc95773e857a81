/**
 One allocation of one core, asked for and placed. Rollback and resize book a placeholder as a real
 allocation. A real allocation whose ask returns to pending too early is counted twice.
 */
module BookingExamples {
  import opened Quantities
  import opened Resources
  import opened Allocations
  import opened PendingPriorities
  import opened TrackedTotals
  import opened ApplicationBooks
  import opened ApplicationSteps
  import opened ApplicationRuns
  import opened PlaceholderSwaps
  import SortedAsks

  const CORE: Amounts := map["vcore" := 1]
  const ASKED := Fact(false, CORE, false, None)

  ghost function Steps(ph: Allocation): seq<Op> {
    [AddAsk(ph, ASKED), Place(ph.key)]
  }

  ghost function Asked(ph: Allocation): Books {
    Next(NEW, AddAsk(ph, ASKED))
  }

  ghost function PlacedOne(ph: Allocation): Books {
    Next(Asked(ph), Place(ph.key))
  }

  lemma AskedIs(ph: Allocation)
    ensures var b := Asked(ph);
            && b.facts == map[ph := ASKED] && b.requests == map[ph.key := ph] && b.allocations == map[]
            && b.pending == CORE && b.allocatedResource == map[] && b.allocatedPlaceholder == map[]
  {
    hide Incremented, SortedAsks.Inserted;
    assert "vcore" in CORE && !IsZero(CORE);
    assert Plus(map[], CORE) == CORE && Pruned(CORE) == CORE;
  }

  lemma PlacedIs(ph: Allocation)
    ensures var b := PlacedOne(ph);
            && b.facts == map[ph := ASKED.(placed := true)] && b.requests == map[ph.key := ph] && b.allocations == map[ph.key := ph]
            && b.allocatedResource == (if ph.placeholder then map[] else CORE)
            && b.allocatedPlaceholder == (if ph.placeholder then CORE else map[])
  {
    AskedIs(ph);
    hide Asked, Decremented;
    assert Plus(map[], CORE) == CORE;
  }

  lemma OneMember(facts: Facts, a: Allocation, t: string)
    ensures TotalOf(facts, map[a.key := a], t) == Get(SizeOf(facts, a), t) && TotalOf(facts, map[], t) == 0
  {
    EmptyTracks(facts);
    TotalInserted(facts, map[], a.key, a, t);
  }

  predicate AtMost(group: Group, a: Allocation) {
    group == map[] || group == map[a.key := a]
  }

  lemma OneIsSummable(b: Books, a: Allocation)
    requires SizeOf(b.facts, a) == CORE
    requires AtMost(Pending(b), a) && AtMost(OfKind(b.allocations, false), a) && AtMost(OfKind(b.allocations, true), a)
    ensures AllSummable(b)
  {
    hide TotalOf, Pending, OfKind;
    forall t: string
      ensures TotalOf(b.facts, map[a.key := a], t) <= MAX_INT64 && TotalOf(b.facts, map[], t) <= MAX_INT64
    {
      OneMember(b.facts, a, t);
    }
  }

  lemma GroupsOfOne(b: Books, a: Allocation)
    requires b.requests == map[a.key := a] && AtMost(b.allocations, a)
    ensures AtMost(Pending(b), a) && AtMost(OfKind(b.allocations, false), a) && AtMost(OfKind(b.allocations, true), a)
  {
    assert Pending(b) == if Placed(b, a) then map[] else map[a.key := a];
    assert a.placeholder ==> OfKind(b.allocations, false) == map[] && OfKind(b.allocations, true) == b.allocations;
    assert !a.placeholder ==> OfKind(b.allocations, true) == map[] && OfKind(b.allocations, false) == b.allocations;
  }

  /** The books are reached by a legal run from a new application, and they are sound. */
  lemma Reached(ph: Allocation)
    ensures LegalRun(NEW, Steps(ph)) && Run(NEW, Steps(ph)) == PlacedOne(ph) && Sound(PlacedOne(ph))
  {
    AskedIs(ph);
    PlacedIs(ph);
    GroupsOfOne(Asked(ph), ph);
    GroupsOfOne(PlacedOne(ph), ph);
    OneIsSummable(Asked(ph), ph);
    OneIsSummable(PlacedOne(ph), ph);
    assert Legal(NEW, AddAsk(ph, ASKED)) && Legal(Asked(ph), Place(ph.key));
    hide Sound, Legal, Next, AllSummable, Pending, OfKind;
    assert Steps(ph)[1..] == [Place(ph.key)] && [Place(ph.key)][1..] == [];
    NewIsSound();
    StepKeepsSound(NEW, AddAsk(ph, ASKED));
    StepKeepsSound(Asked(ph), Place(ph.key));
    TwoSteps(AddAsk(ph, ASKED), Place(ph.key));
  }

  lemma TwoSteps(first: Op, second: Op)
    requires Legal(NEW, first) && AllSummable(Next(NEW, first))
    requires Legal(Next(NEW, first), second) && AllSummable(Next(Next(NEW, first), second))
    ensures LegalRun(NEW, [first, second]) && Run(NEW, [first, second]) == Next(Next(NEW, first), second)
  {
    hide Legal, Next, AllSummable;
    var last := [second];
    assert [first, second][1..] == last && last[1..] == [];
    assert LegalRun(Next(NEW, first), last) && Run(Next(NEW, first), last) == Next(Next(NEW, first), second);
  }

  lemma WrongTotalsAreNotSound(b: Books)
    requires !TotalsTrack(b)
    ensures !Sound(b)
  {
  }

  /** The books hold the placeholder and nothing else. */
  predicate HoldsOnly(b: Books, ph: Allocation) {
    && b.facts == map[ph := ASKED.(placed := true)] && b.requests == map[ph.key := ph] && b.allocations == map[ph.key := ph]
    && b.allocatedResource == map[] && b.allocatedPlaceholder == CORE
  }

  lemma RolledBackIs(b: Books, ph: Allocation)
    requires HoldsOnly(b, ph)
    ensures var r := RolledBack(b, ph.key);
            r.allocations == map[] && r.allocatedResource == map["vcore" := -1] && r.allocatedPlaceholder == CORE
  {
    hide Incremented;
    assert Pruned(Minus(map[], CORE)) == map["vcore" := -1];
  }

  lemma ResizedIs(b: Books, ph: Allocation)
    requires HoldsOnly(b, ph)
    ensures var more: Amounts := map["vcore" := 3];
            && !ResizeBooked(b, ph.key, more) == ph.placeholder
            && SumFits(b.allocatedResource, Pruned(Minus(more, SizeOf(b.facts, ph))))
            && Resized(b, ph.key, more).allocatedResource == map["vcore" := 2]
            && Resized(b, ph.key, more).allocatedPlaceholder == CORE
  {
    var more, delta: Amounts := map["vcore" := 3], map["vcore" := 2];
    assert "vcore" in more && "vcore" in delta && !IsZero(more) && !IsZero(delta);
    assert SizeOf(b.facts, ph) == CORE && Minus(more, CORE) == delta;
    assert Pruned(delta) == delta && Plus(map[], delta) == delta;
  }

  /** The rollback leaves a negative total of real allocations and a placeholder total for nothing. */
  lemma RollbackExample(ph: Allocation)
    requires ph.placeholder
    ensures var b := Run(NEW, Steps(ph));
            var r := RolledBack(b, ph.key);
            && LegalRun(NEW, Steps(ph)) && Sound(b)
            && r.allocations == map[] && r.allocatedResource == map["vcore" := -1] && r.allocatedPlaceholder == CORE && !Sound(r)
  {
    Reached(ph);
    PlacedIs(ph);
    hide Run, LegalRun, Steps, Sound, PlacedOne, RolledBack, TotalsTrack;
    RolledBackIs(PlacedOne(ph), ph);
    PlaceholderRollbackIsWrong(PlacedOne(ph), ph.key);
    WrongTotalsAreNotSound(RolledBack(PlacedOne(ph), ph.key));
  }

  /** The two cores more are booked on the total of the real allocations. */
  lemma ResizeExample(ph: Allocation)
    requires ph.placeholder
    ensures var b := Run(NEW, Steps(ph));
            var r := Resized(b, ph.key, map["vcore" := 3]);
            && LegalRun(NEW, Steps(ph)) && Sound(b)
            && r.allocatedResource == map["vcore" := 2] && r.allocatedPlaceholder == CORE && !Sound(r)
  {
    Reached(ph);
    PlacedIs(ph);
    hide Run, LegalRun, Steps, Sound, PlacedOne, Resized, TotalsTrack, ResizeBooked, SumFits;
    ResizedIs(PlacedOne(ph), ph);
    MisplacedResizeIsWrong(PlacedOne(ph), ph.key, map["vcore" := 3]);
    WrongTotalsAreNotSound(Resized(PlacedOne(ph), ph.key, map["vcore" := 3]));
  }

  // ---------- an ask that returns too early ----------

  lemma {:induction false} RunMore(b: Books, ops: seq<Op>, op: Op)
    requires LegalRun(b, ops) && Legal(Run(b, ops), op) && AllSummable(Next(Run(b, ops), op))
    ensures LegalRun(b, ops + [op]) && Run(b, ops + [op]) == Next(Run(b, ops), op)
    decreases |ops|
  {
    hide Legal, Next, AllSummable;
    if ops == [] {
      assert [op][1..] == [] && ops + [op] == [op];
    } else {
      assert (ops + [op])[1..] == ops[1..] + [op];
      RunMore(Next(b, ops[0]), ops[1..], op);
    }
  }

  ghost function Returned(a: Allocation): Books {
    Next(PlacedOne(a), Unwind(a.key))
  }

  lemma ReturnedIs(a: Allocation)
    requires !a.placeholder
    ensures var b := Returned(a);
            && b.facts == map[a := ASKED] && b.requests == map[a.key := a] && b.allocations == map[a.key := a]
            && b.allocatedResource == CORE && b.allocatedPlaceholder == map[]
  {
    PlacedIs(a);
    hide PlacedOne, Incremented;
  }

  lemma MayReturn(a: Allocation)
    ensures Legal(PlacedOne(a), Unwind(a.key))
  {
    PlacedIs(a);
    hide PlacedOne;
  }

  lemma ReturnedIsSummable(a: Allocation)
    requires !a.placeholder
    ensures AllSummable(Returned(a))
  {
    ReturnedIs(a);
    hide Returned, AllSummable, Pending, OfKind;
    GroupsOfOne(Returned(a), a);
    OneIsSummable(Returned(a), a);
  }

  lemma ReachedReturned(a: Allocation)
    requires !a.placeholder
    ensures LegalRun(NEW, Steps(a) + [Unwind(a.key)]) && Run(NEW, Steps(a) + [Unwind(a.key)]) == Returned(a) && Sound(Returned(a))
  {
    hide Sound, Legal, Next, AllSummable, Steps, Run, LegalRun, PlacedOne;
    Reached(a);
    MayReturn(a);
    ReturnedIsSummable(a);
    StepKeepsSound(PlacedOne(a), Unwind(a.key));
    RunMore(NEW, Steps(a), Unwind(a.key));
  }

  lemma TwiceIs(b: Books, a: Allocation)
    requires !a.placeholder && b.facts == map[a := ASKED] && b.requests == map[a.key := a] && b.allocations == map[a.key := a]
    requires b.allocatedResource == CORE
    ensures var twice := Next(b, Place(a.key));
            && twice.facts == map[a := ASKED.(placed := true)] && twice.allocations == map[a.key := a]
            && twice.allocatedResource == map["vcore" := 2]
  {
    hide Decremented, Minus, Pruned;
    var two: Amounts := map["vcore" := 2];
    assert Plus(CORE, CORE) == two;
  }

  lemma LeftIs(b: Books, a: Allocation)
    requires !a.placeholder && a in b.facts && b.facts[a].resource == CORE && b.allocations == map[a.key := a]
    requires b.allocatedResource == map["vcore" := 2]
    ensures var left := Next(b, RemoveAllocation(a.key)); left.allocations == map[] && left.allocatedResource == CORE
  {
    assert Minus(b.allocatedResource, CORE) == CORE && Pruned(CORE) == CORE;
    assert map[a.key := a] - {a.key} == map[];
  }

  lemma NothingIsNotCore(b: Books)
    requires b.allocations == map[] && b.allocatedResource == CORE
    ensures !Sound(b)
  {
    hide HistogramAgrees, WellFormed, LinksMatch;
    assert OfKind(b.allocations, false) == map[];
    EmptyTracks(b.facts);
    assert Get(b.allocatedResource, "vcore") == 1 && Get(map[], "vcore") == 0;
  }

  /**
   The ask returns while its allocation is still there, and is placed again: it is counted twice. After
   the removal of the allocation the application has nothing and its total says one core.
   */
  lemma UnwindExample(a: Allocation)
    requires !a.placeholder
    ensures var ops := Steps(a) + [Unwind(a.key)];
            var twice := Next(Run(NEW, ops), Place(a.key));
            var left := Next(twice, RemoveAllocation(a.key));
            && LegalRun(NEW, ops) && Sound(Run(NEW, ops)) && !PlacedOnce(Run(NEW, ops), a.key)
            && twice.allocations == map[a.key := a] && twice.allocatedResource == map["vcore" := 2]
            && left.allocations == map[] && left.allocatedResource == CORE && !Sound(left)
  {
    ReachedReturned(a);
    ReturnedIs(a);
    hide Run, LegalRun, Steps, Sound, Returned, Next;
    TwiceIs(Returned(a), a);
    LeftIs(Next(Returned(a), Place(a.key)), a);
    NothingIsNotCore(Next(Next(Returned(a), Place(a.key)), RemoveAllocation(a.key)));
  }

  // ---------- a swap of an ask that is listed ----------

  /** Two allocations of one core each, the first real and the second a placeholder. */
  predicate Two(a: Allocation, ph: Allocation) {
    a.key != ph.key && !a.placeholder && ph.placeholder
  }

  const HELD := ASKED.(placed := true)

  /** Both are requested, with the given facts, and the given ones are allocated. */
  ghost predicate Holds(b: Books, a: Allocation, ph: Allocation, fa: Fact, fp: Fact, allocations: Group, total: Amounts) {
    && b.facts == map[a := fa, ph := fp] && b.requests == map[a.key := a, ph.key := ph]
    && b.allocations == allocations && b.allocatedResource == total
  }

  lemma AtMostTwo(facts: Facts, group: Group, a: Allocation, ph: Allocation, t: string)
    requires forall k | k in group :: k in {a.key, ph.key} && SizeOf(facts, group[k]) == CORE
    ensures TotalOf(facts, group, t) <= 2
  {
    hide TotalOf, SizeOf;
    EmptyTracks(facts);
    var rest := group - {a.key};
    if a.key in group {
      TotalRemoved(facts, group, a.key, t);
    } else {
      assert rest == group;
    }
    var none := rest - {ph.key};
    if ph.key in rest {
      TotalRemoved(facts, rest, ph.key, t);
    } else {
      assert none == rest;
    }
    assert none == map[];
    assert Get(CORE, t) <= 1;
  }

  lemma TwoAreSummable(b: Books, a: Allocation, ph: Allocation, fa: Fact, fp: Fact, allocations: Group, total: Amounts)
    requires Two(a, ph) && Holds(b, a, ph, fa, fp, allocations, total) && fa.resource == CORE && fp.resource == CORE
    requires forall k | k in allocations :: allocations[k] in {a, ph} && allocations[k].key == k
    ensures AllSummable(b)
  {
    forall t: string
      ensures TotalOf(b.facts, Pending(b), t) <= 2 && TotalOf(b.facts, OfKind(b.allocations, false), t) <= 2
      ensures TotalOf(b.facts, OfKind(b.allocations, true), t) <= 2
    {
      AtMostTwo(b.facts, Pending(b), a, ph, t);
      AtMostTwo(b.facts, OfKind(b.allocations, false), a, ph, t);
      AtMostTwo(b.facts, OfKind(b.allocations, true), a, ph, t);
    }
    hide TotalOf, Pending, OfKind;
  }

  lemma SecondAskIs(a: Allocation, ph: Allocation)
    requires Two(a, ph)
    ensures Legal(Asked(a), AddAsk(ph, ASKED))
    ensures Holds(Next(Asked(a), AddAsk(ph, ASKED)), a, ph, ASKED, ASKED, map[], map[])
  {
    AskedIs(a);
    hide Asked, Incremented, Plus, Minus, Pruned, SortedAsks.Inserted;
    assert "vcore" in CORE && !IsZero(CORE);
  }

  lemma PairUpdates(a: Allocation, ph: Allocation, fa: Fact, fp: Fact, placed: bool, link: Option<Allocation>)
    requires a != ph
    ensures var f: Facts := map[a := fa, ph := fp];
            && SetPlaced(f, a, placed) == map[a := fa.(placed := placed), ph := fp]
            && SetPlaced(f, ph, placed) == map[a := fa, ph := fp.(placed := placed)]
            && SetLink(f, a, link) == map[a := fa.(link := link), ph := fp]
            && SetLink(f, ph, link) == map[a := fa, ph := fp.(link := link)]
            && SetReleased(f, ph) == map[a := fa, ph := fp.(released := true)]
  {
  }

  lemma PlaceRealIs(b: Books, a: Allocation, ph: Allocation)
    requires Two(a, ph) && Holds(b, a, ph, ASKED, ASKED, map[], map[])
    ensures Legal(b, Place(a.key)) && Holds(Next(b, Place(a.key)), a, ph, HELD, ASKED, map[a.key := a], CORE)
  {
    hide Decremented, Minus, Pruned, Plus, SetPlaced;
    CorePlus();
    PairUpdates(a, ph, ASKED, ASKED, true, None);
  }

  lemma CorePlus()
    ensures Plus(map[], CORE) == CORE
  {
  }

  lemma ReturnRealIs(b: Books, a: Allocation, ph: Allocation)
    requires Two(a, ph) && Holds(b, a, ph, HELD, ASKED, map[a.key := a], CORE)
    ensures Holds(Next(b, Unwind(a.key)), a, ph, ASKED, ASKED, map[a.key := a], CORE)
  {
    hide Incremented, Plus, SetPlaced;
    PairUpdates(a, ph, HELD, ASKED, false, None);
  }

  lemma PlaceOtherIs(b: Books, a: Allocation, ph: Allocation)
    requires Two(a, ph) && Holds(b, a, ph, ASKED, ASKED, map[a.key := a], CORE)
    ensures Legal(b, Place(ph.key))
    ensures Holds(Next(b, Place(ph.key)), a, ph, ASKED, HELD, map[a.key := a, ph.key := ph], CORE)
  {
    hide Decremented, Minus, Pruned, Plus, SetPlaced;
    PairUpdates(a, ph, ASKED, ASKED, true, None);
  }

  lemma MaySwapListed(b: Books, a: Allocation, ph: Allocation)
    requires Two(a, ph) && Holds(b, a, ph, ASKED, HELD, map[a.key := a, ph.key := ph], CORE)
    ensures Legal(b, Swap(ph, a, false))
  {
  }

  lemma SwapListedIs(b: Books, a: Allocation, ph: Allocation)
    requires Two(a, ph) && Holds(b, a, ph, ASKED, HELD, map[a.key := a, ph.key := ph], CORE)
    ensures Holds(Next(b, Swap(ph, a, false)), a, ph, HELD.(link := Some(ph)), HELD.(released := true, link := Some(a)),
                  map[a.key := a, ph.key := ph], CORE)
  {
    hide Decremented, Minus, Pruned, SetPlaced, SetLink, SetReleased;
    PairUpdates(a, ph, ASKED, HELD, true, None);
    PairUpdates(a, ph, HELD, HELD, true, Some(ph));
    PairUpdates(a, ph, HELD.(link := Some(ph)), HELD, true, Some(a));
    PairUpdates(a, ph, HELD.(link := Some(ph)), HELD.(link := Some(a)), true, None);
  }

  lemma ConfirmListedIs(b: Books, a: Allocation, ph: Allocation)
    requires Two(a, ph)
    requires Holds(b, a, ph, HELD.(link := Some(ph)), HELD.(released := true, link := Some(a)), map[a.key := a, ph.key := ph], CORE)
    ensures var r := SwapConfirmed(b, ph.key);
            && r.allocations == map[a.key := a] && r.allocatedResource == map["vcore" := 2]
            && !ConfirmsOnce(b, ph.key) && ConfirmsPlaceholder(b, ph.key) && SumFits(b.allocatedResource, SizeOf(b.facts, a))
            && LinkOf(b, b.allocations[ph.key]) == Some(a)
  {
    hide Minus, Pruned;
    var two: Amounts := map["vcore" := 2];
    assert Plus(CORE, CORE) == two;
    assert (map[a.key := a, ph.key := ph] - {ph.key})[a.key := a] == map[a.key := a];
  }

  ghost function ListedSwap(a: Allocation, ph: Allocation): seq<Op> {
    [AddAsk(a, ASKED)] + [AddAsk(ph, ASKED)] + [Place(a.key)] + [Unwind(a.key)] + [Place(ph.key)] + [Swap(ph, a, false)]
  }

  /** One more legal step of a run from a new application. */
  lemma Onward(ops: seq<Op>, op: Op)
    requires LegalRun(NEW, ops) && Sound(Run(NEW, ops)) && Legal(Run(NEW, ops), op) && AllSummable(Next(Run(NEW, ops), op))
    ensures LegalRun(NEW, ops + [op]) && Run(NEW, ops + [op]) == Next(Run(NEW, ops), op) && Sound(Run(NEW, ops + [op]))
  {
    hide Sound, Legal, Next, AllSummable, Run, LegalRun;
    RunMore(NEW, ops, op);
    StepKeepsSound(Run(NEW, ops), op);
  }

  lemma FirstAsk(a: Allocation)
    ensures LegalRun(NEW, [AddAsk(a, ASKED)]) && Run(NEW, [AddAsk(a, ASKED)]) == Asked(a) && Sound(Asked(a))
  {
    AskedIs(a);
    GroupsOfOne(Asked(a), a);
    OneIsSummable(Asked(a), a);
    NewIsSound();
    assert Legal(NEW, AddAsk(a, ASKED)) && Run(NEW, []) == NEW && LegalRun(NEW, []);
    hide Sound, Legal, Next, AllSummable, Pending, OfKind;
    assert [] + [AddAsk(a, ASKED)] == [AddAsk(a, ASKED)];
    Onward([], AddAsk(a, ASKED));
  }

  lemma ReachedListedSwap(a: Allocation, ph: Allocation)
    requires Two(a, ph)
    ensures LegalRun(NEW, ListedSwap(a, ph)) && Sound(Run(NEW, ListedSwap(a, ph)))
    ensures Holds(Run(NEW, ListedSwap(a, ph)), a, ph, HELD.(link := Some(ph)), HELD.(released := true, link := Some(a)),
                  map[a.key := a, ph.key := ph], CORE)
  {
    hide Sound, Legal, Next, AllSummable, Run, LegalRun, Holds, Asked;
    FirstAsk(a);
    SecondAskIs(a, ph);
    var o1 := [AddAsk(a, ASKED)];
    TwoAreSummable(Next(Asked(a), AddAsk(ph, ASKED)), a, ph, ASKED, ASKED, map[], map[]);
    Onward(o1, AddAsk(ph, ASKED));
    var o2 := o1 + [AddAsk(ph, ASKED)];
    PlaceRealIs(Run(NEW, o2), a, ph);
    TwoAreSummable(Next(Run(NEW, o2), Place(a.key)), a, ph, HELD, ASKED, map[a.key := a], CORE);
    Onward(o2, Place(a.key));
    var o3 := o2 + [Place(a.key)];
    LastSteps(a, ph, o3);
  }

  lemma AnyReturn(b: Books, key: string)
    ensures Legal(b, Unwind(key))
  {
  }

  lemma LastSteps(a: Allocation, ph: Allocation, o3: seq<Op>)
    requires Two(a, ph) && LegalRun(NEW, o3) && Sound(Run(NEW, o3))
    requires Holds(Run(NEW, o3), a, ph, HELD, ASKED, map[a.key := a], CORE)
    ensures var ops := o3 + [Unwind(a.key)] + [Place(ph.key)] + [Swap(ph, a, false)];
            && LegalRun(NEW, ops) && Sound(Run(NEW, ops))
            && Holds(Run(NEW, ops), a, ph, HELD.(link := Some(ph)), HELD.(released := true, link := Some(a)),
                     map[a.key := a, ph.key := ph], CORE)
  {
    hide Sound, Legal, Next, AllSummable, Run, LegalRun, Holds;
    var both := map[a.key := a, ph.key := ph];
    ReturnRealIs(Run(NEW, o3), a, ph);
    AnyReturn(Run(NEW, o3), a.key);
    TwoAreSummable(Next(Run(NEW, o3), Unwind(a.key)), a, ph, ASKED, ASKED, map[a.key := a], CORE);
    Onward(o3, Unwind(a.key));
    var o4 := o3 + [Unwind(a.key)];
    PlaceOtherIs(Run(NEW, o4), a, ph);
    TwoAreSummable(Next(Run(NEW, o4), Place(ph.key)), a, ph, ASKED, HELD, both, CORE);
    Onward(o4, Place(ph.key));
    var o5 := o4 + [Place(ph.key)];
    MaySwapListed(Run(NEW, o5), a, ph);
    SwapListedIs(Run(NEW, o5), a, ph);
    TwoAreSummable(Next(Run(NEW, o5), Swap(ph, a, false)), a, ph, HELD.(link := Some(ph)),
                   HELD.(released := true, link := Some(a)), both, CORE);
    Onward(o5, Swap(ph, a, false));
  }

  /**
   The ask returns while its allocation is still there and is then swapped for a placeholder. All that
   is legal and sound. The confirmation counts the one allocation of one core twice.
   */
  lemma ConfirmExample(a: Allocation, ph: Allocation)
    requires Two(a, ph)
    ensures var b := Run(NEW, ListedSwap(a, ph));
            var r := SwapConfirmed(b, ph.key);
            && LegalRun(NEW, ListedSwap(a, ph)) && Sound(b)
            && r.allocations == map[a.key := a] && r.allocatedResource == map["vcore" := 2] && !TotalsTrack(r)
  {
    ReachedListedSwap(a, ph);
    hide Run, LegalRun, ListedSwap, Sound, TotalsTrack, SwapConfirmed, Holds, ConfirmsOnce, ConfirmsPlaceholder, SumFits, SizeOf, LinkOf;
    ConfirmListedIs(Run(NEW, ListedSwap(a, ph)), a, ph);
    ConfirmedTwiceIsWrong(Run(NEW, ListedSwap(a, ph)), ph.key);
  }
}
