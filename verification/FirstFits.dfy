/**
 The search of tryPlaceholderAllocate (pkg/scheduler/objects/application.go) for a placeholder that a
 pending ask of the same task group can replace. Placeholders that are too small for an ask are
 released on the way. The first fit is remembered for a later try on other nodes.
 */
module FirstFits {
  import opened Resources
  import opened Allocations
  import opened TrackedTotals
  import opened ApplicationBooks
  import opened PlaceholderSwaps

  /** gone: released or preempted before the search. */
  datatype Placeholder = Placeholder(group: string, size: Amounts, gone: bool)

  datatype Ask = Ask(group: string, size: Amounts)

  /**
   A search and what happens around it. For a pair of an ask and a placeholder: `seen` if another
   goroutine has preempted the placeholder when the search looks, `refuses` if it has when the search
   releases it, and `accepts` if the placeholder's node takes the ask.
   */
  datatype Course = Course(phs: seq<Placeholder>, asks: seq<Ask>,
                           seen: set<(nat, nat)>, refuses: set<(nat, nat)>, accepts: set<(nat, nat)>)

  /** A swap on the placeholder's own node, a first fit for other nodes, or nothing. */
  datatype Outcome = Swap(ask: nat, ph: nat) | FirstFit(ask: nat, ph: nat) | Nothing

  /** The ask is in the task group of the placeholder and larger in some type. Asks without a group are skipped. */
  predicate TooLarge(ph: Placeholder, ask: Ask) {
    ask.group == ph.group != "" && HasNegativeValue(Minus(ph.size, ask.size))
  }

  /** The ask releases the placeholder, if it is still there. */
  predicate Releases(c: Course, i: nat, j: nat) {
    && i < |c.asks| && j < |c.phs| && !c.phs[j].gone && TooLarge(c.phs[j], c.asks[i])
    && (i, j) !in c.seen && (i, j) !in c.refuses
  }

  /** One of the first n asks releases the placeholder. */
  predicate ReleasedBy(c: Course, n: nat, j: nat)
    requires n <= |c.asks|
  {
    exists i: nat :: i < n && Releases(c, i, j)
  }

  /** When the search comes to the ask, the placeholder is there and the ask can replace it. */
  predicate Fits(c: Course, i: nat, j: nat) {
    && i < |c.asks| && j < |c.phs| && !c.phs[j].gone && (i, j) !in c.seen && !ReleasedBy(c, i, j)
    && c.asks[i].group == c.phs[j].group != "" && !TooLarge(c.phs[j], c.asks[i])
  }

  /** No pair of the first n asks fits, or the pair is the first one that does, whatever the order of the placeholders. */
  ghost predicate IsFirst(c: Course, n: nat, fit: Option<(nat, nat)>) {
    match fit
    case None => forall i: nat, j: nat | i < n :: !Fits(c, i, j)
    case Some(p) => p.0 < n && Fits(c, p.0, p.1) && forall i: nat, j: nat | i < p.0 :: !Fits(c, i, j)
  }

  /** None of the pairs of the first n asks that fit is swapped on the placeholder's node. */
  ghost predicate NoneTaken(c: Course, n: nat) {
    forall i: nat, j: nat | i < n && Fits(c, i, j) :: (i, j) !in c.accepts || (i, j) in c.refuses
  }

  ghost predicate ReleasedExactly(c: Course, n: nat, released: set<nat>)
    requires n <= |c.asks|
  {
    forall j: nat :: j in released <==> j < |c.phs| && ReleasedBy(c, n, j)
  }

  /** The loop over the asks. A swap on the own node never takes a released placeholder. */
  method Search(c: Course) returns (outcome: Outcome, released: set<nat>)
    ensures outcome.Swap? ==>
              && Fits(c, outcome.ask, outcome.ph)
              && (outcome.ask, outcome.ph) in c.accepts && (outcome.ask, outcome.ph) !in c.refuses
              && outcome.ph !in released && NoneTaken(c, outcome.ask)
    ensures outcome.Swap? || (NoneTaken(c, |c.asks|) && ReleasedExactly(c, |c.asks|, released))
    ensures outcome.FirstFit? ==> IsFirst(c, |c.asks|, Some((outcome.ask, outcome.ph)))
    ensures outcome.Nothing? ==> IsFirst(c, |c.asks|, None)
  {
    hide Fits, Releases;
    released := {};
    var fit: Option<(nat, nat)> := None;
    for i := 0 to |c.asks|
      invariant ReleasedExactly(c, i, released) && IsFirst(c, i, fit) && NoneTaken(c, i)
    {
      var taken;
      taken, fit, released := SearchOne(c, i, fit, released);
      if taken.Some? {
        return Swap(i, taken.value), released;
      }
    }
    return if fit.Some? then FirstFit(fit.value.0, fit.value.1) else Nothing, released;
  }

  lemma OneMoreAsk(c: Course, i: nat, j: nat)
    requires i < |c.asks|
    ensures ReleasedBy(c, i + 1, j) <==> ReleasedBy(c, i, j) || Releases(c, i, j)
  {
  }

  function Indices(n: nat): (r: set<nat>)
    ensures forall j: nat :: j in r <==> j < n
  {
    if n == 0 then {} else Indices(n - 1) + {n - 1}
  }

  /** The loop over the placeholders for one ask, in any order. */
  method SearchOne(c: Course, i: nat, fit0: Option<(nat, nat)>, released0: set<nat>)
    returns (taken: Option<nat>, fit: Option<(nat, nat)>, released: set<nat>)
    requires i < |c.asks| && ReleasedExactly(c, i, released0) && IsFirst(c, i, fit0)
    ensures taken.Some? ==>
              && Fits(c, i, taken.value) && (i, taken.value) in c.accepts && (i, taken.value) !in c.refuses
              && taken.value !in released
    ensures taken.None? ==> ReleasedExactly(c, i + 1, released) && IsFirst(c, i + 1, fit)
    ensures taken.None? ==> forall j: nat | Fits(c, i, j) :: (i, j) !in c.accepts || (i, j) in c.refuses
  {
    fit, released := fit0, released0;
    var todo := Indices(|c.phs|);
    while todo != {}
      invariant todo <= Indices(|c.phs|)
      invariant forall j: nat :: j in released <==> j in released0 || (j !in todo && Releases(c, i, j))
      invariant forall j: nat | j !in todo && Fits(c, i, j) :: ((i, j) !in c.accepts || (i, j) in c.refuses) && fit.Some?
      invariant fit == fit0 || (fit0.None? && fit.Some? && fit.value.0 == i && Fits(c, i, fit.value.1))
      decreases |todo|
    {
      var j :| j in todo;
      todo := todo - {j};
      var ph, ask := c.phs[j], c.asks[i];
      if ph.gone || j in released || (i, j) in c.seen || ask.group != ph.group || ask.group == "" {
        continue;
      }
      if HasNegativeValue(Minus(ph.size, ask.size)) {
        if (i, j) !in c.refuses {
          released := released + {j};
        }
        continue;
      }
      if fit.None? {
        fit := Some((i, j));
      }
      if (i, j) in c.accepts && (i, j) !in c.refuses {
        return Some(j), fit, released;
      }
    }
    taken := None;
    forall j: nat | j < |c.phs|
      ensures j in released <==> ReleasedBy(c, i + 1, j)
    {
      OneMoreAsk(c, i, j);
    }
  }

  /** The first fit was released in the same search exactly when a later ask releases it. */
  lemma FirstFitReleasedIff(c: Course, i: nat, j: nat)
    requires Fits(c, i, j)
    ensures ReleasedBy(c, |c.asks|, j) <==> exists later: nat :: i < later < |c.asks| && Releases(c, later, j)
  {
    if ReleasedBy(c, |c.asks|, j) {
      var k: nat :| k < |c.asks| && Releases(c, k, j);
      assert k > i;
    }
  }

  /** One placeholder of two cores, an ask for one core and one for three: the first fit is a released placeholder. */
  lemma FirstFitReleasedExample()
    ensures var phs := [Placeholder("g", map["vcore" := 2], false)];
            var asks := [Ask("g", map["vcore" := 1]), Ask("g", map["vcore" := 3])];
            var c := Course(phs, asks, {}, {}, {});
            Fits(c, 0, 0) && ReleasedBy(c, 2, 0)
  {
    var size, one, three: Amounts := map["vcore" := 2], map["vcore" := 1], map["vcore" := 3];
    assert Minus(size, one) == map["vcore" := 1];
    assert "vcore" in Minus(size, three) && Minus(size, three)["vcore"] == -1;
    var ph, asks := Placeholder("g", size, false), [Ask("g", one), Ask("g", three)];
    assert TooLarge(ph, asks[1]) && !TooLarge(ph, asks[0]);
    assert Releases(Course([ph], asks, {}, {}, {}), 1, 0);
  }

  // ---------- the search in the books of an application ----------

  function AskOf(b: Books, a: Allocation): Ask {
    Ask(a.taskGroup, SizeOf(b.facts, a))
  }

  function PlaceholderOf(b: Books, a: Allocation, preempted: set<Allocation>): Placeholder {
    Placeholder(a.taskGroup, SizeOf(b.facts, a), a in preempted || (a in b.facts && b.facts[a].released))
  }

  /** What the search walks over: pending real asks of the requests, and the allocated placeholders. */
  predicate Candidates(b: Books, asks: seq<Allocation>, phs: seq<Allocation>) {
    && (forall a | a in asks :: a.key in b.requests && b.requests[a.key] == a && !a.placeholder && !Placed(b, a))
    && (forall p | p in phs :: p.key in b.allocations && b.allocations[p.key] == p && p.placeholder)
  }

  /** Every pair that fits may be swapped: what the search tests is what the start of a swap needs. */
  lemma FittingCanSwap(b: Books, asks: seq<Allocation>, phs: seq<Allocation>, preempted: set<Allocation>, c: Course, i: nat, j: nat)
    requires Sound(b) && Candidates(b, asks, phs) && i < |asks| && j < |phs|
    requires c.phs == seq(|phs|, n requires 0 <= n < |phs| => PlaceholderOf(b, phs[n], preempted))
    requires c.asks == seq(|asks|, n requires 0 <= n < |asks| => AskOf(b, asks[n])) && Fits(c, i, j)
    ensures CanSwap(b, phs[j], asks[i])
  {
    hide TotalsTrack, HistogramAgrees;
    var a, ph := asks[i], phs[j];
    assert a in asks && ph in phs;
    assert ph in b.facts && !b.facts[ph].released;
    UnreleasedCanSwap(b, ph);
  }
}
