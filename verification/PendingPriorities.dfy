/**
 The priority histogram of an application (pkg/scheduler/objects/application.go): one band per
 priority with the number of pending asks at that priority, and the largest priority in use. It
 replaces a rescan of all asks and is only right while every ask is counted in and out once.
 */
module PendingPriorities {
  import opened Allocations

  const MIN_PRIORITY: Priority := -0x8000_0000

  datatype Histogram = Histogram(bands: map<Priority, nat>, top: Priority)

  const EMPTY := Histogram(map[], MIN_PRIORITY)

  /** The asks at one priority, out of the pending asks and their priorities. */
  function At(pending: map<string, Priority>, p: Priority): set<string> {
    set k | k in pending && pending[k] == p
  }

  /** The largest band, or the smallest priority if there is none. */
  predicate IsTop(bands: map<Priority, nat>, top: Priority) {
    if bands == map[] then top == MIN_PRIORITY else top in bands && forall p | p in bands :: p <= top
  }

  /** The histogram is what a rescan of the pending asks gives. */
  ghost predicate Agrees(h: Histogram, pending: map<string, Priority>) {
    && IsTop(h.bands, h.top)
    && forall p: Priority :: if p in h.bands then h.bands[p] == |At(pending, p)| > 0 else At(pending, p) == {}
  }

  function Count(bands: map<Priority, nat>, p: Priority): nat {
    if p in bands then bands[p] else 0
  }

  // ---------- counting an ask in and out ----------

  function Incremented(h: Histogram, p: Priority): Histogram {
    Histogram(h.bands[p := Count(h.bands, p) + 1], if p > h.top then p else h.top)
  }

  ghost function Decremented(h: Histogram, p: Priority): Histogram {
    if p !in h.bands || h.bands[p] == 0 then h
    else if h.bands[p] > 1 then h.(bands := h.bands[p := h.bands[p] - 1])
    else Histogram(h.bands - {p}, if p == h.top then MaxBand(h.bands - {p}) else h.top)
  }

  ghost function MaxBand(bands: map<Priority, nat>): (top: Priority)
    ensures IsTop(bands, top)
  {
    if bands == map[] then MIN_PRIORITY
    else
      var p :| p in bands;
      var rest := MaxBand(bands - {p});
      assert forall q | q in bands :: q == p || q in bands - {p};
      if bands - {p} == map[] || p > rest then p else rest
  }

  lemma AtInserted(pending: map<string, Priority>, k: string, p: Priority, q: Priority)
    requires k !in pending
    ensures At(pending[k := p], q) == if q == p then At(pending, q) + {k} else At(pending, q)
    ensures |At(pending[k := p], q)| == |At(pending, q)| + if q == p then 1 else 0
  {
    assert At(pending[k := p], q) == if q == p then At(pending, q) + {k} else At(pending, q);
  }

  lemma TopIncremented(h: Histogram, p: Priority)
    requires IsTop(h.bands, h.top)
    ensures IsTop(Incremented(h, p).bands, Incremented(h, p).top)
  {
  }

  lemma IncrementAgrees(h: Histogram, pending: map<string, Priority>, k: string, p: Priority)
    requires Agrees(h, pending) && k !in pending
    ensures Agrees(Incremented(h, p), pending[k := p])
  {
    hide At, IsTop;
    TopIncremented(h, p);
    forall q: Priority
      ensures var after, bands := At(pending[k := p], q), Incremented(h, p).bands;
              if q in bands then bands[q] == |after| > 0 else after == {}
    {
      AtInserted(pending, k, p, q);
    }
  }

  lemma AtRemoved(pending: map<string, Priority>, k: string, q: Priority)
    requires k in pending
    ensures At(pending, q) == if q == pending[k] then At(pending - {k}, q) + {k} else At(pending - {k}, q)
    ensures |At(pending, q)| == |At(pending - {k}, q)| + if q == pending[k] then 1 else 0
  {
    AtInserted(pending - {k}, k, pending[k], q);
    assert (pending - {k})[k := pending[k]] == pending;
  }

  /** A band that is counted out is there: the branch without a band is never taken. */
  lemma DecrementAgrees(h: Histogram, pending: map<string, Priority>, k: string)
    requires Agrees(h, pending) && k in pending
    ensures pending[k] in h.bands && h.bands[pending[k]] > 0
    ensures Agrees(Decremented(h, pending[k]), pending - {k})
  {
    hide At;
    var p := pending[k];
    AtRemoved(pending, k, p);
    assert p != h.top ==> h.top in h.bands - {p};
    forall q: Priority
      ensures var after, bands := At(pending - {k}, q), Decremented(h, p).bands;
              if q in bands then bands[q] == |after| > 0 else after == {}
    {
      AtRemoved(pending, k, q);
    }
  }

  /** An ask that is counted out and in again leaves no trace. */
  lemma OutAndInAgain(h: Histogram, p: Priority)
    requires IsTop(h.bands, h.top) && p in h.bands && h.bands[p] > 0
    ensures Incremented(Decremented(h, p), p) == h
  {
    var d := Decremented(h, p);
    assert d.bands[p := Count(d.bands, p) + 1] == h.bands;
  }

  lemma NothingPendingAgrees()
    ensures Agrees(EMPTY, map[])
  {
    forall p: Priority
      ensures At(map[], p) == {}
    {
    }
  }

  lemma TopIsUnique(bands: map<Priority, nat>, a: Priority, b: Priority)
    requires IsTop(bands, a) && IsTop(bands, b)
    ensures a == b
  {
  }

  // ---------- the fields of the application ----------

  class PriorityTracker {
    var pendingPriorities: map<Priority, nat>
    var askMaxPriority: Priority

    ghost function View(): Histogram
      reads this
    {
      Histogram(pendingPriorities, askMaxPriority)
    }

    constructor ()
      ensures View() == EMPTY
    {
      pendingPriorities, askMaxPriority := map[], MIN_PRIORITY;
    }

    method Reset()
      modifies this
      ensures View() == EMPTY
    {
      pendingPriorities, askMaxPriority := map[], MIN_PRIORITY;
    }

    method AddToPriorities(p: Priority)
      modifies this
      ensures View() == Incremented(old(View()), p)
    {
      pendingPriorities := pendingPriorities[p := Count(pendingPriorities, p) + 1];
      if p > askMaxPriority {
        askMaxPriority := p;
      }
    }

    method RemoveFromPriorities(p: Priority)
      modifies this
      ensures View() == Decremented(old(View()), p)
    {
      var n := Count(pendingPriorities, p) - 1;
      if n < 0 {
        return;
      } else if n > 0 {
        pendingPriorities := pendingPriorities[p := n];
      } else {
        pendingPriorities := pendingPriorities - {p};
        if p != askMaxPriority { return; }
        var newMax := MaxOfBands();
        TopIsUnique(pendingPriorities, newMax, MaxBand(pendingPriorities));
        askMaxPriority := newMax;
      }
    }

    method MaxOfBands() returns (newMax: Priority)
      ensures IsTop(pendingPriorities, newMax)
    {
      newMax := MIN_PRIORITY;
      var left := pendingPriorities.Keys;
      while left != {}
        invariant left <= pendingPriorities.Keys
        invariant forall p | p in pendingPriorities && p !in left :: p <= newMax
        invariant newMax == MIN_PRIORITY || newMax in pendingPriorities
      {
        var band :| band in left;
        if band > newMax { newMax := band; }
        left := left - {band};
      }
      if pendingPriorities != map[] {
        var band :| band in pendingPriorities;
        assert band <= newMax;
      }
    }
  }
}
