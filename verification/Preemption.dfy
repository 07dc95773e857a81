/**
 Victim selection for an ask that does not fit (Preemptor in pkg/scheduler/objects/preemption.go).
 */
module Preemption {
  import opened Quantities
  import opened Resources
  import opened Allocations
  import opened QueueSnapshots

  // ---------- shortfall ----------

  /** Adding v leaves less of the ask uncovered: no type gets worse, at least one gets better. */
  ghost predicate Shrinks(ask: Amounts, available: Amounts, v: Amounts) {
    var before, after := SubEliminateNegative(ask, available), SubEliminateNegative(ask, Plus(available, v));
    && (forall k: string :: Get(after, k) <= Get(before, k))
    && (exists k: string :: Get(after, k) < Get(before, k))
  }

  predicate NoMinimum(a: Amounts) {
    forall k | k in a :: a[k] != MIN_INT64
  }

  lemma PlusNoMinimum(a: Amounts, v: Amounts)
    requires NoMinimum(a) && NonNegative(v)
    ensures NoMinimum(Plus(a, v))
  {
  }

  lemma ShortfallNeverGrows(ask: Amounts, available: Amounts, v: Amounts, k: string)
    requires NonNegative(ask) && NonNegative(v) && NoMinimum(available)
    ensures Get(SubEliminateNegative(ask, Plus(available, v)), k) <= Get(SubEliminateNegative(ask, available), k)
  {
  }

  /** The source compares the two shortfalls for equality; for non-negative victims a change is a decrease. */
  lemma ChangeIsShrinking(ask: Amounts, available: Amounts, v: Amounts)
    requires NonNegative(ask) && NonNegative(v) && NoMinimum(available)
    ensures EqualsOrEmpty(SubEliminateNegative(ask, available), SubEliminateNegative(ask, Plus(available, v)))
            <==> !Shrinks(ask, available, v)
    ensures ShortfallStays(ask, available, v) <==> !Shrinks(ask, available, v)
  {
    var before, after := SubEliminateNegative(ask, available), SubEliminateNegative(ask, Plus(available, v));
    EqualsIsSameView(before, after);
    forall k: string
      ensures Get(after, k) <= Get(before, k)
    {
      ShortfallNeverGrows(ask, available, v, k);
    }
  }

  predicate IsVictimQueueOverGuaranteed(ask: Amounts, remaining: Amounts) {
    exists k | k in ask && k in remaining :: remaining[k] < 0
  }

  /**
   Whether a queue may lose an allocation: it has no guarantee, or is over its guarantee in a type of
   the ask. The second test of the victim loops, for a preemptable resource that is not negative, never fails.
   */
  predicate MayLose(ask: Amounts, remaining: Option<Amounts>) {
    remaining.None? || IsVictimQueueOverGuaranteed(ask, remaining.value)
  }

  /**
   What the test means: no queue that counts guarantees anything, or one of them is over its guarantee
   in a type of the ask.
   */
  lemma MayLoseIff(ask: Amounts, q: QueueSnapshot, usages: map<string, Amounts>, standing: map<QueueSnapshot, Amounts>)
    requires q.Valid()
    ensures MayLose(ask, q.RemainingBy(usages, standing)) <==>
              || (forall k: string :: !q.IsGuaranteed(k))
              || (exists k | k in ask :: OverGuaranteed(q, usages, k))
  {
    hide QueueSnapshot.RemainingBy, QueueSnapshot.IsGuaranteed;
    var r := q.RemainingBy(usages, standing);
    forall k: string
      ensures k in OrZero(r) <==> q.IsGuaranteed(k)
      ensures k in OrZero(r) && r.value[k] < 0 <==> OverGuaranteed(q, usages, k)
    {
      q.RemainingByType(usages, standing, k);
      OverIsNegative(q, usages, k, Get(OrZero(r), k));
    }
    q.RemainingByType(usages, standing, "");
    if r.Some? {
      var k :| k in r.value.Keys;
      assert q.IsGuaranteed(k);
    }
  }

  ghost predicate OverGuaranteed(q: QueueSnapshot, usages: map<string, Amounts>, k: string)
    requires q.Valid()
  {
    exists c | c in q.Counted(k) :: c.Guarantees(k) && c.Left(c.UsedBy(usages), k) < 0
  }

  lemma OverIsNegative(q: QueueSnapshot, usages: map<string, Amounts>, k: string, v: Quantity)
    requires q.Valid()
    ensures q.IsGuaranteed(k) && q.LeastLeft(usages, k, v) ==> (OverGuaranteed(q, usages, k) <==> v < 0)
    ensures OverGuaranteed(q, usages, k) ==> q.IsGuaranteed(k)
  {
    hide QueueSnapshot.Guarantees, QueueSnapshot.Left, QueueSnapshot.Counted;
  }

  /** Whether the ask's queue may take a resource: its guarantee has room for all of it. */
  predicate MayGain(remaining: Option<Amounts>, res: Amounts) {
    remaining.Some? && FitInActual(remaining.value, res)
  }

  /** What the test means: something is guaranteed, and no queue that counts would be over its guarantee with the resource. */
  lemma MayGainIff(q: QueueSnapshot, usages: map<string, Amounts>, standing: map<QueueSnapshot, Amounts>, res: Amounts)
    requires q.Valid()
    ensures MayGain(q.RemainingBy(usages, standing), res) <==>
              && (exists k: string :: q.IsGuaranteed(k))
              && (forall k | k in res :: RoomInAll(q, usages, k, res[k]))
  {
    hide QueueSnapshot.RemainingBy, QueueSnapshot.IsGuaranteed, QueueSnapshot.LeastLeft;
    var r := q.RemainingBy(usages, standing);
    forall k: string
      ensures k in OrZero(r) <==> q.IsGuaranteed(k)
      ensures k in res ==> (RoomInAll(q, usages, k, res[k]) <==> k !in OrZero(r) || res[k] <= r.value[k])
    {
      q.RemainingByType(usages, standing, k);
      RoomIsLeast(q, usages, k, Get(OrZero(r), k), Get(res, k));
    }
    q.RemainingByType(usages, standing, "");
    if r.Some? {
      var k :| k in r.value.Keys;
      assert q.IsGuaranteed(k);
    }
  }

  ghost predicate RoomInAll(q: QueueSnapshot, usages: map<string, Amounts>, k: string, amount: Quantity)
    requires q.Valid()
  {
    forall c | c in q.Counted(k) && c.Guarantees(k) :: amount <= c.Left(c.UsedBy(usages), k)
  }

  lemma RoomIsLeast(q: QueueSnapshot, usages: map<string, Amounts>, k: string, v: Quantity, amount: Quantity)
    requires q.Valid()
    ensures q.IsGuaranteed(k) && q.LeastLeft(usages, k, v) ==> (RoomInAll(q, usages, k, amount) <==> amount <= v)
    ensures !q.IsGuaranteed(k) ==> RoomInAll(q, usages, k, amount)
  {
    hide QueueSnapshot.Guarantees, QueueSnapshot.Left, QueueSnapshot.Counted;
  }

  /** What is available after the first n of a list of resources are freed. */
  function Freed(available: Amounts, rs: seq<Amounts>, n: nat): Amounts
    requires n <= |rs|
  {
    PlusAll(available, rs[..n])
  }

  lemma FreedOneMore(available: Amounts, rs: seq<Amounts>, v: Amounts, n: nat)
    requires n <= |rs|
    ensures Freed(available, rs + [v], n) == Freed(available, rs, n)
    ensures Freed(available, rs + [v], |rs| + 1) == Plus(Freed(available, rs, |rs|), v)
  {
    assert (rs + [v])[..n] == rs[..n];
    assert (rs + [v])[..|rs| + 1] == rs + [v] && (rs + [v])[..|rs|] == rs && rs[..|rs|] == rs;
  }

  /** The ask fits with the first index + 1 resources freed, and with no fewer. */
  ghost predicate LeastFit(index: int, rs: seq<Amounts>, available: Amounts, ask: Amounts) {
    && 0 <= index < |rs|
    && FitIn(Freed(available, rs, index + 1), ask)
    && NoFit(index, rs, available, ask)
  }

  ghost predicate NoFit(count: nat, rs: seq<Amounts>, available: Amounts, ask: Amounts)
    requires count <= |rs|
  {
    forall n | 0 <= n <= count :: !FitIn(Freed(available, rs, n), ask)
  }

  lemma LeastFitOneMore(index: int, rs: seq<Amounts>, available: Amounts, ask: Amounts, v: Amounts)
    ensures LeastFit(index, rs, available, ask) ==> LeastFit(index, rs + [v], available, ask)
    ensures NoFit(|rs|, rs, available, ask) ==>
              if FitIn(Plus(Freed(available, rs, |rs|), v), ask) then LeastFit(|rs|, rs + [v], available, ask)
              else NoFit(|rs| + 1, rs + [v], available, ask)
  {
    forall n: nat | n <= |rs|
      ensures Freed(available, rs + [v], n) == Freed(available, rs, n)
    {
      FreedOneMore(available, rs, v, n);
    }
    FreedOneMore(available, rs, v, |rs|);
  }

  /** Every victim, with the ones before it already taken, shrinks the shortfall. */
  ghost predicate AllShrink(rs: seq<Amounts>, available: Amounts, ask: Amounts) {
    forall i | 0 <= i < |rs| :: Shrinks(ask, Freed(available, rs, i), rs[i])
  }

  lemma AllShrinkOneMore(rs: seq<Amounts>, available: Amounts, ask: Amounts, v: Amounts)
    requires AllShrink(rs, available, ask) && Shrinks(ask, Freed(available, rs, |rs|), v)
    ensures AllShrink(rs + [v], available, ask)
  {
    forall i | 0 <= i < |rs + [v]|
      ensures Shrinks(ask, Freed(available, rs + [v], i), (rs + [v])[i])
    {
      FreedOneMore(available, rs, v, i);
    }
  }

  /** One more victim in the head list. */
  lemma HeadGrows(rs: seq<Amounts>, available: Amounts, ask: Amounts, v: Amounts)
    requires NonNegative(ask) && NonNegative(v) && NoMinimum(Freed(available, rs, |rs|)) && AllShrink(rs, available, ask)
    requires !ShortfallStays(ask, Freed(available, rs, |rs|), v)
    ensures AllShrink(rs + [v], available, ask)
    ensures Freed(available, rs + [v], |rs| + 1) == Plus(Freed(available, rs, |rs|), v)
    ensures NoMinimum(Plus(Freed(available, rs, |rs|), v))
  {
    hide AllShrink, Freed, NonNegative, NoMinimum, Shrinks, ShortfallStays, EqualsOrEmpty, SubEliminateNegative, Plus;
    ChangeIsShrinking(ask, Freed(available, rs, |rs|), v);
    AllShrinkOneMore(rs, available, ask, v);
    FreedOneMore(available, rs, v, |rs|);
    PlusNoMinimum(Freed(available, rs, |rs|), v);
  }

  // ---------- trial usage ----------

  /** The resource can be added to and taken from the usage without saturation. */
  predicate RoomFor(used: Amounts, res: Amounts) {
    NonNegative(res) && SumFits(used, res) && DifferenceFits(used, res)
  }

  /** The usage changed by exactly the resource, out, in, both or not at all. */
  ghost predicate Moved(before: Amounts, after: Amounts, res: Amounts, out: bool, into: bool) {
    forall k: string ::
      Get(after, k) == Get(before, k) - (if out then Get(res, k) else 0) + (if into then Get(res, k) else 0)
  }

  lemma MovedOut(before: Amounts, res: Amounts)
    requires RoomFor(before, res)
    ensures Moved(before, before, res, false, false)
    ensures Moved(before, Minus(before, res), res, true, false)
    ensures Moved(before, Plus(before, res), res, false, true)
    ensures Moved(before, Plus(Minus(before, res), res), res, true, true)
  {
    forall k: string
      ensures Get(Minus(before, res), k) == Get(before, k) - Get(res, k)
      ensures Get(Plus(before, res), k) == Get(before, k) + Get(res, k)
      ensures Get(Plus(Minus(before, res), res), k) == Get(before, k)
    {
      MinusExact(before, res, k);
      PlusExact(before, res, k);
      MinusThenPlus(before, res);
    }
  }

  /** Out, in, out and in again: the usage of a queue that is an ancestor of both the victim's queue and the ask's. */
  lemma MovedBack(before: Amounts, res: Amounts)
    requires RoomFor(before, res)
    ensures Moved(before, Plus(Minus(before, res), res), res, false, false)
    ensures Moved(before, Minus(Plus(before, res), res), res, false, false)
    ensures Moved(before, Plus(Minus(Plus(Minus(before, res), res), res), res), res, false, false)
  {
    var back := Plus(Minus(before, res), res);
    MinusThenPlus(before, res);
    PlusThenMinus(before, res);
    assert SameView(back, before);
    assert DifferenceFits(back, res) by {
      forall k | k in res
        ensures InRange(Get(back, k) - res[k])
      {
        assert Get(back, k) == Get(before, k);
      }
    }
    MinusThenPlus(back, res);
    forall k: string
      ensures Get(Plus(Minus(back, res), res), k) == Get(before, k)
    {
      assert Get(Plus(Minus(back, res), res), k) == Get(back, k);
    }
  }

  /** The operations of one round on the usage of a queue: in the victim's branch, in the ask's branch, both or none. */
  function AfterRound(verdict: Verdict, used: Amounts, res: Amounts, inVictim: bool, inAsk: bool): Amounts {
    AfterAsk(verdict, if inVictim then Minus(used, res) else used, res, inVictim, inAsk)
  }

  /** The operations that follow the removal of the victim. */
  function AfterAsk(verdict: Verdict, removed: Amounts, res: Amounts, inVictim: bool, inAsk: bool): Amounts {
    match verdict
    case Head => if inAsk then Plus(removed, res) else removed
    case Tail =>
      var undone := if inAsk then Minus(Plus(removed, res), res) else removed;
      if inVictim then Plus(undone, res) else undone
    case _ => if inVictim then Plus(removed, res) else removed
  }

  lemma RoundMoves(verdict: Verdict, used: Amounts, res: Amounts, inVictim: bool, inAsk: bool)
    requires RoomFor(used, res)
    ensures Moved(used, AfterRound(verdict, used, res, inVictim, inAsk), res, verdict.Head? && inVictim, verdict.Head? && inAsk)
  {
    hide Moved, Plus, Minus, RoomFor;
    MovedOut(used, res);
    MovedBack(used, res);
  }

  /** The usages without a resource in some of the queues. */
  ghost function Lowered(usages: map<string, Amounts>, paths: set<string>, res: Amounts): map<string, Amounts> {
    map p | p in usages :: if p in paths then Minus(usages[p], res) else usages[p]
  }

  ghost function Rounded(verdict: Verdict, usages: map<string, Amounts>, res: Amounts, from: set<string>, into: set<string>)
    : map<string, Amounts>
  {
    map p | p in usages :: AfterRound(verdict, usages[p], res, p in from, p in into)
  }

  /** A victim that is chosen moves to the ask's queue; after any other verdict every queue uses what it did before. */
  lemma RoundedMoves(verdict: Verdict, usages: map<string, Amounts>, res: Amounts, from: set<string>, into: set<string>, p: string)
    requires p in usages && RoomFor(usages[p], res)
    ensures Moved(usages[p], Rounded(verdict, usages, res, from, into)[p], res, verdict.Head? && p in from, verdict.Head? && p in into)
  {
    hide Moved, RoomFor, AfterRound;
    RoundMoves(verdict, usages[p], res, p in from, p in into);
  }

  // ---------- the rounds of a pass ----------

  datatype Verdict = Skip | Stop | Tail | Head

  /** The first pass sorts the candidates into a head and a tail list, the second checks the merged list. */
  datatype Pass = Sorting | Checking

  /** One round: a candidate and its size, what is available and used when it is tried, and what becomes of it. */
  datatype Attempt = Attempt(victim: Allocation, size: Amounts, verdict: Verdict, available: Amounts, usages: map<string, Amounts>)

  /** What both passes start from: the size of the ask, the free part of the node, the usage of the queues. */
  datatype Start = Start(ask: Amounts, available: Amounts, usages: map<string, Amounts>, standing: map<QueueSnapshot, Amounts>)

  ghost function Standing(queues: set<QueueSnapshot>): map<QueueSnapshot, Amounts>
    reads queues
  {
    map s | s in queues :: s.used
  }

  /** The candidates with a verdict, in their order. */
  ghost function Chosen(tried: seq<Attempt>, verdict: Verdict): seq<Allocation> {
    if tried == [] then []
    else
      var last := tried[|tried| - 1];
      Chosen(tried[..|tried| - 1], verdict) + if last.verdict == verdict then [last.victim] else []
  }

  lemma {:induction false} ChosenJoin(a: seq<Attempt>, b: seq<Attempt>, verdict: Verdict)
    ensures Chosen(a + b, verdict) == Chosen(a, verdict) + Chosen(b, verdict)
  {
    if b == [] {
      assert a + b == a;
    } else {
      ChosenJoin(a, b[..|b| - 1], verdict);
      assert (a + b)[..|a + b| - 1] == a + b[..|b| - 1];
    }
  }

  ghost function ChosenSizes(tried: seq<Attempt>, verdict: Verdict): seq<Amounts> {
    if tried == [] then []
    else
      var last := tried[|tried| - 1];
      ChosenSizes(tried[..|tried| - 1], verdict) + if last.verdict == verdict then [last.size] else []
  }

  lemma ChosenOneMore(tried: seq<Attempt>, a: Attempt, verdict: Verdict)
    ensures Chosen(tried + [a], verdict) == if a.verdict == verdict then Chosen(tried, verdict) + [a.victim] else Chosen(tried, verdict)
    ensures ChosenSizes(tried + [a], verdict)
            == if a.verdict == verdict then ChosenSizes(tried, verdict) + [a.size] else ChosenSizes(tried, verdict)
  {
    assert (tried + [a])[..|tried|] == tried;
  }

  lemma {:induction false} ChosenResources(tried: seq<Attempt>, verdict: Verdict)
    requires forall i | 0 <= i < |tried| :: tried[i].size == tried[i].victim.resource
    ensures ResourcesOf(Chosen(tried, verdict)) == ChosenSizes(tried, verdict)
  {
    hide ResourcesOf;
    if tried == [] {
      assert ResourcesOf([]) == [];
    } else {
      var rest, last := tried[..|tried| - 1], tried[|tried| - 1];
      ChosenResources(rest, verdict);
      ResourcesOneMore(Chosen(rest, verdict), last.victim);
    }
  }

  /** The rounds follow a list of candidates. */
  ghost predicate Follows(tried: seq<Attempt>, list: seq<Allocation>) {
    |tried| <= |list| && forall i | 0 <= i < |tried| :: tried[i].victim == list[i]
  }

  lemma CountOneMore(s: seq<Allocation>, v: Allocation, x: Allocation)
    ensures multiset(s + [v])[x] == multiset(s)[x] + if x == v then 1 else 0
  {
  }

  lemma ChosenCount(tried: seq<Attempt>, verdict: Verdict, x: Allocation)
    requires tried != []
    ensures var rest, last := tried[..|tried| - 1], tried[|tried| - 1];
            multiset(Chosen(tried, verdict))[x] == multiset(Chosen(rest, verdict))[x] + if last.verdict == verdict && last.victim == x then 1 else 0
  {
    var rest, last := tried[..|tried| - 1], tried[|tried| - 1];
    CountOneMore(Chosen(rest, verdict), last.victim, x);
  }

  ghost function Candidates(tried: seq<Attempt>): seq<Allocation> {
    if tried == [] then [] else Candidates(tried[..|tried| - 1]) + [tried[|tried| - 1].victim]
  }

  lemma {:induction false} PlacedOnce(tried: seq<Attempt>, x: Allocation)
    ensures multiset(Candidates(tried))[x]
            == multiset(Chosen(tried, Head))[x] + multiset(Chosen(tried, Tail))[x] + multiset(Chosen(tried, Skip))[x]
               + multiset(Chosen(tried, Stop))[x]
  {
    if tried != [] {
      hide Chosen;
      var rest := tried[..|tried| - 1];
      PlacedOnce(rest, x);
      CountOneMore(Candidates(rest), tried[|tried| - 1].victim, x);
      ChosenCount(tried, Head, x);
      ChosenCount(tried, Tail, x);
      ChosenCount(tried, Skip, x);
      ChosenCount(tried, Stop, x);
    }
  }

  lemma {:induction false} CandidatesFollow(tried: seq<Attempt>, list: seq<Allocation>)
    requires Follows(tried, list)
    ensures Candidates(tried) == list[..|tried|]
  {
    if tried != [] {
      var n := |tried| - 1;
      CandidatesFollow(tried[..n], list);
      assert list[..n + 1] == list[..n] + [list[n]];
    }
  }

  /** Every candidate that was tried has one place. */
  lemma AllPlaced(tried: seq<Attempt>, list: seq<Allocation>)
    requires Follows(tried, list)
    ensures multiset(list[..|tried|])
            == multiset(Chosen(tried, Head)) + multiset(Chosen(tried, Tail)) + multiset(Chosen(tried, Skip)) + multiset(Chosen(tried, Stop))
  {
    hide Chosen, Candidates;
    CandidatesFollow(tried, list);
    var all := multiset(Candidates(tried));
    var h, t, s, p := multiset(Chosen(tried, Head)), multiset(Chosen(tried, Tail)), multiset(Chosen(tried, Skip)), multiset(Chosen(tried, Stop));
    forall x: Allocation | x in all || x in h || x in t || x in s || x in p
      ensures all[x] == h[x] + t[x] + s[x] + p[x]
    {
      PlacedOnce(tried, x);
    }
    SumByCount(all, h, t, s, p);
  }

  lemma SumByCount(all: multiset<Allocation>, h: multiset<Allocation>, t: multiset<Allocation>, s: multiset<Allocation>, p: multiset<Allocation>)
    requires forall x: Allocation | x in all || x in h || x in t || x in s || x in p :: all[x] == h[x] + t[x] + s[x] + p[x]
    ensures all == h + t + s + p
  {
  }

  lemma ChosenFrom(tried: seq<Attempt>, list: seq<Allocation>)
    requires Follows(tried, list)
    ensures multiset(Chosen(tried, Head) + Chosen(tried, Tail)) <= multiset(list)
    ensures multiset(Chosen(tried, Head)) <= multiset(list)
  {
    hide Chosen;
    AllPlaced(tried, list);
    assert list == list[..|tried|] + list[|tried|..];
  }

  /** The candidate leaves the shortfall of the ask as it is. */
  ghost predicate ShortfallStays(ask: Amounts, available: Amounts, v: Amounts) {
    SameView(SubEliminateNegative(ask, available), SubEliminateNegative(ask, Plus(available, v)))
  }

  /** A trial changed the usage of the given queues by a resource: out of some, into others. */
  twostate predicate TrialMoved(mine: set<QueueSnapshot>, res: Amounts, from: set<QueueSnapshot>, into: set<QueueSnapshot>)
    reads mine
  {
    forall s | s in mine && old(RoomFor(s.used, res)) :: Moved(old(s.used), s.used, res, s in from, s in into)
  }

  class Preemptor {
    const ask: Allocation
    const queuePath: string
    const allocationsByQueue: map<string, QueueSnapshot>
    const queueByAlloc: map<string, QueueSnapshot>

    constructor (ask: Allocation, queuePath: string, allocationsByQueue: map<string, QueueSnapshot>,
                 queueByAlloc: map<string, QueueSnapshot>)
      ensures this.ask == ask && this.queuePath == queuePath
      ensures this.allocationsByQueue == allocationsByQueue && this.queueByAlloc == queueByAlloc
    {
      this.ask, this.queuePath := ask, queuePath;
      this.allocationsByQueue, this.queueByAlloc := allocationsByQueue, queueByAlloc;
    }

    /** All snapshots are well formed, and so are their ancestors, and paths name queues. */
    ghost predicate Valid() {
      && (forall p | p in allocationsByQueue :: allocationsByQueue[p].Valid() && allocationsByQueue[p].queuePath == p)
      && (forall s | s in Queues() :: s.Valid())
      && PathsNameQueues(Queues())
    }

    ghost function Queues(): set<QueueSnapshot> {
      set p, s | p in allocationsByQueue && s in allocationsByQueue[p].chain :: s
    }

    /** The queues by path, ancestors included. */
    ghost function Named(): map<string, QueueSnapshot>
      requires Valid()
    {
      map s | s in Queues() :: s.queuePath := s
    }

    lemma NamedIff()
      requires Valid()
      ensures forall s | s in Queues() :: s.queuePath in Named() && Named()[s.queuePath] == s
      ensures forall p | p in Named() :: Named()[p] in Queues() && Named()[p].queuePath == p
    {
      hide Queues;
    }

    /** The snapshots that the queues point to as the queue of the ask. */
    ghost function AskQueues(): set<QueueSnapshot> {
      set s | s in Queues() && s.askQueue != null :: s.askQueue
    }

    ghost function Origin(nodeAvailable: Amounts): Start
      requires Valid()
      reads ask, Queues(), AskQueues()
    {
      Start(ask.resource, nodeAvailable, Usage(Named()), Standing(AskQueues()))
    }

    // ---------- what the rounds of a pass decide ----------

    ghost function QueueOf(victim: Allocation): Option<QueueSnapshot>
      requires Valid()
    {
      if victim.key in queueByAlloc && queueByAlloc[victim.key].queuePath in Named()
      then Some(Named()[queueByAlloc[victim.key].queuePath]) else None
    }

    ghost function VictimPaths(victim: Allocation): set<string>
      requires Valid()
    {
      if QueueOf(victim).Some? then QueueOf(victim).value.Paths() else {}
    }

    ghost function AskPaths(pass: Pass): set<string>
      requires Valid() && queuePath in Named()
    {
      if pass.Sorting? then Named()[queuePath].Paths() else {}
    }

    /** The victim's queue is known and may lose something the ask needs. */
    ghost predicate Losable(a: Attempt, start: Start)
      requires Valid()
    {
      QueueOf(a.victim).Some? && MayLose(start.ask, QueueOf(a.victim).value.RemainingBy(a.usages, start.standing))
    }

    /** The guarantee of the ask's queue has room for the victim once the victim is gone from its own queue. */
    ghost predicate Gainable(a: Attempt, start: Start)
      requires Valid() && queuePath in Named()
    {
      MayGain(Named()[queuePath].RemainingBy(Lowered(a.usages, VictimPaths(a.victim), a.size), start.standing), a.size)
    }

    /** The one verdict a candidate can get. */
    ghost predicate Right(pass: Pass, a: Attempt, start: Start)
      requires Valid() && queuePath in Named()
    {
      match pass
      case Checking => a.verdict == if Losable(a, start) then Head else Skip
      case Sorting =>
        match a.verdict
        case Skip => !Losable(a, start)
        case Stop => Losable(a, start) && !Gainable(a, start)
        case Tail => Losable(a, start) && Gainable(a, start) && ShortfallStays(start.ask, a.available, a.size)
        case Head => Losable(a, start) && Gainable(a, start) && !ShortfallStays(start.ask, a.available, a.size)
    }

    ghost function UsagesAfter(pass: Pass, a: Attempt): map<string, Amounts>
      requires Valid() && queuePath in Named()
    {
      Rounded(a.verdict, a.usages, a.size, VictimPaths(a.victim), AskPaths(pass))
    }

    ghost function AvailableAfter(a: Attempt): Amounts {
      if a.verdict.Head? then Plus(a.available, a.size) else a.available
    }

    /** What is available, and used, when all rounds are done. */
    ghost function AvailableNow(tried: seq<Attempt>, start: Start): Amounts {
      if tried == [] then start.available else AvailableAfter(tried[|tried| - 1])
    }

    ghost function UsagesNow(pass: Pass, tried: seq<Attempt>, start: Start): map<string, Amounts>
      requires Valid() && queuePath in Named()
    {
      if tried == [] then start.usages else UsagesAfter(pass, tried[|tried| - 1])
    }

    /** Every candidate is tried with what the ones before it left, gets the right verdict, and none comes after a stop. */
    ghost predicate Trace(pass: Pass, tried: seq<Attempt>, start: Start)
      requires Valid() && queuePath in Named()
    {
      forall i | 0 <= i < |tried| ::
        && Right(pass, tried[i], start)
        && (i + 1 < |tried| ==> !tried[i].verdict.Stop?)
        && tried[i].available == AvailableNow(tried[..i], start) && tried[i].usages == UsagesNow(pass, tried[..i], start)
    }

    /** A whole pass: it ends with the list or with a stop. */
    ghost predicate PassOver(pass: Pass, tried: seq<Attempt>, list: seq<Allocation>, start: Start)
      requires Valid() && queuePath in Named()
      reads list
    {
      && Trace(pass, tried, start) && Follows(tried, list)
      && (forall i | 0 <= i < |tried| :: tried[i].size == tried[i].victim.resource)
      && (|tried| < |list| ==> tried != [] && tried[|tried| - 1].verdict.Stop?)
    }

    lemma TraceOneMore(pass: Pass, tried: seq<Attempt>, a: Attempt, start: Start)
      requires Valid() && queuePath in Named() && Trace(pass, tried, start)
      requires tried != [] ==> !tried[|tried| - 1].verdict.Stop?
      requires Right(pass, a, start) && a.available == AvailableNow(tried, start) && a.usages == UsagesNow(pass, tried, start)
      ensures Trace(pass, tried + [a], start)
      ensures AvailableNow(tried + [a], start) == AvailableAfter(a) && UsagesNow(pass, tried + [a], start) == UsagesAfter(pass, a)
    {
      hide Right, AvailableNow, UsagesNow;
      var all := tried + [a];
      forall i | 0 <= i < |all|
        ensures Right(pass, all[i], start) && (i + 1 < |all| ==> !all[i].verdict.Stop?)
        ensures all[i].available == AvailableNow(all[..i], start) && all[i].usages == UsagesNow(pass, all[..i], start)
      {
        assert all[..i] == tried[..i];
        if i < |tried| {
          assert all[i] == tried[i];
        } else {
          assert tried[..i] == tried;
        }
      }
      LastRound(pass, tried, a, start);
    }

    lemma LastRound(pass: Pass, tried: seq<Attempt>, a: Attempt, start: Start)
      requires Valid() && queuePath in Named()
      ensures AvailableNow(tried + [a], start) == AvailableAfter(a) && UsagesNow(pass, tried + [a], start) == UsagesAfter(pass, a)
    {
      hide UsagesAfter, AvailableAfter;
    }

    /** What is available is what the chosen victims free. */
    lemma {:induction false} AvailableIsFreed(pass: Pass, tried: seq<Attempt>, start: Start)
      requires Valid() && queuePath in Named() && Trace(pass, tried, start)
      ensures AvailableNow(tried, start) == Freed(start.available, ChosenSizes(tried, Head), |ChosenSizes(tried, Head)|)
    {
      hide Right, UsagesNow, Plus;
      if tried != [] {
        var rest, last := tried[..|tried| - 1], tried[|tried| - 1];
        TraceShorter(pass, tried, start);
        AvailableIsFreed(pass, rest, start);
        FreedOneMore(start.available, ChosenSizes(rest, Head), last.size, |ChosenSizes(rest, Head)|);
      }
    }

    lemma TraceShorter(pass: Pass, tried: seq<Attempt>, start: Start)
      requires Valid() && queuePath in Named() && Trace(pass, tried, start) && tried != []
      ensures Trace(pass, tried[..|tried| - 1], start)
    {
      hide Right, UsagesNow, AvailableNow, Named, Valid;
      var rest := tried[..|tried| - 1];
      forall i | 0 <= i < |rest|
        ensures rest[i] == tried[i] && rest[..i] == tried[..i]
      {
      }
    }

    /** No two passes over the same candidates differ: the verdicts, and so the victims, are determined. */
    lemma {:induction false} OneCourse(pass: Pass, a: seq<Attempt>, b: seq<Attempt>, list: seq<Allocation>, start: Start)
      requires Valid() && queuePath in Named() && PassOver(pass, a, list, start) && PassOver(pass, b, list, start)
      ensures a == b
    {
      hide PassOver;
      NotShorter(pass, a, b, list, start);
      NotShorter(pass, b, a, list, start);
      SamePrefix(pass, a, b, |a|, list, start);
      assert a[..|a|] == a && b[..|b|] == b;
    }

    lemma GoesOn(pass: Pass, tried: seq<Attempt>, i: nat, start: Start)
      requires Valid() && queuePath in Named() && Trace(pass, tried, start) && i + 1 < |tried|
      ensures !tried[i].verdict.Stop?
    {
    }

    lemma StopsAt(a: seq<Attempt>, b: seq<Attempt>)
      requires a != [] && |a| <= |b| && a[..|a|] == b[..|a|]
      ensures a[|a| - 1] == b[|a| - 1]
    {
      assert a[|a| - 1] == b[..|a|][|a| - 1];
    }

    lemma NotShorter(pass: Pass, a: seq<Attempt>, b: seq<Attempt>, list: seq<Allocation>, start: Start)
      requires Valid() && queuePath in Named() && PassOver(pass, a, list, start) && PassOver(pass, b, list, start)
      ensures |b| <= |a|
    {
      hide AvailableNow, UsagesNow, Right, Valid, Named;
      if |a| < |b| && a != [] {
        SamePrefix(pass, a, b, |a|, list, start);
        GoesOn(pass, b, |a| - 1, start);
        StopsAt(a, b);
      }
    }

    lemma {:induction false} SamePrefix(pass: Pass, a: seq<Attempt>, b: seq<Attempt>, n: nat, list: seq<Allocation>, start: Start)
      requires Valid() && queuePath in Named() && PassOver(pass, a, list, start) && PassOver(pass, b, list, start)
      requires n <= |a| && n <= |b|
      ensures a[..n] == b[..n]
    {
      hide AvailableNow, UsagesNow, Right;
      if n > 0 {
        SamePrefix(pass, a, b, n - 1, list, start);
        OneVerdict(pass, a[n - 1], b[n - 1], start);
        assert a[..n] == a[..n - 1] + [a[n - 1]] && b[..n] == b[..n - 1] + [b[n - 1]];
      }
    }

    lemma OneVerdict(pass: Pass, a: Attempt, b: Attempt, start: Start)
      requires Valid() && queuePath in Named() && Right(pass, a, start) && Right(pass, b, start)
      requires a.victim == b.victim && a.size == b.size && a.available == b.available && a.usages == b.usages
      ensures a == b
    {
      hide MayLose, MayGain, ShortfallStays, Named, Valid, QueueSnapshot.RemainingBy, QueueSnapshot.Paths, Lowered;
    }

    /** Every victim of the head list shrinks what the victims before it left of the ask. */
    lemma {:induction false} HeadsShrink(tried: seq<Attempt>, start: Start)
      requires Valid() && queuePath in Named() && Trace(Sorting, tried, start)
      requires NonNegative(start.ask) && NoMinimum(start.available) && forall i | 0 <= i < |tried| :: NonNegative(tried[i].size)
      ensures AllShrink(ChosenSizes(tried, Head), start.available, start.ask) && NoMinimum(AvailableNow(tried, start))
    {
      hide UsagesNow, Plus, AllShrink, NoMinimum, NonNegative, Freed, Losable, Gainable, ShortfallStays;
      NothingTaken(start.available, start.ask);
      if tried != [] {
        var rest, last := tried[..|tried| - 1], tried[|tried| - 1];
        TraceShorter(Sorting, tried, start);
        HeadsShrink(rest, start);
        AvailableIsFreed(Sorting, rest, start);
        assert tried == rest + [last];
        ChosenOneMore(rest, last, Head);
        assert Right(Sorting, last, start);
        if last.verdict.Head? {
          HeadGrows(ChosenSizes(rest, Head), start.available, start.ask, last.size);
        }
      }
    }

    // ---------- trial runs ----------

    /** Duplicates of all queues, apart from everything the queues themselves look at. */
    ghost predicate Trial(snaps: map<string, QueueSnapshot>, mine: set<QueueSnapshot>)
      requires Valid()
    {
      AllLinked(snaps, Named()) && mine == snaps.Values && mine !! AskQueues()
    }

    /** Fresh copies of all snapshots and their ancestors. */
    method DuplicateQueueSnapshots() returns (snaps: map<string, QueueSnapshot>, ghost mine: set<QueueSnapshot>)
      requires Valid()
      ensures fresh(mine) && Trial(snaps, mine) && Usage(snaps) == Usage(Named())
      ensures forall p | p in allocationsByQueue :: p in snaps && IsCopy(snaps[p], allocationsByQueue[p])
    {
      hide Named, Linked, IsCopy, Valid;
      ghost var asked := AskQueues();
      var cache := FillCache();
      snaps := cache.entries;
      mine := snaps.Values;
      forall p | p in snaps
        ensures Linked(snaps, Named(), p) && snaps[p].used == Named()[p].used && IsCopy(snaps[p], Named()[p])
      {
        EntryFacts(cache.entries, cache.originals, p);
      }
      assert fresh(mine);
      forall s | s in asked
        ensures s !in mine
      {
        assert old(allocated(s));
      }
    }

    lemma EntryFacts(entries: map<string, QueueSnapshot>, originals: map<string, QueueSnapshot>, p: string)
      requires p in entries && p in originals && EntryValid(entries, originals, p)
      ensures Linked(entries, originals, p) && entries[p].used == originals[p].used && IsCopy(entries[p], originals[p])
    {
    }

    method FillCache() returns (cache: Duplicates)
      requires Valid()
      ensures fresh(cache) && cache.Valid() && cache.originals == Named()
      ensures forall p | p in cache.entries :: fresh(cache.entries[p])
      ensures forall p | p in allocationsByQueue :: p in cache.entries && cache.originals[p] == allocationsByQueue[p]
    {
      hide EntryValid, PathsNameQueues, Named, Queues;
      cache := new Duplicates();
      var todo := allocationsByQueue.Keys;
      while todo != {}
        invariant todo <= allocationsByQueue.Keys
        invariant fresh(cache) && cache.Valid() && CopiesOf(cache, Queues())
        invariant forall p | p in cache.entries :: fresh(cache.entries[p])
        invariant forall p | p in allocationsByQueue && p !in todo :: p in cache.entries
        decreases todo
      {
        var p :| p in todo;
        todo := todo - {p};
        OwnChain(p);
        var copy := Duplicate(allocationsByQueue[p], cache, Queues());
      }
      forall p | p in allocationsByQueue
        ensures cache.originals[p] == allocationsByQueue[p]
      {
        SameQueue(p, cache.originals[p]);
      }
      AllDuplicated(cache);
    }

    lemma OwnChain(p: string)
      requires Valid() && p in allocationsByQueue
      ensures allocationsByQueue[p].chain <= Queues()
    {
    }

    /** The originals are the queues and all their ancestors. */
    lemma AllDuplicated(cache: Duplicates)
      requires Valid() && cache.Valid() && CopiesOf(cache, Queues())
      requires forall p | p in allocationsByQueue :: p in cache.entries && cache.originals[p] == allocationsByQueue[p]
      ensures cache.originals == Named()
    {
      hide Linked, EntryValid, Named, Queues, Valid, QueueSnapshot.Valid, PathsNameQueues;
      NamedIff();
      forall p | p in cache.entries
        ensures Linked(cache.entries, cache.originals, p)
      {
        EntryFacts(cache.entries, cache.originals, p);
      }
      forall s | s in Queues()
        ensures s.queuePath in cache.originals && cache.originals[s.queuePath] == s
      {
        var p := ListedBelow(s);
        AncestorsListed(cache.entries, cache.originals, p, s);
      }
    }

    lemma ListedBelow(s: QueueSnapshot) returns (p: string)
      requires s in Queues()
      ensures p in allocationsByQueue && s in allocationsByQueue[p].chain
    {
      p :| p in allocationsByQueue && s in allocationsByQueue[p].chain;
    }

    lemma SameQueue(p: string, s: QueueSnapshot)
      requires Valid() && p in allocationsByQueue && s in Queues() && s.queuePath == p
      ensures s == allocationsByQueue[p]
    {
      assert allocationsByQueue[p] in allocationsByQueue[p].chain;
    }

    /**
     The victims to try on one node and the number of them, minus one, after which the ask fits. A nil
     list means that the node is of no use: the ask's queue is unknown, or the ask does not even fit with
     all the victims that pass both rounds. The queue snapshots are not changed (no modifies clause).
     */
    method CalculateVictimsByNode(nodeAvailable: Amounts, potentialVictims: seq<Allocation>)
      returns (index: int, victims: Option<seq<Allocation>>, ghost sorted: seq<Attempt>, ghost checked: seq<Attempt>)
      requires Valid() && NonNegative(ask.resource) && NoMinimum(nodeAvailable)
      requires forall v | v in potentialVictims :: NonNegative(v.resource)
      ensures FitIn(nodeAvailable, ask.resource) ==> index == -1 && victims == Some([])
      ensures !FitIn(nodeAvailable, ask.resource) && victims.Some? ==>
                && LeastFit(index, ResourcesOf(victims.value), nodeAvailable, ask.resource)
                && multiset(victims.value) <= multiset(potentialVictims)
      ensures victims.None? ==> index == -1
      ensures !FitIn(nodeAvailable, ask.resource) && queuePath !in Named() ==> victims.None?
      ensures !FitIn(nodeAvailable, ask.resource) && queuePath in Named() ==>
                && PassOver(Sorting, sorted, potentialVictims, Origin(nodeAvailable))
                && PassOver(Checking, checked, Chosen(sorted, Head) + Chosen(sorted, Tail), Origin(nodeAvailable))
                && AllShrink(ResourcesOf(Chosen(sorted, Head)), nodeAvailable, ask.resource)
                && var kept := Chosen(checked, Head);
                   if NoFit(|kept|, ResourcesOf(kept), nodeAvailable, ask.resource) then victims.None? else victims == Some(kept)
    {
      hide FitIn, NonNegative, NoMinimum, AllShrink, LeastFit, NoFit, PassOver, ResourcesOf, Chosen, Named, Valid, Origin;
      sorted, checked := [], [];
      ghost var start := Origin(nodeAvailable);
      if FitIn(nodeAvailable, ask.resource) {
        return -1, Some([]), [], [];
      }
      var known, head, tail;
      known, head, tail, sorted := SortOnCopies(nodeAvailable, potentialVictims, start);
      if !known { return -1, None, sorted, []; }
      head := head + tail;
      NothingChecked(nodeAvailable);
      if |head| == 0 {
        assert head == [];
        return -1, None, sorted, [];
      }
      var results;
      known, index, results, checked := CheckOnCopies(nodeAvailable, head, start);
      if !known || index < 0 { return -1, None, sorted, checked; }
      NotNoFit(index, ResourcesOf(results), nodeAvailable, ask.resource);
      return index, Some(results), sorted, checked;
    }

    lemma NotNoFit(index: int, rs: seq<Amounts>, available: Amounts, ask: Amounts)
      requires LeastFit(index, rs, available, ask)
      ensures !NoFit(|rs|, rs, available, ask)
    {
    }

    /** The first pass, on duplicates of its own. */
    method SortOnCopies(nodeAvailable: Amounts, potentialVictims: seq<Allocation>, ghost start: Start)
      returns (known: bool, head: seq<Allocation>, tail: seq<Allocation>, ghost sorted: seq<Attempt>)
      requires Valid() && start == Origin(nodeAvailable) && NonNegative(ask.resource) && NoMinimum(nodeAvailable)
      requires forall v | v in potentialVictims :: NonNegative(v.resource)
      ensures Origin(nodeAvailable) == start && (known <==> queuePath in Named())
      ensures known ==> PassOver(Sorting, sorted, potentialVictims, start)
      ensures known ==> head == Chosen(sorted, Head) && tail == Chosen(sorted, Tail)
      ensures known ==> multiset(head + tail) <= multiset(potentialVictims)
      ensures known ==> AllShrink(ResourcesOf(head), nodeAvailable, ask.resource)
    {
      hide NonNegative, NoMinimum, AllShrink, PassOver, ResourcesOf, Chosen, Named, Trial, Usage, Standing;
      var snaps, mine := DuplicateQueueSnapshots();
      SamePaths(snaps, mine);
      OriginStays(nodeAvailable);
      if queuePath !in snaps { return false, [], [], []; }
      known := true;
      head, tail, sorted := FirstPass(nodeAvailable, potentialVictims, snaps, mine, start);
      OriginStays(nodeAvailable);
    }

    /** The second pass, on duplicates of its own. */
    method CheckOnCopies(nodeAvailable: Amounts, head: seq<Allocation>, ghost start: Start)
      returns (known: bool, index: int, results: seq<Allocation>, ghost checked: seq<Attempt>)
      requires Valid() && start == Origin(nodeAvailable) && !FitIn(nodeAvailable, ask.resource)
      ensures Origin(nodeAvailable) == start && (known <==> queuePath in Named())
      ensures known ==> PassOver(Checking, checked, head, start) && results == Chosen(checked, Head)
      ensures known ==>
                if index >= 0 then LeastFit(index, ResourcesOf(results), nodeAvailable, ask.resource)
                else NoFit(|results|, ResourcesOf(results), nodeAvailable, ask.resource)
      ensures known ==> multiset(results) <= multiset(head)
    {
      hide FitIn, LeastFit, NoFit, PassOver, ResourcesOf, Chosen, Named, Trial, Usage, Standing;
      var snaps, mine := DuplicateQueueSnapshots();
      SamePaths(snaps, mine);
      OriginStays(nodeAvailable);
      if queuePath !in snaps { return false, -1, [], []; }
      known := true;
      index, results, checked := SecondPass(nodeAvailable, head, snaps, mine, start);
      OriginStays(nodeAvailable);
    }

    twostate lemma OriginStays(nodeAvailable: Amounts)
      requires Valid() && ask.resource == old(ask.resource)
      requires forall s | s in Queues() + AskQueues() :: allocated(s) && old(allocated(s)) && s.used == old(s.used)
      ensures Origin(nodeAvailable) == old(Origin(nodeAvailable))
    {
      hide Named, Queues, AskQueues, Valid;
      NamedIff();
    }

    lemma SamePaths(snaps: map<string, QueueSnapshot>, mine: set<QueueSnapshot>)
      requires Valid() && Trial(snaps, mine)
      ensures snaps.Keys == Named().Keys
    {
    }

    /** Nothing to check is checked in no rounds, and nothing fits. */
    lemma NothingChecked(nodeAvailable: Amounts)
      requires Valid() && queuePath in Named() && !FitIn(nodeAvailable, ask.resource)
      ensures PassOver(Checking, [], [], Origin(nodeAvailable))
      ensures Chosen([], Head) == [] && NoFit(0, ResourcesOf([]), nodeAvailable, ask.resource)
    {
      NothingTaken(nodeAvailable, ask.resource);
    }

    /** Victims that shrink the shortfall, in order, and the rest that would not break a guarantee. */
    method FirstPass(nodeAvailable: Amounts, potentialVictims: seq<Allocation>,
                     snaps: map<string, QueueSnapshot>, ghost mine: set<QueueSnapshot>, ghost start: Start)
      returns (head: seq<Allocation>, tail: seq<Allocation>, ghost tried: seq<Attempt>)
      requires Valid() && queuePath in Named() && Trial(snaps, mine)
      requires start == Start(ask.resource, nodeAvailable, Usage(snaps), Standing(AskQueues()))
      requires NonNegative(ask.resource) && NoMinimum(nodeAvailable)
      requires forall v | v in potentialVictims :: NonNegative(v.resource)
      modifies mine
      ensures PassOver(Sorting, tried, potentialVictims, start)
      ensures head == Chosen(tried, Head) && tail == Chosen(tried, Tail)
      ensures multiset(head + tail) <= multiset(potentialVictims)
      ensures AllShrink(ResourcesOf(head), nodeAvailable, ask.resource)
    {
      hide AllShrink, NonNegative, NoMinimum, Plus, TrialMoved, ResourcesOf, Chosen, Named, Trial, Usage, Queues, AskQueues, Standing;
      hide Trace, Right, UsagesNow, AvailableNow, UsagesAfter, Valid, Underway, PassOver;
      var available := nodeAvailable;
      head, tail, tried := [], [], [];
      NothingTried(Sorting, potentialVictims, start);
      for i := 0 to |potentialVictims|
        invariant start.ask == ask.resource && start.standing == Standing(AskQueues())
        invariant |tried| == i && Underway(Sorting, tried, potentialVictims, start)
        invariant i == |potentialVictims| ==> PassOver(Sorting, tried, potentialVictims, start)
        invariant head == Chosen(tried, Head) && tail == Chosen(tried, Tail)
        invariant available == AvailableNow(tried, start) && Usage(snaps) == UsagesNow(Sorting, tried, start)
      {
        var victim := potentialVictims[i];
        ghost var usages := Usage(snaps);
        var verdict := TryVictim(victim, available, snaps, mine, start);
        ghost var a := Attempt(victim, victim.resource, verdict, available, usages);
        RoundDone(Sorting, tried, a, potentialVictims, start);
        tried := tried + [a];
        match verdict
        case Skip =>
        case Stop => break;
        case Tail => tail := tail + [victim];
        case Head =>
          available := Plus(available, victim.resource);
          head := head + [victim];
      }
      HeadAndTail(tried, potentialVictims, start);
    }

    lemma PassFollows(pass: Pass, tried: seq<Attempt>, list: seq<Allocation>, start: Start)
      requires Valid() && queuePath in Named() && PassOver(pass, tried, list, start)
      ensures Follows(tried, list)
    {
    }

    /** What the two lists of the first pass hold. */
    lemma HeadAndTail(tried: seq<Attempt>, list: seq<Allocation>, start: Start)
      requires Valid() && queuePath in Named() && PassOver(Sorting, tried, list, start)
      requires NonNegative(start.ask) && NoMinimum(start.available) && forall v | v in list :: NonNegative(v.resource)
      ensures multiset(Chosen(tried, Head) + Chosen(tried, Tail)) <= multiset(list)
      ensures AllShrink(ResourcesOf(Chosen(tried, Head)), start.available, start.ask)
    {
      hide AllShrink, NonNegative, NoMinimum, ResourcesOf, Chosen, ChosenSizes, Named, Valid, Trace;
      ChosenFrom(tried, list);
      HeadsShrink(tried, start);
      ChosenResources(tried, Head);
    }

    /** A pass that has not stopped. */
    ghost predicate Underway(pass: Pass, tried: seq<Attempt>, list: seq<Allocation>, start: Start)
      requires Valid() && queuePath in Named()
      reads list
    {
      && Trace(pass, tried, start) && Follows(tried, list)
      && (forall i | 0 <= i < |tried| :: tried[i].size == tried[i].victim.resource)
      && (tried != [] ==> !tried[|tried| - 1].verdict.Stop?)
    }

    lemma RoundDone(pass: Pass, tried: seq<Attempt>, a: Attempt, list: seq<Allocation>, start: Start)
      requires Valid() && queuePath in Named() && Underway(pass, tried, list, start)
      requires |tried| < |list| && a.victim == list[|tried|] && a.size == a.victim.resource
      requires Right(pass, a, start) && a.available == AvailableNow(tried, start) && a.usages == UsagesNow(pass, tried, start)
      ensures if a.verdict.Stop? || |tried| + 1 == |list| then PassOver(pass, tried + [a], list, start)
              else Underway(pass, tried + [a], list, start)
      ensures !a.verdict.Stop? ==> Underway(pass, tried + [a], list, start)
      ensures AvailableNow(tried + [a], start) == AvailableAfter(a) && UsagesNow(pass, tried + [a], start) == UsagesAfter(pass, a)
      ensures forall v: Verdict :: Chosen(tried + [a], v) == if a.verdict == v then Chosen(tried, v) + [a.victim] else Chosen(tried, v)
    {
      hide Trace, Right, AvailableNow, UsagesNow, UsagesAfter, AvailableAfter, Valid, Named, Chosen;
      TraceOneMore(pass, tried, a, start);
      forall v: Verdict
        ensures Chosen(tried + [a], v) == if a.verdict == v then Chosen(tried, v) + [a.victim] else Chosen(tried, v)
      {
        ChosenOneMore(tried, a, v);
      }
    }

    lemma NothingTried(pass: Pass, list: seq<Allocation>, start: Start)
      requires Valid() && queuePath in Named()
      ensures Underway(pass, [], list, start) && (list == [] ==> PassOver(pass, [], list, start))
      ensures Trace(pass, [], start) && AvailableNow([], start) == start.available && UsagesNow(pass, [], start) == start.usages
      ensures forall v: Verdict :: Chosen([], v) == []
    {
    }

    /** A candidate of an unknown queue is passed over and changes nothing. */
    lemma NotTried(pass: Pass, victim: Allocation, available: Amounts, usages: map<string, Amounts>, start: Start)
      requires Valid() && queuePath in Named()
      requires victim.key !in queueByAlloc || queueByAlloc[victim.key].queuePath !in Named()
      ensures var a := Attempt(victim, victim.resource, Skip, available, usages);
              Right(pass, a, start) && UsagesAfter(pass, a) == usages
    {
      hide Named, Valid, MayLose, MayGain, ShortfallStays, Lowered, QueueSnapshot.RemainingBy, QueueSnapshot.Paths;
    }

    /** What a round says about the queues themselves. */
    lemma ChainPaths(snaps: map<string, QueueSnapshot>, mine: set<QueueSnapshot>, p: string)
      requires Valid() && Trial(snaps, mine) && p in snaps
      ensures p in Named() && snaps[p].Valid() && snaps[p].chain <= mine
      ensures forall r | r in snaps :: snaps[r] in snaps[p].chain <==> r in Named()[p].Paths()
    {
      hide Named;
      assert Linked(snaps, Named(), p);
      forall r | r in snaps
        ensures snaps[r] in snaps[p].chain <==> r in Named()[p].Paths()
      {
        ChainByPath(snaps, Named(), p, r);
      }
    }

    lemma RemainingOfCopy(snaps: map<string, QueueSnapshot>, mine: set<QueueSnapshot>, p: string)
      requires Valid() && Trial(snaps, mine) && p in snaps
      ensures p in Named() && Named()[p].Valid() && snaps[p].Valid()
      ensures snaps[p].GetRemainingGuaranteedResource() == Named()[p].RemainingBy(Usage(snaps), Standing(AskQueues()))
    {
      hide QueueSnapshot.GetRemainingGuaranteedResource, QueueSnapshot.RemainingBy;
      assert Linked(snaps, Named(), p);
      RemainingByPath(snaps, Named(), p, Standing(AskQueues()));
    }

    /** One round of the first pass, with all changes to the trial usage undone unless the victim joins the head. */
    method TryVictim(victim: Allocation, available: Amounts, snaps: map<string, QueueSnapshot>, ghost mine: set<QueueSnapshot>,
                     ghost start: Start)
      returns (verdict: Verdict)
      requires Valid() && queuePath in Named() && Trial(snaps, mine)
      requires start.ask == ask.resource && start.standing == Standing(AskQueues())
      modifies mine
      ensures var a := Attempt(victim, victim.resource, verdict, available, old(Usage(snaps)));
              && Right(Sorting, a, start)
              && Usage(snaps) == UsagesAfter(Sorting, a) && Standing(AskQueues()) == start.standing
      ensures verdict.Head? ==> victim.key in queueByAlloc && queueByAlloc[victim.key].queuePath in snaps
      ensures queuePath in snaps
      ensures TrialMoved(mine, victim.resource,
                         if verdict.Head? then snaps[queueByAlloc[victim.key].queuePath].chain else {},
                         if verdict.Head? then snaps[queuePath].chain else {})
    {
      hide Moved, RoomFor, AfterRound, MayLose, MayGain, ShortfallStays, Usage, Named, Lowered, Rounded, Standing;
      hide Right, UsagesAfter, QueueOf, Valid, Trial, Queues, AskQueues, QueueSnapshot.RemainingBy, QueueSnapshot.Paths;
      SamePaths(snaps, mine);
      ghost var usages := Usage(snaps);
      if victim.key !in queueByAlloc || queueByAlloc[victim.key].queuePath !in snaps {
        NotTried(Sorting, victim, available, usages, start);
        forall s | s in mine && RoomFor(s.used, victim.resource)
          ensures Moved(s.used, s.used, victim.resource, false, false)
        {
          MovedOut(s.used, victim.resource);
        }
        return Skip;
      }
      var p := queueByAlloc[victim.key].queuePath;
      verdict := TryVictimInQueue(victim.resource, available, p, snaps, mine);
      SortedRight(victim, verdict, available, usages, start, p);
      forall s | s in mine && old(RoomFor(s.used, victim.resource))
        ensures Moved(old(s.used), s.used, victim.resource, verdict.Head? && s in snaps[p].chain, verdict.Head? && s in snaps[queuePath].chain)
      {
        RoundMoves(verdict, old(s.used), victim.resource, s in snaps[p].chain, s in snaps[queuePath].chain);
      }
    }

    lemma KnownQueue(victim: Allocation)
      requires Valid() && victim.key in queueByAlloc && queueByAlloc[victim.key].queuePath in Named()
      ensures QueueOf(victim) == Some(Named()[queueByAlloc[victim.key].queuePath])
    {
    }

    lemma SortedRight(victim: Allocation, verdict: Verdict, available: Amounts, usages: map<string, Amounts>, start: Start, p: string)
      requires Valid() && queuePath in Named() && p in Named()
      requires victim.key in queueByAlloc && queueByAlloc[victim.key].queuePath == p
      requires verdict.Skip? <==> !MayLose(start.ask, Named()[p].RemainingBy(usages, start.standing))
      requires verdict.Stop? <==>
                 && !verdict.Skip?
                 && !MayGain(Named()[queuePath].RemainingBy(Lowered(usages, Named()[p].Paths(), victim.resource), start.standing), victim.resource)
      requires verdict.Head? || verdict.Tail? ==> (verdict.Tail? <==> ShortfallStays(start.ask, available, victim.resource))
      ensures var a := Attempt(victim, victim.resource, verdict, available, usages);
              && Right(Sorting, a, start)
              && UsagesAfter(Sorting, a) == Rounded(verdict, usages, victim.resource, Named()[p].Paths(), Named()[queuePath].Paths())
    {
      hide MayLose, MayGain, ShortfallStays, Lowered, Rounded, Named, Valid, QueueOf, QueueSnapshot.RemainingBy, QueueSnapshot.Paths;
      KnownQueue(victim);
    }

    lemma CheckedRight(victim: Allocation, keep: bool, available: Amounts, usages: map<string, Amounts>, start: Start, p: string)
      requires Valid() && queuePath in Named() && p in Named()
      requires victim.key in queueByAlloc && queueByAlloc[victim.key].queuePath == p
      requires keep <==> MayLose(start.ask, Named()[p].RemainingBy(usages, start.standing))
      ensures var a := Attempt(victim, victim.resource, if keep then Head else Skip, available, usages);
              && Right(Checking, a, start)
              && UsagesAfter(Checking, a) == Rounded(a.verdict, usages, victim.resource, Named()[p].Paths(), {})
    {
      hide MayLose, Rounded, Named, Valid, QueueOf, QueueSnapshot.RemainingBy, QueueSnapshot.Paths;
      KnownQueue(victim);
    }

    /** The usage of the duplicates after a change along one chain, by path. */
    lemma LoweredUsage(snaps: map<string, QueueSnapshot>, mine: set<QueueSnapshot>, p: string, before: map<string, Amounts>, res: Amounts)
      requires Valid() && Trial(snaps, mine) && p in snaps && before.Keys == snaps.Keys
      requires forall r | r in snaps :: snaps[r].used == if snaps[r] in snaps[p].chain then Minus(before[r], res) else before[r]
      ensures p in Named() && Usage(snaps) == Lowered(before, Named()[p].Paths(), res)
    {
      hide Named, Minus, Trial;
      ChainPaths(snaps, mine, p);
    }

    lemma RoundedUsage(snaps: map<string, QueueSnapshot>, mine: set<QueueSnapshot>, p: string, before: map<string, Amounts>,
                       verdict: Verdict, res: Amounts, into: set<string>, intoChain: set<QueueSnapshot>)
      requires Valid() && Trial(snaps, mine) && p in snaps && before.Keys == snaps.Keys
      requires forall r | r in snaps :: snaps[r] in intoChain <==> r in into
      requires forall r | r in snaps ::
                 snaps[r].used == AfterRound(verdict, before[r], res, snaps[r] in snaps[p].chain, snaps[r] in intoChain)
      ensures p in Named() && Usage(snaps) == Rounded(verdict, before, res, Named()[p].Paths(), into)
    {
      hide Named, AfterRound, Trial;
      ChainPaths(snaps, mine, p);
    }

    method HasRoom(res: Amounts, snaps: map<string, QueueSnapshot>, ghost mine: set<QueueSnapshot>) returns (room: bool)
      requires Valid() && queuePath in Named() && Trial(snaps, mine) && queuePath in snaps
      ensures room == MayGain(Named()[queuePath].RemainingBy(Usage(snaps), Standing(AskQueues())), res)
    {
      hide Named, Trial, Usage, Standing, QueueSnapshot.RemainingBy, QueueSnapshot.GetRemainingGuaranteedResource, MayGain;
      RemainingOfCopy(snaps, mine, queuePath);
      room := MayGain(snaps[queuePath].GetRemainingGuaranteedResource(), res);
    }

    method TryVictimInQueue(res: Amounts, available: Amounts, p: string, snaps: map<string, QueueSnapshot>, ghost mine: set<QueueSnapshot>)
      returns (verdict: Verdict)
      requires Valid() && queuePath in Named() && Trial(snaps, mine) && p in snaps && p in Named() && queuePath in snaps
      modifies mine
      ensures Standing(AskQueues()) == old(Standing(AskQueues()))
      ensures verdict.Skip? <==> !MayLose(ask.resource, Named()[p].RemainingBy(old(Usage(snaps)), Standing(AskQueues())))
      ensures verdict.Stop? <==>
                && !verdict.Skip?
                && !MayGain(Named()[queuePath].RemainingBy(Lowered(old(Usage(snaps)), Named()[p].Paths(), res), Standing(AskQueues())), res)
      ensures verdict.Head? || verdict.Tail? ==> (verdict.Tail? <==> ShortfallStays(ask.resource, available, res))
      ensures forall s | s in mine :: s.used == AfterRound(verdict, old(s.used), res, s in snaps[p].chain, s in snaps[queuePath].chain)
      ensures Usage(snaps) == Rounded(verdict, old(Usage(snaps)), res, Named()[p].Paths(), Named()[queuePath].Paths())
    {
      hide Plus, Minus, StrictlyGreaterThanOrEquals, MayLose, MayGain, ShortfallStays, Named, Trial, Standing, Lowered, Rounded;
      hide QueueSnapshot.GetRemainingGuaranteedResource, QueueSnapshot.GetPreemptableResource, QueueSnapshot.RemainingBy;
      hide Queues, AskQueues, Valid, QueueSnapshot.Valid, QueueSnapshot.Paths;
      ghost var before, asked := Usage(snaps), AskQueues();
      ghost var standing := Standing(asked);
      InTrial(snaps, mine);
      ChainPaths(snaps, mine, p);
      ChainPaths(snaps, mine, queuePath);
      var snap, askQueue := snaps[p], snaps[queuePath];
      RemainingOfCopy(snaps, mine, p);
      var remaining := snap.GetRemainingGuaranteedResource();
      snap.RemoveAllocation(res);
      LoweredUsage(snaps, mine, p, before, res);
      assert Standing(asked) == standing by {
        assert forall s | s in asked :: s.used == old(s.used);
      }
      var preemptable := snap.GetPreemptableResource();
      snap.PreemptableTestHolds();
      if !(StrictlyGreaterThanOrEquals(OrZero(preemptable), map[]) && MayLose(ask.resource, remaining)) {
        snap.AddAllocation(res);
        verdict := Skip;
      } else {
        var room := HasRoom(res, snaps, mine);
        if room {
          verdict := TryAskQueue(res, available, snap, askQueue, mine);
        } else {
          snap.AddAllocation(res);
          verdict := Stop;
        }
      }
      assert Standing(asked) == standing by {
        assert forall s | s in asked :: s.used == old(s.used);
      }
      RoundedUsage(snaps, mine, p, before, verdict, res, Named()[queuePath].Paths(), askQueue.chain);
    }

    /** The duplicates are what a trial may change, and the queues of the ask are not among them. */
    lemma InTrial(snaps: map<string, QueueSnapshot>, mine: set<QueueSnapshot>)
      requires Valid() && Trial(snaps, mine)
      ensures forall r | r in snaps :: snaps[r] in mine
      ensures forall s | s in mine :: exists r :: r in snaps && snaps[r] == s
      ensures mine !! AskQueues()
    {
    }

    /** The victim is moved to the ask's queue, and back again if the shortfall does not change. */
    method TryAskQueue(res: Amounts, available: Amounts, snap: QueueSnapshot, askQueue: QueueSnapshot,
                       ghost mine: set<QueueSnapshot>)
      returns (verdict: Verdict)
      requires snap.Valid() && askQueue.Valid() && snap.chain <= mine && askQueue.chain <= mine
      modifies mine
      ensures verdict == if ShortfallStays(ask.resource, available, res) then Tail else Head
      ensures forall s | s in mine :: s.used == AfterAsk(verdict, old(s.used), res, s in snap.chain, s in askQueue.chain)
    {
      hide Plus, Minus, SubEliminateNegative, EqualsOrEmpty;
      askQueue.AddAllocation(res);
      var shortfall := SubEliminateNegative(ask.resource, available);
      var newShortfall := SubEliminateNegative(ask.resource, Plus(available, res));
      EqualsIsSameView(shortfall, newShortfall);
      if EqualsOrEmpty(shortfall, newShortfall) {
        askQueue.RemoveAllocation(res);
        snap.AddAllocation(res);
        return Tail;
      }
      return Head;
    }

    /** The order is fixed now: keep what does not break a guarantee, and note when the ask first fits. */
    method SecondPass(nodeAvailable: Amounts, head: seq<Allocation>,
                      snaps: map<string, QueueSnapshot>, ghost mine: set<QueueSnapshot>, ghost start: Start)
      returns (index: int, results: seq<Allocation>, ghost tried: seq<Attempt>)
      requires Valid() && queuePath in Named() && Trial(snaps, mine) && !FitIn(nodeAvailable, ask.resource)
      requires start == Start(ask.resource, nodeAvailable, Usage(snaps), Standing(AskQueues()))
      modifies mine
      ensures PassOver(Checking, tried, head, start) && results == Chosen(tried, Head)
      ensures if index >= 0 then LeastFit(index, ResourcesOf(results), nodeAvailable, ask.resource)
              else NoFit(|results|, ResourcesOf(results), nodeAvailable, ask.resource)
      ensures multiset(results) <= multiset(head)
    {
      hide LeastFit, NoFit, Freed, FitIn, TrialMoved, Plus, ResourcesOf, Chosen, Named, Trial, Usage, Queues, AskQueues, Standing;
      hide Trace, Right, UsagesNow, AvailableNow, UsagesAfter, Valid, Underway, PassOver;
      var available := nodeAvailable;
      index, results, tried := -1, [], [];
      ghost var rs: seq<Amounts> := [];
      NothingTaken(nodeAvailable, ask.resource);
      NothingTried(Checking, head, start);
      for i := 0 to |head|
        invariant start.ask == ask.resource && start.standing == Standing(AskQueues())
        invariant |tried| == i && Underway(Checking, tried, head, start)
        invariant i == |head| ==> PassOver(Checking, tried, head, start)
        invariant results == Chosen(tried, Head) && rs == ResourcesOf(results)
        invariant available == AvailableNow(tried, start) && Usage(snaps) == UsagesNow(Checking, tried, start)
        invariant available == Freed(nodeAvailable, rs, |rs|)
        invariant if index >= 0 then LeastFit(index, rs, nodeAvailable, ask.resource)
                  else NoFit(|rs|, rs, nodeAvailable, ask.resource)
      {
        var victim := head[i];
        ghost var usages := Usage(snaps);
        var keep := KeepVictim(victim, available, snaps, mine, start);
        ghost var a := Attempt(victim, victim.resource, if keep then Head else Skip, available, usages);
        RoundDone(Checking, tried, a, head, start);
        tried := tried + [a];
        if keep {
          LeastFitOneMore(index, rs, nodeAvailable, ask.resource, victim.resource);
          FreedOneMore(nodeAvailable, rs, victim.resource, |rs|);
          ResourcesOneMore(results, victim);
          available := Plus(available, victim.resource);
          if FitIn(available, ask.resource) && index < 0 {
            index := |results|;
          }
          results := results + [victim];
          rs := rs + [victim.resource];
        }
      }
      assert Follows(tried, head) by { PassFollows(Checking, tried, head, start); }
      ChosenFrom(tried, head);
    }

    /** One round of the second pass: the trial usage changes only for a victim that is kept, and only in its queue and ancestors. */
    method KeepVictim(victim: Allocation, available: Amounts, snaps: map<string, QueueSnapshot>, ghost mine: set<QueueSnapshot>,
                      ghost start: Start)
      returns (keep: bool)
      requires Valid() && queuePath in Named() && Trial(snaps, mine)
      requires start.ask == ask.resource && start.standing == Standing(AskQueues())
      modifies mine
      ensures var a := Attempt(victim, victim.resource, if keep then Head else Skip, available, old(Usage(snaps)));
              && Right(Checking, a, start)
              && Usage(snaps) == UsagesAfter(Checking, a) && Standing(AskQueues()) == start.standing
      ensures keep ==> victim.key in queueByAlloc && queueByAlloc[victim.key].queuePath in snaps
      ensures TrialMoved(mine, victim.resource, if keep then snaps[queueByAlloc[victim.key].queuePath].chain else {}, {})
    {
      hide Moved, RoomFor, AfterRound, MayLose, Usage, Named, Rounded, Standing;
      hide Right, UsagesAfter, QueueOf, Valid, Trial, Queues, AskQueues, QueueSnapshot.RemainingBy, QueueSnapshot.Paths;
      SamePaths(snaps, mine);
      ghost var usages := Usage(snaps);
      if victim.key !in queueByAlloc || queueByAlloc[victim.key].queuePath !in snaps {
        NotTried(Checking, victim, available, usages, start);
        forall s | s in mine && RoomFor(s.used, victim.resource)
          ensures Moved(s.used, s.used, victim.resource, false, false)
        {
          MovedOut(s.used, victim.resource);
        }
        return false;
      }
      var p := queueByAlloc[victim.key].queuePath;
      keep := KeepInQueue(victim.resource, p, snaps, mine);
      CheckedRight(victim, keep, available, usages, start, p);
      forall s | s in mine && old(RoomFor(s.used, victim.resource))
        ensures Moved(old(s.used), s.used, victim.resource, keep && s in snaps[p].chain, false)
      {
        RoundMoves(if keep then Head else Skip, old(s.used), victim.resource, s in snaps[p].chain, false);
      }
    }

    method KeepInQueue(res: Amounts, p: string, snaps: map<string, QueueSnapshot>, ghost mine: set<QueueSnapshot>) returns (keep: bool)
      requires Valid() && Trial(snaps, mine) && p in snaps && p in Named()
      modifies mine
      ensures Standing(AskQueues()) == old(Standing(AskQueues()))
      ensures keep <==> MayLose(ask.resource, Named()[p].RemainingBy(old(Usage(snaps)), Standing(AskQueues())))
      ensures forall s | s in mine :: s.used == AfterRound(if keep then Head else Skip, old(s.used), res, s in snaps[p].chain, false)
      ensures Usage(snaps) == Rounded(if keep then Head else Skip, old(Usage(snaps)), res, Named()[p].Paths(), {})
    {
      hide Plus, Minus, StrictlyGreaterThanOrEquals, MayLose, Named, Trial, Standing, Rounded;
      hide QueueSnapshot.GetRemainingGuaranteedResource, QueueSnapshot.GetPreemptableResource, QueueSnapshot.RemainingBy;
      hide Queues, AskQueues, Valid, QueueSnapshot.Valid, QueueSnapshot.Paths;
      ghost var before, asked := Usage(snaps), AskQueues();
      ghost var standing := Standing(asked);
      InTrial(snaps, mine);
      ChainPaths(snaps, mine, p);
      RemainingOfCopy(snaps, mine, p);
      var snap := snaps[p];
      var remaining := snap.GetRemainingGuaranteedResource();
      snap.RemoveAllocation(res);
      var preemptable := snap.GetPreemptableResource();
      snap.PreemptableTestHolds();
      keep := StrictlyGreaterThanOrEquals(OrZero(preemptable), map[]) && MayLose(ask.resource, remaining);
      if !keep {
        snap.AddAllocation(res);
      }
      assert Standing(asked) == standing by {
        assert forall s | s in asked :: s.used == old(s.used);
      }
      RoundedUsage(snaps, mine, p, before, if keep then Head else Skip, res, {}, {});
    }
  }

  lemma NothingTaken(available: Amounts, ask: Amounts)
    ensures Freed(available, [], 0) == available && AllShrink([], available, ask)
    ensures !FitIn(available, ask) ==> NoFit(0, [], available, ask)
  {
  }
}
