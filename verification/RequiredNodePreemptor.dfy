/**
 Preemption for an ask that requires one node (pkg/scheduler/objects/required_node_preemptor.go):
 filter the allocations of the node, and take victims from the front of the list until the ask is
 covered.
 */
module RequiredNodePreemptor {
  import opened Resources
  import opened Allocations

  /** The larger side has at least as much of every type. */
  ghost predicate Covers(larger: Amounts, smaller: Amounts) {
    forall k: string :: Get(smaller, k) <= Get(larger, k)
  }

  lemma CoversIsGreaterOrEqual(larger: Amounts, smaller: Amounts)
    ensures StrictlyGreaterThanOrEquals(larger, smaller) <==> Covers(larger, smaller)
  {
    if Covers(larger, smaller) {
      forall k | k in larger ensures Get(smaller, k) <= larger[k] { assert Get(smaller, k) <= Get(larger, k); }
      forall k | k in smaller ensures smaller[k] <= Get(larger, k) { assert Get(smaller, k) <= Get(larger, k); }
    }
  }

  /** The running total over the first n resources. */
  function PrefixSum(resources: seq<Amounts>, n: nat): Amounts
    requires n <= |resources|
  {
    if n == 0 then map[] else Plus(PrefixSum(resources, n - 1), resources[n - 1])
  }

  /** From position n on: the first position whose total covers the ask, or the end of the list. */
  function CoverFrom(resources: seq<Amounts>, ask: Amounts, n: nat): nat
    requires n <= |resources|
    decreases |resources| - n
  {
    if n == |resources| || StrictlyGreaterThanOrEquals(PrefixSum(resources, n), ask) then n
    else CoverFrom(resources, ask, n + 1)
  }

  /** The number of victims that are taken, before the check that they are of use. */
  function VictimCount(resources: seq<Amounts>, ask: Amounts): nat {
    CoverFrom(resources, ask, 0)
  }

  lemma {:induction false} CoverFromIsFirst(resources: seq<Amounts>, ask: Amounts, n: nat)
    requires n <= |resources|
    ensures n <= CoverFrom(resources, ask, n) <= |resources|
    ensures forall i | n <= i < CoverFrom(resources, ask, n) :: !Covers(PrefixSum(resources, i), ask)
    ensures var m := CoverFrom(resources, ask, n); m < |resources| ==> Covers(PrefixSum(resources, m), ask)
    decreases |resources| - n
  {
    hide Covers, StrictlyGreaterThanOrEquals, PrefixSum;
    CoversIsGreaterOrEqual(PrefixSum(resources, n), ask);
    if n < |resources| && !Covers(PrefixSum(resources, n), ask) {
      CoverFromIsFirst(resources, ask, n + 1);
    }
  }

  lemma {:induction false} SumsGrow(resources: seq<Amounts>, i: nat, n: nat, k: string)
    requires i <= n <= |resources| && forall j | 0 <= j < |resources| :: NonNegative(resources[j])
    ensures 0 <= Get(PrefixSum(resources, i), k) <= Get(PrefixSum(resources, n), k)
    decreases n
  {
    if i < n {
      SumsGrow(resources, i, n - 1, k);
    } else if n > 0 {
      SumsGrow(resources, n - 1, n - 1, k);
    }
  }

  /**
   For non-negative allocations the victims are the shortest prefix that covers the ask in every
   type: a prefix covers it exactly if it is at least that long. Without such a prefix it is the
   whole list.
   */
  lemma ShortestCover(resources: seq<Amounts>, ask: Amounts, n: nat)
    requires n <= |resources| && forall j | 0 <= j < |resources| :: NonNegative(resources[j])
    ensures VictimCount(resources, ask) <= |resources|
    ensures n < VictimCount(resources, ask) ==> !Covers(PrefixSum(resources, n), ask)
    ensures Covers(PrefixSum(resources, |resources|), ask) && n >= VictimCount(resources, ask) ==>
              Covers(PrefixSum(resources, n), ask)
    ensures !Covers(PrefixSum(resources, |resources|), ask) ==> VictimCount(resources, ask) == |resources|
  {
    CoverFromIsFirst(resources, ask, 0);
    var m := VictimCount(resources, ask);
    forall k: string, i, j | 0 <= i <= j <= |resources|
      ensures Get(PrefixSum(resources, i), k) <= Get(PrefixSum(resources, j), k)
    {
      SumsGrow(resources, i, j, k);
    }
    if n >= m && Covers(PrefixSum(resources, m), ask) {
      forall k: string
        ensures Get(ask, k) <= Get(PrefixSum(resources, n), k)
      {
        assert Get(ask, k) <= Get(PrefixSum(resources, m), k);
      }
    }
    if m < |resources| && Covers(PrefixSum(resources, m), ask) {
      forall k: string
        ensures Get(ask, k) <= Get(PrefixSum(resources, |resources|), k)
      {
        assert Get(ask, k) <= Get(PrefixSum(resources, m), k);
      }
    }
  }

  /** What an allocation must be to become a victim of an ask. */
  ghost predicate Eligible(a: Allocation, ask: Allocation)
    reads a, ask
  {
    && a.requiredNode == "" && a.priority <= ask.priority && !a.preempted && !a.released
    && MatchAny(ask.resource, a.resource)
  }

  ghost function Filtered(s: seq<Allocation>, ask: Allocation): seq<Allocation>
    reads s, ask
  {
    if s == [] then []
    else Filtered(s[..|s| - 1], ask) + (if Eligible(s[|s| - 1], ask) then [s[|s| - 1]] else [])
  }

  lemma {:induction false} FilteredAreEligible(s: seq<Allocation>, ask: Allocation)
    ensures forall a :: a in Filtered(s, ask) <==> a in s && Eligible(a, ask)
  {
    if s != [] {
      FilteredAreEligible(s[..|s| - 1], ask);
      assert s == s[..|s| - 1] + [s[|s| - 1]];
    }
  }

  /** Candidates keep the order they have on the node. */
  lemma {:induction false} FilteredJoin(s: seq<Allocation>, t: seq<Allocation>, ask: Allocation)
    ensures Filtered(s + t, ask) == Filtered(s, ask) + Filtered(t, ask)
  {
    if t == [] {
      assert s + t == s;
    } else {
      var last := t[|t| - 1];
      FilteredJoin(s, t[..|t| - 1], ask);
      assert (s + t)[..|s + t| - 1] == s + t[..|t| - 1] && (s + t)[|s + t| - 1] == last;
    }
  }

  // ---------- the reasons ----------

  /** Why an allocation is no candidate: the first of five reasons that applies. */
  datatype Reason = Required | HigherPriority | Preempted | NotMatched | Released | Fine

  ghost function WhyNot(a: Allocation, ask: Allocation): Reason
    reads a, ask
  {
    if a.requiredNode != "" then Required
    else if a.priority > ask.priority then HigherPriority
    else if a.preempted then Preempted
    else if !MatchAny(ask.resource, a.resource) then NotMatched
    else if a.released then Released
    else Fine
  }

  ghost function Reasons(s: seq<Allocation>, ask: Allocation): (r: seq<Reason>)
    reads s, ask
    ensures |r| == |s| && forall i | 0 <= i < |s| :: r[i] == WhyNot(s[i], ask)
  {
    seq(|s|, i requires 0 <= i < |s| reads s, ask => WhyNot(s[i], ask))
  }

  datatype FilteringResult = FilteringResult(
    total: nat, requiredNode: nat, notMatched: nat, higherPriority: nat, alreadyPreempted: nat, released: nat)

  ghost function Times(reasons: seq<Reason>, why: Reason): nat {
    if reasons == [] then 0
    else Times(reasons[..|reasons| - 1], why) + if reasons[|reasons| - 1] == why then 1 else 0
  }

  /** Every counter is the number of times its reason applies. */
  ghost predicate Counts(r: FilteringResult, reasons: seq<Reason>) {
    && r.requiredNode == Times(reasons, Required) && r.higherPriority == Times(reasons, HigherPriority)
    && r.alreadyPreempted == Times(reasons, Preempted) && r.notMatched == Times(reasons, NotMatched)
    && r.released == Times(reasons, Released)
  }

  lemma NoneCounted(r: FilteringResult)
    ensures r == FilteringResult(r.total, 0, 0, 0, 0, 0) ==> Counts(r, [])
    ensures Kept([], []) == []
  {
  }

  lemma CountsOneMore(r: FilteringResult, reasons: seq<Reason>, i: nat)
    requires i < |reasons| && Counts(r, reasons[..i])
    ensures Counts(Counting(r, reasons[i]), reasons[..i + 1])
  {
    assert reasons[..i + 1][..i] == reasons[..i];
  }

  ghost function Counting(r: FilteringResult, why: Reason): FilteringResult {
    match why
    case Required => r.(requiredNode := r.requiredNode + 1)
    case HigherPriority => r.(higherPriority := r.higherPriority + 1)
    case Preempted => r.(alreadyPreempted := r.alreadyPreempted + 1)
    case NotMatched => r.(notMatched := r.notMatched + 1)
    case Released => r.(released := r.released + 1)
    case Fine => r
  }

  /** The allocations without a reason against them. */
  ghost function Kept(s: seq<Allocation>, reasons: seq<Reason>): seq<Allocation>
    requires |s| == |reasons|
  {
    if s == [] then []
    else
      var n := |s| - 1;
      Kept(s[..n], reasons[..n]) + if reasons[n].Fine? then [s[n]] else []
  }

  lemma KeptOneMore(s: seq<Allocation>, reasons: seq<Reason>, i: nat)
    requires |s| == |reasons| && i < |s|
    ensures Kept(s[..i + 1], reasons[..i + 1])
            == if reasons[i].Fine? then Kept(s[..i], reasons[..i]) + [s[i]] else Kept(s[..i], reasons[..i])
  {
    assert s[..i + 1][..i] == s[..i] && reasons[..i + 1][..i] == reasons[..i];
  }

  lemma {:induction false} KeptAreFiltered(s: seq<Allocation>, ask: Allocation)
    ensures Kept(s, Reasons(s, ask)) == Filtered(s, ask)
  {
    if s != [] {
      var n := |s| - 1;
      KeptAreFiltered(s[..n], ask);
      assert Reasons(s, ask)[..n] == Reasons(s[..n], ask);
    }
  }

  /** Kept or counted, each once. */
  lemma {:induction false} AllCounted(s: seq<Allocation>, reasons: seq<Reason>)
    requires |s| == |reasons|
    ensures Times(reasons, Required) + Times(reasons, NotMatched) + Times(reasons, HigherPriority) + Times(reasons, Preempted)
            + Times(reasons, Released) + |Kept(s, reasons)| == |s|
  {
    if s != [] {
      var n := |s| - 1;
      AllCounted(s[..n], reasons[..n]);
    }
  }

  lemma CountsMean(r: FilteringResult, reasons: seq<Reason>)
    requires Counts(r, reasons)
    ensures r.requiredNode + r.notMatched + r.higherPriority + r.alreadyPreempted + r.released
            == Times(reasons, Required) + Times(reasons, NotMatched) + Times(reasons, HigherPriority) + Times(reasons, Preempted)
               + Times(reasons, Released)
  {
  }

  class PreemptionContext {
    const requiredAsk: Allocation
    var candidates: seq<Allocation>

    constructor (ask: Allocation)
      ensures requiredAsk == ask && candidates == []
    {
      requiredAsk := ask;
      candidates := [];
    }

    /** Every allocation of the node is either kept or counted in exactly one of the reasons. */
    method FilterAllocations(onNode: seq<Allocation>) returns (result: FilteringResult)
      modifies this
      ensures candidates == old(candidates) + Filtered(onNode, requiredAsk)
      ensures result.total == |onNode|
      ensures result.requiredNode + result.notMatched + result.higherPriority + result.alreadyPreempted
              + result.released + |Filtered(onNode, requiredAsk)| == result.total
      ensures Counts(result, Reasons(onNode, requiredAsk))
    {
      hide MatchAny, Counts, Reasons, Kept, Filtered;
      result := FilteringResult(|onNode|, 0, 0, 0, 0, 0);
      ghost var reasons := Reasons(onNode, requiredAsk);
      NoneCounted(result);
      for i := 0 to |onNode|
        invariant candidates == old(candidates) + Kept(onNode[..i], reasons[..i])
        invariant result.total == |onNode| && Counts(result, reasons[..i])
      {
        CountsOneMore(result, reasons, i);
        KeptOneMore(onNode, reasons, i);
        var a := onNode[i];
        if a.requiredNode != "" {
          result := result.(requiredNode := result.requiredNode + 1);
        } else if a.priority > requiredAsk.priority {
          result := result.(higherPriority := result.higherPriority + 1);
        } else if a.preempted {
          result := result.(alreadyPreempted := result.alreadyPreempted + 1);
        } else if !MatchAny(requiredAsk.resource, a.resource) {
          result := result.(notMatched := result.notMatched + 1);
        } else if a.released {
          result := result.(released := result.released + 1);
        } else {
          candidates := candidates + [a];
        }
      }
      assert onNode[..|onNode|] == onNode && reasons[..|onNode|] == reasons;
      AllCounted(onNode, reasons);
      CountsMean(result, reasons);
      KeptAreFiltered(onNode, requiredAsk);
    }

    /** The shortest covering prefix, if it is not empty and covers the ask together with what the node has left. */
    method GetVictims(available: Amounts) returns (victims: Option<seq<Allocation>>)
      ensures var rs, ask := ResourcesOf(candidates), requiredAsk.resource;
              var m := VictimCount(rs, ask);
              m <= |candidates|
              && victims == if m > 0 && Covers(Plus(PrefixSum(rs, m), available), ask) then Some(candidates[..m]) else None
    {
      ghost var rs := ResourcesOf(candidates);
      var ask := requiredAsk.resource;
      var taken: seq<Allocation> := [];
      var current: Amounts := map[];
      for i := 0 to |candidates|
        invariant taken == candidates[..i] && current == PrefixSum(rs, i)
        invariant CoverFrom(rs, ask, 0) == CoverFrom(rs, ask, i)
      {
        if StrictlyGreaterThanOrEquals(current, ask) { break; }
        current := Plus(current, candidates[i].resource);
        taken := taken + [candidates[i]];
      }
      CoverFromIsFirst(rs, ask, 0);
      CoversIsGreaterOrEqual(Plus(current, available), ask);
      if |taken| > 0 && StrictlyGreaterThanOrEquals(Plus(current, available), ask) {
        return Some(taken);
      }
      return None;
    }
  }
}
