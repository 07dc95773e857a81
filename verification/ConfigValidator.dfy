/**
 The queue checks of the configuration validator (pkg/common/configs/configvalidator.go). Each check
 looks at one queue, its parent's limit and its children. The theorems say what follows for any queue
 and any of its ancestors.
 */
module ConfigValidator {
  import opened Quantities
  import opened Resources

  /** Configured quantities: the parser accepts digits only, so there are no negative values. */
  type Limits = a: Amounts | NonNegative(a) witness map[]

  /** A queue of the configuration. None stands for a resource that does not parse. */
  datatype QueueConfig = QueueConfig(
    guaranteed: Option<Limits>, max: Option<Limits>, maxApplications: nat, queues: seq<QueueConfig>)

  // ---------- checkQueueResource ----------

  /** A sum of configured quantities stays non-negative, saturated or not. */
  function PlusLimits(a: Limits, b: Limits): Limits {
    Plus(a, b)
  }

  function MinLimits(m: Limits, parentM: Option<Limits>): (r: Limits)
    ensures Some(r) == ComponentWiseMin(Some(m), parentM)
  {
    ComponentWiseMin(Some(m), parentM).value
  }

  /** The guarantee that an accepted queue reports to its parent, or None if it is rejected. */
  function Check(cur: QueueConfig, parentM: Option<Limits>): Option<Limits>
    decreases cur, 0
  {
    if cur.guaranteed.None? || cur.max.None? then None
    else
      var g, m := cur.guaranteed.value, cur.max.value;
      if !FitInMaxUndef(Some(m), g) || !FitInMaxUndef(parentM, m) then None
      else
        var curM := MinLimits(m, parentM);
        var sumG := CheckChildren(cur, |cur.queues|, curM);
        if sumG.None? || !FitInMaxUndef(Some(g), sumG.value) || !FitInMaxUndef(Some(curM), sumG.value) then None
        else Some(if IsZero(g) then sumG.value else g)
  }

  /** The sum over the first n children, or None if one of them is rejected. */
  function CheckChildren(cur: QueueConfig, n: nat, curM: Limits): Option<Limits>
    requires n <= |cur.queues|
    decreases cur, 0, n
  {
    if n == 0 then
      Some(map[])
    else
      var sum := CheckChildren(cur, n - 1, curM);
      var child := Check(cur.queues[n - 1], Some(curM));
      if sum.None? || child.None? then None else Some(PlusLimits(sum.value, child.value))
  }

  /** The recursive check with its loop over the children. */
  method CheckQueueResource(cur: QueueConfig, parentM: Option<Limits>) returns (r: Option<Limits>)
    ensures r == Check(cur, parentM)
    decreases cur
  {
    hide PlusLimits, FitInMaxUndef, IsZero;
    var g, m := CheckResourceConfig(cur);
    if g.None? { return None; }
    if !FitInMaxUndef(parentM, m) { return None; }
    var curM := MinLimits(m, parentM);
    var sumG: Limits := map[];
    for i := 0 to |cur.queues|
      invariant CheckChildren(cur, i, curM) == Some(sumG)
    {
      var childG := CheckQueueResource(cur.queues[i], Some(curM));
      if childG.None? {
        RejectedChild(cur, i, |cur.queues|, curM);
        return None;
      }
      sumG := PlusLimits(sumG, childG.value);
    }
    if !FitInMaxUndef(Some(g.value), sumG) { return None; }
    if !FitInMaxUndef(Some(curM), sumG) { return None; }
    if IsZero(g.value) { return Some(sumG); }
    return g;
  }

  method CheckResourceConfig(cur: QueueConfig) returns (g: Option<Limits>, m: Limits)
    ensures g.Some? <==> cur.guaranteed.Some? && cur.max.Some? && FitInMaxUndef(Some(cur.max.value), cur.guaranteed.value)
    ensures g.Some? ==> g == cur.guaranteed && m == cur.max.value
  {
    if cur.guaranteed.None? || cur.max.None? { return None, map[]; }
    if !FitInMaxUndef(Some(cur.max.value), cur.guaranteed.value) { return None, map[]; }
    return cur.guaranteed, cur.max.value;
  }

  lemma {:induction false} RejectedChild(cur: QueueConfig, i: nat, n: nat, curM: Limits)
    requires i < n <= |cur.queues| && Check(cur.queues[i], Some(curM)).None?
    ensures CheckChildren(cur, n, curM).None?
  {
    if i < n - 1 {
      RejectedChild(cur, i, n - 1, curM);
    }
  }

  // ---------- the queue tree ----------

  /** The queue at the end of a path of child positions. */
  function At(root: QueueConfig, path: seq<nat>): Option<QueueConfig>
    decreases |path|
  {
    if path == [] then Some(root)
    else if path[0] < |root.queues| then At(root.queues[path[0]], path[1..])
    else None
  }

  /** An accepted queue has accepted children, whose reported guarantees are in the sum. */
  lemma {:induction false} AcceptedChild(cur: QueueConfig, i: nat, n: nat, curM: Limits, k: string)
    requires i < n <= |cur.queues| && CheckChildren(cur, n, curM).Some?
    ensures Check(cur.queues[i], Some(curM)).Some?
    ensures Get(Check(cur.queues[i], Some(curM)).value, k) <= Get(CheckChildren(cur, n, curM).value, k)
  {
    if i < n - 1 {
      AcceptedChild(cur, i, n - 1, curM, k);
    }
  }

  /** A queue never reports less than its own guarantee. */
  lemma ReportsOwnGuarantee(cur: QueueConfig, parentM: Option<Limits>, k: string)
    requires Check(cur, parentM).Some?
    ensures Get(cur.guaranteed.value, k) <= Get(Check(cur, parentM).value, k)
  {
  }

  /** Everything below an accepted queue stays under the limit that was handed down to the queue. */
  lemma {:induction false} BelowLimit(cur: QueueConfig, parentM: Option<Limits>, path: seq<nat>, k: string)
    requires Check(cur, parentM).Some? && At(cur, path).Some?
    requires parentM.Some? && k in parentM.value
    ensures var q := At(cur, path).value;
            && q.max.Some? && q.guaranteed.Some?
            && (k in q.max.value ==> q.max.value[k] <= parentM.value[k])
            && (path != [] ==> Get(q.guaranteed.value, k) <= parentM.value[k])
    decreases |path|
  {
    if path != [] {
      var curM, child := MinLimits(cur.max.value, parentM), cur.queues[path[0]];
      AcceptedChild(cur, path[0], |cur.queues|, curM, k);
      ReportsOwnGuarantee(child, Some(curM), k);
      BelowLimit(child, Some(curM), path[1..], k);
    }
  }

  /** Every queue of an accepted tree was itself accepted under some limit. */
  lemma {:induction false} SubtreeAccepted(root: QueueConfig, parentM: Option<Limits>, path: seq<nat>)
    returns (limit: Option<Limits>)
    requires Check(root, parentM).Some? && At(root, path).Some?
    ensures Check(At(root, path).value, limit).Some?
    decreases |path|
  {
    if path == [] {
      limit := parentM;
    } else {
      var curM := MinLimits(root.max.value, parentM);
      AcceptedChild(root, path[0], |root.queues|, curM, "");
      limit := SubtreeAccepted(root.queues[path[0]], Some(curM), path[1..]);
    }
  }

  lemma {:induction false} AtSplit(root: QueueConfig, path: seq<nat>, i: nat)
    requires i <= |path| && At(root, path).Some?
    ensures At(root, path[..i]).Some?
    ensures At(At(root, path[..i]).value, path[i..]) == At(root, path)
    decreases |path|
  {
    if i == 0 {
      assert path[0..] == path;
    } else {
      assert path[..i][1..] == path[1..][..i - 1] && path[i..] == path[1..][i - 1..];
      AtSplit(root.queues[path[0]], path[1..], i - 1);
    }
  }

  /**
   In an accepted tree the maximum and the guarantee of every queue stay under the maximum of every
   ancestor (and of the queue itself), also across levels that leave the type undefined.
   */
  lemma AncestorBounds(root: QueueConfig, path: seq<nat>, i: nat, k: string)
    requires Check(root, None).Some? && At(root, path).Some? && i <= |path|
    ensures At(root, path[..i]).Some?
    ensures var q, ancestor := At(root, path).value, At(root, path[..i]).value;
            && ancestor.max.Some? && q.max.Some? && q.guaranteed.Some?
            && (k in ancestor.max.value ==>
                  && (k in q.max.value ==> q.max.value[k] <= ancestor.max.value[k])
                  && Get(q.guaranteed.value, k) <= ancestor.max.value[k])
  {
    AtSplit(root, path, i);
    var ancestor := At(root, path[..i]).value;
    var limit := SubtreeAccepted(root, None, path[..i]);
    if i < |path| {
      var curM, rest := MinLimits(ancestor.max.value, limit), path[i..];
      AcceptedChild(ancestor, rest[0], |ancestor.queues|, curM, k);
      var child := ancestor.queues[rest[0]];
      ReportsOwnGuarantee(child, Some(curM), k);
      if k in ancestor.max.value {
        BelowLimit(child, Some(curM), rest[1..], k);
      } else {
        BelowParsed(child, Some(curM), rest[1..]);
      }
    }
  }

  lemma BelowParsed(cur: QueueConfig, parentM: Option<Limits>, path: seq<nat>)
    requires Check(cur, parentM).Some? && At(cur, path).Some?
    ensures At(cur, path).value.max.Some? && At(cur, path).value.guaranteed.Some?
  {
    var limit := SubtreeAccepted(cur, parentM, path);
  }

  // ---------- guarantees ----------

  /** The exact sum of what the first n children report. */
  function ReportedSum(cur: QueueConfig, n: nat, curM: Limits, k: string): nat
    requires n <= |cur.queues| && CheckChildren(cur, n, curM).Some?
  {
    if n == 0 then 0
    else ReportedSum(cur, n - 1, curM, k) + Get(Check(cur.queues[n - 1], Some(curM)).value, k)
  }

  lemma {:induction false} SumIsClamped(cur: QueueConfig, n: nat, curM: Limits, k: string)
    requires n <= |cur.queues| && CheckChildren(cur, n, curM).Some?
    ensures Get(CheckChildren(cur, n, curM).value, k) == Clamp(ReportedSum(cur, n, curM, k))
  {
    if n > 0 {
      SumIsClamped(cur, n - 1, curM, k);
    }
  }

  /**
   The reported guarantees of the children fit in the guarantee and in the limit of their parent, for
   each type these define. Only a limit of the largest quantity can hide a saturated sum.
   */
  lemma ChildGuaranteesFit(cur: QueueConfig, parentM: Option<Limits>, k: string)
    requires Check(cur, parentM).Some?
    ensures var curM := MinLimits(cur.max.value, parentM);
            var sum := ReportedSum(cur, |cur.queues|, curM, k);
            && (k in cur.guaranteed.value && cur.guaranteed.value[k] < MAX_INT64 ==> sum <= cur.guaranteed.value[k])
            && (k in curM && curM[k] < MAX_INT64 ==> sum <= curM[k])
  {
    var curM := MinLimits(cur.max.value, parentM);
    SumIsClamped(cur, |cur.queues|, curM, k);
    var sumG := CheckChildren(cur, |cur.queues|, curM).value;
    if k in sumG {
      assert Get(sumG, k) == sumG[k];
    }
  }

  /** What a subtree is really promised: a queue's own guarantee, or else that of its children. */
  function Promised(cur: QueueConfig, k: string): nat
    requires Parsed(cur)
    decreases cur, 0
  {
    if k in cur.guaranteed.value then cur.guaranteed.value[k] else PromisedSum(cur, |cur.queues|, k)
  }

  function PromisedSum(cur: QueueConfig, n: nat, k: string): nat
    requires n <= |cur.queues| && Parsed(cur)
    decreases cur, 0, n
  {
    if n == 0 then 0 else PromisedSum(cur, n - 1, k) + Promised(cur.queues[n - 1], k)
  }

  predicate Parsed(cur: QueueConfig)
    decreases cur
  {
    cur.guaranteed.Some? && cur.max.Some? && forall i | 0 <= i < |cur.queues| :: Parsed(cur.queues[i])
  }

  /** A queue with a guarantee for other types only, above queues that are promised some of type k. */
  predicate Hides(cur: QueueConfig, k: string)
    requires Parsed(cur)
  {
    !IsZero(cur.guaranteed.value) && k !in cur.guaranteed.value && PromisedSum(cur, |cur.queues|, k) > 0
  }

  /** No queue that the sum for type k looks through hides anything of that type. */
  predicate NothingHidden(cur: QueueConfig, k: string)
    requires Parsed(cur)
    decreases cur
  {
    k in cur.guaranteed.value
    || (!Hides(cur, k)
        && (IsZero(cur.guaranteed.value) ==> forall i | 0 <= i < |cur.queues| :: NothingHidden(cur.queues[i], k)))
  }

  lemma {:induction false} AcceptedIsParsed(cur: QueueConfig, parentM: Option<Limits>)
    requires Check(cur, parentM).Some?
    ensures Parsed(cur)
    decreases cur
  {
    var curM := MinLimits(cur.max.value, parentM);
    forall i | 0 <= i < |cur.queues|
      ensures Parsed(cur.queues[i])
    {
      AcceptedChild(cur, i, |cur.queues|, curM, "");
      AcceptedIsParsed(cur.queues[i], Some(curM));
    }
  }

  /**
   A queue reports all that its subtree is promised exactly when nothing is hidden, and less
   otherwise (sums below saturation).
   */
  lemma {:induction false} ReportsAllIff(cur: QueueConfig, parentM: Option<Limits>, k: string)
    requires Check(cur, parentM).Some? && Parsed(cur) && Promised(cur, k) < MAX_INT64
    ensures var reported := Get(Check(cur, parentM).value, k);
            reported <= Promised(cur, k) && (reported == Promised(cur, k) <==> NothingHidden(cur, k))
    decreases cur, 0
  {
    var g, curM := cur.guaranteed.value, MinLimits(cur.max.value, parentM);
    var n := |cur.queues|;
    if IsZero(g) {
      SumIsClamped(cur, n, curM, k);
      if k in g {
        var sumG := CheckChildren(cur, n, curM).value;
        assert k in sumG ==> sumG[k] <= 0;
      } else {
        ReportedSumIff(cur, n, curM, k);
      }
    }
  }

  lemma {:induction false} ReportedSumIff(cur: QueueConfig, n: nat, curM: Limits, k: string)
    requires n <= |cur.queues| && CheckChildren(cur, n, curM).Some? && Parsed(cur)
    requires PromisedSum(cur, n, k) < MAX_INT64
    ensures ReportedSum(cur, n, curM, k) <= PromisedSum(cur, n, k)
    ensures ReportedSum(cur, n, curM, k) == PromisedSum(cur, n, k)
            <==> forall i | 0 <= i < n :: NothingHidden(cur.queues[i], k)
    decreases cur, 0, n
  {
    hide Check, NothingHidden, Promised, PlusLimits, Get;
    if n > 0 {
      ReportedSumIff(cur, n - 1, curM, k);
      ReportsAllIff(cur.queues[n - 1], Some(curM), k);
    }
  }

  /** A queue without limits and with at most one child, which reports something of no type the queue guarantees. */
  lemma OnlyChild(g: Limits, children: seq<QueueConfig>, childG: Limits, parentM: Option<Limits>)
    requires |children| <= 1 && OrZero(parentM) == map[] && !IsZero(g)
    requires if children == [] then childG == map[] else Check(children[0], Some(map[])) == Some(childG)
    requires !MatchAny(g, childG)
    ensures Check(QueueConfig(Some(g), Some(map[]), 0, children), parentM) == Some(g)
  {
    var cur := QueueConfig(Some(g), Some(map[]), 0, children);
    assert MinLimits(map[], parentM) == map[];
    OnlyChildSum(cur, childG);
    NoMatchFits(g, childG);
    hide CheckChildren, MatchAny, IsZero;
  }

  lemma OnlyChildSum(cur: QueueConfig, childG: Limits)
    requires |cur.queues| <= 1
    requires if cur.queues == [] then childG == map[] else Check(cur.queues[0], Some(map[])) == Some(childG)
    ensures CheckChildren(cur, |cur.queues|, map[]) == Some(childG)
  {
    hide Check;
    assert CheckChildren(cur, 0, map[]) == Some(map[]);
    assert Plus(map[], childG) == childG;
  }

  lemma NoMatchFits(g: Limits, childG: Limits)
    requires !MatchAny(g, childG)
    ensures FitInMaxUndef(Some(g), childG)
  {
    assert forall k | k in childG && k in g :: k in g.Keys * childG.Keys;
  }

  /** Trees that are accepted although a grandchild is promised more than the root guarantees. */
  lemma HiddenGuaranteeExample(rootMemory: Quantity, leafMemory: Quantity)
    requires 0 < rootMemory < leafMemory
    ensures var leaf := QueueConfig(Some(map["memory" := leafMemory]), Some(map[]), 0, []);
            var middle := QueueConfig(Some(map["vcore" := 5]), Some(map[]), 0, [leaf]);
            var root := QueueConfig(Some(map["memory" := rootMemory]), Some(map[]), 0, [middle]);
            && Check(root, None).Some? && Parsed(root)
            && PromisedSum(root, 1, "memory") == leafMemory > root.guaranteed.value["memory"]
  {
    var g1: Limits, g2: Limits, g3: Limits := map["memory" := leafMemory], map["vcore" := 5], map["memory" := rootMemory];
    assert g1["memory"] != 0 && g2["vcore"] != 0 && g3["memory"] != 0;
    var leaf := QueueConfig(Some(g1), Some(map[]), 0, []);
    OnlyChild(g1, [], map[], Some(map[]));
    var middle := QueueConfig(Some(g2), Some(map[]), 0, [leaf]);
    OnlyChild(g2, [leaf], g1, Some(map[]));
    var root := QueueConfig(Some(g3), Some(map[]), 0, [middle]);
    OnlyChild(g3, [middle], g2, None);
    assert Parsed(leaf) && Parsed(middle) && Parsed(root);
    assert PromisedSum(middle, 1, "memory") == PromisedSum(middle, 0, "memory") + Promised(leaf, "memory");
    assert PromisedSum(root, 1, "memory") == PromisedSum(root, 0, "memory") + Promised(middle, "memory");
  }

  // ---------- checkQueueMaxApplications ----------

  predicate MaxApplicationsOk(cur: QueueConfig)
    decreases cur
  {
    forall i | 0 <= i < |cur.queues| ::
      && (cur.maxApplications != 0 ==> 0 < cur.queues[i].maxApplications <= cur.maxApplications)
      && MaxApplicationsOk(cur.queues[i])
  }

  method CheckQueueMaxApplications(cur: QueueConfig) returns (ok: bool)
    ensures ok <==> MaxApplicationsOk(cur)
    decreases cur
  {
    for i := 0 to |cur.queues|
      invariant forall j | 0 <= j < i ::
        && (cur.maxApplications != 0 ==> 0 < cur.queues[j].maxApplications <= cur.maxApplications)
        && MaxApplicationsOk(cur.queues[j])
    {
      var child := cur.queues[i];
      if cur.maxApplications != 0 && cur.maxApplications < child.maxApplications { return false; }
      if cur.maxApplications != 0 && child.maxApplications == 0 { return false; }
      ok := CheckQueueMaxApplications(child);
      if !ok { return false; }
    }
    return true;
  }

  /** A limited queue limits all queues below it, at any depth. */
  lemma {:induction false} MaxApplicationsBelow(cur: QueueConfig, path: seq<nat>)
    requires MaxApplicationsOk(cur) && At(cur, path).Some? && cur.maxApplications != 0
    ensures 0 < At(cur, path).value.maxApplications <= cur.maxApplications
    decreases |path|
  {
    if path != [] {
      MaxApplicationsBelow(cur.queues[path[0]], path[1..]);
    }
  }

  lemma {:induction false} MaxApplicationsSubtree(root: QueueConfig, path: seq<nat>)
    requires MaxApplicationsOk(root) && At(root, path).Some?
    ensures MaxApplicationsOk(At(root, path).value)
    decreases |path|
  {
    if path != [] {
      MaxApplicationsSubtree(root.queues[path[0]], path[1..]);
    }
  }

  /** In an accepted tree the limit of any ancestor bounds any queue, and rules out an unlimited one. */
  lemma AncestorMaxApplications(root: QueueConfig, path: seq<nat>, i: nat)
    requires MaxApplicationsOk(root) && At(root, path).Some? && i <= |path|
    ensures At(root, path[..i]).Some?
    ensures var ancestor := At(root, path[..i]).value;
            ancestor.maxApplications != 0 ==>
              0 < At(root, path).value.maxApplications <= ancestor.maxApplications
  {
    AtSplit(root, path, i);
    var ancestor := At(root, path[..i]).value;
    MaxApplicationsSubtree(root, path[..i]);
    if ancestor.maxApplications != 0 {
      MaxApplicationsBelow(ancestor, path[i..]);
    }
  }

  // ---------- exactly which trees are accepted ----------

  /** What a queue counts for in the sum of its parent: its own guarantee, or that of its children if it has none. */
  function Effective(cur: QueueConfig, k: string): nat
    requires Parsed(cur)
    decreases cur, 0
  {
    if IsZero(cur.guaranteed.value) then EffectiveSum(cur, |cur.queues|, k) else Get(cur.guaranteed.value, k)
  }

  function EffectiveSum(cur: QueueConfig, n: nat, k: string): nat
    requires n <= |cur.queues| && Parsed(cur)
    decreases cur, 0, n
  {
    if n == 0 then 0 else EffectiveSum(cur, n - 1, k) + Effective(cur.queues[n - 1], k)
  }

  /** No limit is above a bound, for the types that both define. */
  predicate Within(limits: Limits, bound: Limits) {
    forall k | k in limits && k in bound :: limits[k] <= bound[k]
  }

  /** What the children count for is not above a bound, for the types it defines. The largest quantity bounds every sum. */
  ghost predicate SumWithin(q: QueueConfig, bound: Limits)
    requires Parsed(q)
  {
    forall k | k in bound :: bound[k] == MAX_INT64 || EffectiveSum(q, |q.queues|, k) <= bound[k]
  }

  /** The rules for one queue and one bound from above. */
  ghost predicate Under(q: QueueConfig, bound: Limits)
    requires Parsed(q)
  {
    Within(q.max.value, bound) && SumWithin(q, bound)
  }

  /** The rules for the queue at the end of a path: its own limits, and the maximum of itself and of every ancestor. */
  ghost predicate Fine(cur: QueueConfig, parentM: Option<Limits>, path: seq<nat>)
    requires At(cur, path).Some? && Parsed(At(cur, path).value)
  {
    var q := At(cur, path).value;
    && Within(q.guaranteed.value, q.max.value) && SumWithin(q, q.guaranteed.value)
    && (parentM.Some? ==> Under(q, parentM.value))
    && forall i | 0 <= i <= |path| && At(cur, path[..i]).Some? && At(cur, path[..i]).value.max.Some? ::
         Under(q, At(cur, path[..i]).value.max.value)
  }

  /** Every queue of the tree parses and keeps to the rules. */
  ghost predicate Acceptable(cur: QueueConfig, parentM: Option<Limits>) {
    Parsed(cur) && forall path: seq<nat> | At(cur, path).Some? :: Parsed(At(cur, path).value) && Fine(cur, parentM, path)
  }

  lemma {:induction false} ReportsEffective(cur: QueueConfig, parentM: Option<Limits>, k: string)
    requires Check(cur, parentM).Some? && Parsed(cur)
    ensures Get(Check(cur, parentM).value, k) == Clamp(Effective(cur, k))
    decreases cur, 0
  {
    ChildrenReport(cur, |cur.queues|, MinLimits(cur.max.value, parentM), k);
    hide CheckChildren, EffectiveSum;
  }

  lemma {:induction false} ChildrenReport(cur: QueueConfig, n: nat, curM: Limits, k: string)
    requires n <= |cur.queues| && Parsed(cur)
    ensures CheckChildren(cur, n, curM).Some? ==> Get(CheckChildren(cur, n, curM).value, k) == Clamp(EffectiveSum(cur, n, k))
    decreases cur, 0, n
  {
    hide Check, Effective, PlusLimits;
    if n > 0 && CheckChildren(cur, n, curM).Some? {
      ChildrenReport(cur, n - 1, curM, k);
      ReportsEffective(cur.queues[n - 1], Some(curM), k);
      PlusLimitsAt(CheckChildren(cur, n - 1, curM).value, Check(cur.queues[n - 1], Some(curM)).value, k);
    }
  }

  lemma PlusLimitsAt(a: Limits, b: Limits, k: string)
    ensures Get(PlusLimits(a, b), k) == Clamp(Get(a, k) + Get(b, k))
  {
  }

  lemma {:induction false} ChildrenAcceptedIff(cur: QueueConfig, n: nat, curM: Limits)
    requires n <= |cur.queues|
    ensures CheckChildren(cur, n, curM).Some? <==> forall i | 0 <= i < n :: Check(cur.queues[i], Some(curM)).Some?
  {
    hide Check, PlusLimits;
    if n > 0 {
      ChildrenAcceptedIff(cur, n - 1, curM);
    }
  }

  /** The test of the sum against a bound. */
  lemma SumFitsIff(cur: QueueConfig, curM: Limits, bound: Limits)
    requires Parsed(cur) && CheckChildren(cur, |cur.queues|, curM).Some?
    ensures FitInMaxUndef(Some(bound), CheckChildren(cur, |cur.queues|, curM).value) <==> SumWithin(cur, bound)
  {
    var sum := CheckChildren(cur, |cur.queues|, curM).value;
    forall k | k in bound
      ensures Get(sum, k) <= bound[k] <==> bound[k] == MAX_INT64 || EffectiveSum(cur, |cur.queues|, k) <= bound[k]
    {
      ChildrenReport(cur, |cur.queues|, curM, k);
    }
    hide CheckChildren, EffectiveSum;
    assert FitInMaxUndef(Some(bound), sum) <==> forall k | k in bound :: Get(sum, k) <= bound[k];
  }

  /** One queue, given that its children are accepted under the combined limit. */
  lemma CheckIff(cur: QueueConfig, parentM: Option<Limits>)
    requires Parsed(cur)
    ensures var curM := MinLimits(cur.max.value, parentM);
            Check(cur, parentM).Some? <==>
              && Within(cur.guaranteed.value, cur.max.value) && SumWithin(cur, cur.guaranteed.value)
              && (parentM.Some? ==> Within(cur.max.value, parentM.value)) && SumWithin(cur, curM)
              && forall i | 0 <= i < |cur.queues| :: Check(cur.queues[i], Some(curM)).Some?
  {
    var g, m, curM := cur.guaranteed.value, cur.max.value, MinLimits(cur.max.value, parentM);
    ChildrenAcceptedIff(cur, |cur.queues|, curM);
    if CheckChildren(cur, |cur.queues|, curM).Some? {
      SumFitsIff(cur, curM, g);
      SumFitsIff(cur, curM, curM);
    }
    FitsIsWithin(Some(m), g);
    FitsIsWithin(parentM, m);
    hide CheckChildren, FitInMaxUndef, Within, SumWithin, Parsed;
  }

  lemma FitsIsWithin(bound: Option<Limits>, limits: Limits)
    ensures FitInMaxUndef(bound, limits) <==> bound.None? || Within(limits, bound.value)
  {
  }

  lemma UnderMin(q: QueueConfig, m: Limits, parentM: Option<Limits>)
    requires Parsed(q)
    ensures Under(q, MinLimits(m, parentM)) <==> Under(q, m) && (parentM.Some? ==> Under(q, parentM.value))
    ensures SumWithin(q, MinLimits(m, parentM)) <==> SumWithin(q, m) && (parentM.Some? ==> SumWithin(q, parentM.value))
  {
    hide EffectiveSum, Parsed;
    var curM := MinLimits(m, parentM);
    assert forall k | k in m :: k in curM && curM[k] <= m[k];
    assert parentM.Some? ==> forall k | k in parentM.value :: k in curM && curM[k] <= parentM.value[k];
    assert forall k | k in curM :: (k in m && curM[k] == m[k]) || (parentM.Some? && k in parentM.value && curM[k] == parentM.value[k]);
  }

  lemma {:induction false} ParsedAt(cur: QueueConfig, path: seq<nat>)
    requires Parsed(cur) && At(cur, path).Some?
    ensures Parsed(At(cur, path).value)
    decreases |path|
  {
    if path != [] {
      ParsedAt(cur.queues[path[0]], path[1..]);
    }
  }

  /** The rules for a queue below a child are those below the queue, with the limit handed down. */
  lemma FineBelow(cur: QueueConfig, parentM: Option<Limits>, i: nat, path: seq<nat>)
    requires Parsed(cur) && i < |cur.queues| && At(cur.queues[i], path).Some? && Parsed(At(cur.queues[i], path).value)
    ensures At(cur, [i] + path) == At(cur.queues[i], path)
    ensures Fine(cur, parentM, [i] + path) <==> Fine(cur.queues[i], Some(MinLimits(cur.max.value, parentM)), path)
  {
    var whole, child := [i] + path, cur.queues[i];
    assert whole[0] == i && whole[1..] == path;
    var q := At(child, path).value;
    UnderMin(q, cur.max.value, parentM);
    assert whole[..0] == [];
    forall n | 1 <= n <= |whole|
      ensures At(cur, whole[..n]) == At(child, path[..n - 1])
    {
      assert whole[..n][1..] == path[..n - 1] && whole[..n][0] == i;
    }
    hide Under, Within, SumWithin, Parsed;
    FineShifted(cur, parentM, i, path);
  }

  lemma FineShifted(cur: QueueConfig, parentM: Option<Limits>, i: nat, path: seq<nat>)
    requires i < |cur.queues| && cur.max.Some? && At(cur.queues[i], path).Some? && Parsed(At(cur.queues[i], path).value)
    requires At(cur, [i] + path) == At(cur.queues[i], path) && At(cur, ([i] + path)[..0]) == Some(cur)
    requires forall n | 1 <= n <= |path| + 1 :: At(cur, ([i] + path)[..n]) == At(cur.queues[i], path[..n - 1])
    requires var q := At(cur.queues[i], path).value;
             Under(q, MinLimits(cur.max.value, parentM)) <==> Under(q, cur.max.value) && (parentM.Some? ==> Under(q, parentM.value))
    ensures Fine(cur, parentM, [i] + path) <==> Fine(cur.queues[i], Some(MinLimits(cur.max.value, parentM)), path)
  {
    hide At, Under, Within, SumWithin, Parsed;
    var whole, child, q := [i] + path, cur.queues[i], At(cur.queues[i], path).value;
    if Fine(cur, parentM, whole) {
      forall n | 0 <= n <= |path| && At(child, path[..n]).Some? && At(child, path[..n]).value.max.Some?
        ensures Under(q, At(child, path[..n]).value.max.value)
      {
        assert At(cur, whole[..n + 1]) == At(child, path[..n]);
      }
    }
    if Fine(child, Some(MinLimits(cur.max.value, parentM)), path) {
      forall n | 0 <= n <= |whole| && At(cur, whole[..n]).Some? && At(cur, whole[..n]).value.max.Some?
        ensures Under(q, At(cur, whole[..n]).value.max.value)
      {
        if n > 0 {
          assert At(cur, whole[..n]) == At(child, path[..n - 1]);
        }
      }
    }
  }

  /** A queue is acceptable exactly if it keeps to the rules itself and its children do under the limit handed down. */
  lemma AcceptableIff(cur: QueueConfig, parentM: Option<Limits>)
    requires Parsed(cur)
    ensures var curM := MinLimits(cur.max.value, parentM);
            Acceptable(cur, parentM) <==>
              Fine(cur, parentM, []) && forall i | 0 <= i < |cur.queues| :: Acceptable(cur.queues[i], Some(curM))
  {
    var curM := MinLimits(cur.max.value, parentM);
    if Acceptable(cur, parentM) {
      assert At(cur, []) == Some(cur);
      forall i: nat, path: seq<nat> | i < |cur.queues| && At(cur.queues[i], path).Some?
        ensures Parsed(At(cur.queues[i], path).value) && Fine(cur.queues[i], Some(curM), path)
      {
        ParsedAt(cur.queues[i], path);
        FineBelow(cur, parentM, i, path);
      }
    }
    if Fine(cur, parentM, []) && forall i | 0 <= i < |cur.queues| :: Acceptable(cur.queues[i], Some(curM)) {
      forall path: seq<nat> | At(cur, path).Some?
        ensures Parsed(At(cur, path).value) && Fine(cur, parentM, path)
      {
        ParsedAt(cur, path);
        if path != [] {
          assert path == [path[0]] + path[1..];
          FineBelow(cur, parentM, path[0], path[1..]);
        }
      }
    }
  }

  lemma {:induction false} AcceptedIffUnder(cur: QueueConfig, parentM: Option<Limits>)
    requires Parsed(cur)
    ensures Check(cur, parentM).Some? <==> Acceptable(cur, parentM)
    decreases cur
  {
    var curM := MinLimits(cur.max.value, parentM);
    CheckIff(cur, parentM);
    AcceptableIff(cur, parentM);
    UnderMin(cur, cur.max.value, parentM);
    OwnRules(cur, parentM);
    forall i | 0 <= i < |cur.queues|
      ensures Check(cur.queues[i], Some(curM)).Some? <==> Acceptable(cur.queues[i], Some(curM))
    {
      AcceptedIffUnder(cur.queues[i], Some(curM));
    }
  }

  lemma OwnRules(cur: QueueConfig, parentM: Option<Limits>)
    requires Parsed(cur)
    ensures Fine(cur, parentM, []) <==>
              && Within(cur.guaranteed.value, cur.max.value) && SumWithin(cur, cur.guaranteed.value)
              && (parentM.Some? ==> Under(cur, parentM.value)) && SumWithin(cur, cur.max.value)
  {
    assert forall path: seq<nat> | path == [] :: path[..0] == [] && At(cur, path) == Some(cur);
    assert Within(cur.max.value, cur.max.value);
    var none: seq<nat> := [];
    assert At(cur, none[..0]) == Some(cur);
  }

  /**
   A tree is accepted exactly if every queue parses, its guarantee fits in its maximum, its maximum is
   within that of every ancestor, and what its children count for fits in its guarantee, in its maximum
   and in that of every ancestor, each for the types that are defined.
   */
  lemma AcceptedIff(root: QueueConfig)
    ensures Check(root, None).Some? <==> Acceptable(root, None)
  {
    if Check(root, None).Some? {
      AcceptedIsParsed(root, None);
    }
    if Parsed(root) {
      AcceptedIffUnder(root, None);
    }
  }
}
