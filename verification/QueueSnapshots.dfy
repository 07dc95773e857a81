/**
 Queue snapshots for preemption (QueuePreemptionSnapshot in pkg/scheduler/objects/preemption.go).
 A snapshot points to the snapshot of its parent queue; its usage is updated in place together with
 that of all ancestors. Trial runs work on duplicates.
 */
module QueueSnapshots {
  import opened Quantities
  import opened Resources
  import opened Allocations

  class QueueSnapshot {
    const parent: QueueSnapshot?
    const queuePath: string
    const preempting: Option<Amounts>
    const guaranteed: Option<Amounts>
    const potentialVictims: seq<Allocation>
    const askQueue: QueueSnapshot?
    var used: Amounts

    /** This snapshot and its ancestors; everything that a computation over the chain may look at. */
    ghost const chain: set<QueueSnapshot>
    ghost const footprint: set<QueueSnapshot>
    ghost const depth: nat

    ghost predicate Valid()
      decreases depth
    {
      && this in chain && chain <= footprint
      && (askQueue != null ==> askQueue in footprint)
      && if parent == null then chain == {this}
         else parent.depth < depth && parent.Valid() && chain == {this} + parent.chain && this !in parent.chain
              && parent.footprint <= footprint
    }

    constructor (parent: QueueSnapshot?, queuePath: string, used: Amounts, preempting: Option<Amounts>,
                 guaranteed: Option<Amounts>, potentialVictims: seq<Allocation>, askQueue: QueueSnapshot?)
      requires parent != null ==> parent.Valid()
      ensures Valid() && chain == (if parent == null then {this} else {this} + parent.chain)
      ensures this.parent == parent && this.queuePath == queuePath && this.used == used && this.preempting == preempting
      ensures this.guaranteed == guaranteed && this.potentialVictims == potentialVictims && this.askQueue == askQueue
    {
      this.parent, this.queuePath, this.used, this.preempting := parent, queuePath, used, preempting;
      this.guaranteed, this.potentialVictims, this.askQueue := guaranteed, potentialVictims, askQueue;
      chain := if parent == null then {this} else {this} + parent.chain;
      var watched: set<QueueSnapshot> := {};
      if askQueue != null { watched := {askQueue}; }
      footprint := {this} + (if parent == null then {} else parent.footprint) + watched;
      depth := if parent == null then 0 else parent.depth + 1;
    }

    /** Adds to the usage of this queue and of every ancestor, and of no other queue. */
    method AddAllocation(alloc: Amounts)
      requires Valid()
      modifies chain
      ensures forall s | s in chain :: s.used == Plus(old(s.used), alloc)
      decreases depth
    {
      if parent != null {
        parent.AddAllocation(alloc);
      }
      used := Plus(used, alloc);
    }

    method RemoveAllocation(alloc: Amounts)
      requires Valid()
      modifies chain
      ensures forall s | s in chain :: s.used == Minus(old(s.used), alloc)
      decreases depth
    {
      if parent != null {
        parent.RemoveAllocation(alloc);
      }
      used := Minus(used, alloc);
    }

    /** Taking an allocation away and putting it back restores the usage of the queue and of every ancestor. */
    method RemoveAndAdd(alloc: Amounts)
      requires Valid() && forall s | s in chain :: DifferenceFits(s.used, alloc)
      modifies chain
      ensures forall s | s in chain :: SameView(s.used, old(s.used))
    {
      RemoveAllocation(alloc);
      AddAllocation(alloc);
      forall s | s in chain
        ensures SameView(s.used, old(s.used))
      {
        MinusThenPlus(old(s.used), alloc);
      }
    }

    /** Usage above the guarantee, limited by that of the parent for the types the parent reports. */
    function GetPreemptableResource(): Option<Amounts>
      requires Valid()
      reads chain
      decreases depth
    {
      if used == map[] then
        None
      else
        var parentPreemptable := if parent == null then None else parent.GetPreemptableResource();
        var over := OverGuarantee();
        var positive: Amounts := map k | k in over && over[k] > 0 :: over[k];
        if positive == map[] then Some(map[]) else ComponentWiseMinOnlyExisting(Some(positive), parentPreemptable)
    }

    /** Usage, without what is being preempted already, minus the guarantee, for the types in use. */
    function OverGuarantee(): Amounts
      reads this
    {
      SubOnlyExisting(SubOnlyExisting(Some(used), preempting), guaranteed).value
    }

    /**
     The preemptable resource is strictly positive in every type it has, at most what the queue itself
     uses above its guarantee, and at most what the parent reports for the type.
     */
    lemma {:induction false} PreemptableIsPositive()
      requires Valid()
      ensures var r := GetPreemptableResource();
              r.Some? ==>
                forall k | k in r.value ::
                  && 0 < r.value[k] <= Get(OverGuarantee(), k)
                  && (parent != null && parent.GetPreemptableResource().Some? && k in parent.GetPreemptableResource().value
                      ==> r.value[k] <= parent.GetPreemptableResource().value[k])
      decreases depth
    {
      if parent != null {
        parent.PreemptableIsPositive();
      }
    }

    /** What a queue uses of a type, without what is being preempted already. */
    function InUse(own: Amounts, k: string): Quantity {
      if k in own then SatSub(own[k], Get(OrZero(preempting), k)) else 0
    }

    /**
     Type by type: a queue offers what it uses above its guarantee and not more than its parent offers,
     for a type that the parent offers at all. A queue that uses nothing offers nothing, not even the empty resource.
     */
    lemma PreemptableByType(k: string)
      requires Valid()
      ensures GetPreemptableResource().None? <==> used == map[]
      ensures var r, above := OrZero(GetPreemptableResource()), SatSub(InUse(used, k), Get(OrZero(guaranteed), k));
              var upper := if parent == null then map[] else OrZero(parent.GetPreemptableResource());
              && (k in r <==> k in used && above > 0)
              && (k in r ==> r[k] == if k in upper && upper[k] < above then upper[k] else above)
    {
      var upper: Option<Amounts> := if parent == null then None else parent.GetPreemptableResource();
      var over := OverGuarantee();
      assert k in over <==> k in used;
      assert k in over ==> over[k] == SatSub(InUse(used, k), Get(OrZero(guaranteed), k));
    }

    /** The test "preemptable >= zero" of the victim loops holds in every state. */
    lemma PreemptableTestHolds()
      requires Valid()
      ensures StrictlyGreaterThanOrEquals(OrZero(GetPreemptableResource()), map[])
    {
      PreemptableIsPositive();
    }

    /** One level of the remaining guarantee, from what the ancestors leave and what the two queues use. */
    function RemainingOf(inherited: Option<Amounts>, ownUsed: Amounts, askUsed: Amounts): Option<Amounts> {
      if IsEmpty(inherited) && IsEmpty(guaranteed) then
        None
      else
        var remaining := SubOnlyExisting(guaranteed, SubOnlyExisting(Some(ownUsed), preempting));
        if askQueue == null then
          ComponentWiseMin(remaining, inherited)
        else if askQueue.queuePath == queuePath && !IsEmpty(remaining) then
          MergeIfNotPresent(remaining, inherited)
        else
          var askRemaining := SubOnlyExisting(askQueue.guaranteed, SubOnlyExisting(Some(askUsed), askQueue.preempting));
          if !IsEmpty(remaining) && queuePath <= askQueue.queuePath && !IsEmpty(askRemaining) then None
          else ComponentWiseMin(remaining, inherited)
    }

    /** What is left of the guarantee, inherited from the ancestors where a queue has none. */
    function GetRemainingGuaranteedResource(): Option<Amounts>
      requires Valid()
      reads footprint
      decreases depth
    {
      RemainingOf(if parent == null then None else parent.GetRemainingGuaranteedResource(),
                  used, if askQueue == null then map[] else askQueue.used)
    }

    /** The paths of this queue and its ancestors. */
    ghost function Paths(): set<string> {
      set c | c in chain :: c.queuePath
    }

    /**
     What would be left of the guarantee if the queues of the chain used what the map says by path. The
     queue of the ask is looked up in a map of its own: duplicates go on pointing to the original of it.
     */
    ghost function RemainingBy(usages: map<string, Amounts>, standing: map<QueueSnapshot, Amounts>): Option<Amounts>
      requires Valid()
      decreases depth
    {
      RemainingOf(if parent == null then None else parent.RemainingBy(usages, standing),
                  if queuePath in usages then usages[queuePath] else map[],
                  if askQueue == null || askQueue !in standing then map[] else standing[askQueue])
    }

    // ---------- the remaining guarantee type by type ----------

    predicate Guarantees(k: string) {
      guaranteed.Some? && k in guaranteed.value
    }

    /** What a usage leaves of the guarantee of a type; negative for a queue over its guarantee. */
    function Left(own: Amounts, k: string): Quantity
      requires Guarantees(k)
    {
      SatSub(guaranteed.value[k], InUse(own, k))
    }

    /** The queue of the ask, with a guarantee of its own. */
    predicate IsAskQueue() {
      askQueue != null && askQueue.queuePath == queuePath && !IsEmpty(guaranteed)
    }

    /** A queue that shares its guarantee with the queue of the ask: it passes nothing down. */
    predicate Withholds() {
      && askQueue != null && queuePath <= askQueue.queuePath && !IsAskQueue()
      && !IsEmpty(guaranteed) && !IsEmpty(askQueue.guaranteed)
    }

    /**
     The queues whose guarantees of a type count for this queue: itself and its ancestors up to the first
     that withholds. For the queue of the ask its own guarantee of the type counts alone.
     */
    ghost function Counted(k: string): set<QueueSnapshot>
      requires Valid()
      decreases depth
    {
      if Withholds() then {}
      else if IsAskQueue() && Guarantees(k) then {this}
      else {this} + if parent == null then {} else parent.Counted(k)
    }

    /** One level, type by type. */
    lemma LevelByType(inherited: Option<Amounts>, own: Amounts, askUsed: Amounts, k: string)
      requires inherited.Some? ==> inherited.value != map[]
      ensures var r := RemainingOf(inherited, own, askUsed);
              && (r.Some? ==> r.value != map[])
              && (k in OrZero(r) <==> !Withholds() && (Guarantees(k) || k in OrZero(inherited)))
              && (k in OrZero(r) ==>
                    r.value[k] == if !Guarantees(k) then inherited.value[k]
                                  else if IsAskQueue() || k !in OrZero(inherited) || Left(own, k) <= inherited.value[k] then Left(own, k)
                                  else inherited.value[k])
    {
      hide SubOnlyExisting, ComponentWiseMin, MergeIfNotPresent, IsEmpty, InUse;
      var remaining := SubOnlyExisting(guaranteed, SubOnlyExisting(Some(own), preempting));
      SameTypes(guaranteed, SubOnlyExisting(Some(own), preempting), k);
      UsageByType(own, k);
      if askQueue != null {
        SameTypes(askQueue.guaranteed, SubOnlyExisting(Some(askUsed), askQueue.preempting), k);
      }
      MinByType(remaining, inherited, k);
      MergeByType(remaining, inherited, k);
      EmptyHasNone(guaranteed, k);
      EmptyHasNone(inherited, k);
    }

    lemma UsageByType(own: Amounts, k: string)
      ensures Get(OrZero(SubOnlyExisting(Some(own), preempting)), k) == InUse(own, k)
    {
    }

    static lemma EmptyHasNone(a: Option<Amounts>, k: string)
      ensures IsEmpty(a) ==> k !in OrZero(a)
      ensures a.Some? && a.value != map[] ==> !IsEmpty(a)
    {
    }

    static lemma MinByType(a: Option<Amounts>, b: Option<Amounts>, k: string)
      ensures var r := ComponentWiseMin(a, b);
              && (k in OrZero(r) <==> k in OrZero(a) || k in OrZero(b))
              && (!IsEmpty(a) || !IsEmpty(b) ==> r.Some? && r.value != map[])
              && (k in OrZero(r) ==>
                    r.value[k] == if k in OrZero(a) && (k !in OrZero(b) || OrZero(a)[k] <= OrZero(b)[k]) then OrZero(a)[k] else OrZero(b)[k])
    {
      if !IsEmpty(a) {
        var j :| j in a.value.Keys;
        assert j in OrZero(ComponentWiseMin(a, b));
      } else if !IsEmpty(b) {
        var j :| j in b.value.Keys;
        assert j in OrZero(ComponentWiseMin(a, b));
      }
    }

    static lemma MergeByType(a: Option<Amounts>, b: Option<Amounts>, k: string)
      ensures var r := MergeIfNotPresent(a, b);
              && (k in OrZero(r) <==> k in OrZero(a) || k in OrZero(b))
              && (!IsEmpty(a) ==> r.Some? && r.value != map[])
              && (k in OrZero(r) ==> r.value[k] == if k in OrZero(a) then OrZero(a)[k] else OrZero(b)[k])
    {
      if !IsEmpty(a) {
        var j :| j in a.value.Keys;
        assert j in OrZero(MergeIfNotPresent(a, b));
      }
    }

    function UsedBy(usages: map<string, Amounts>): Amounts {
      if queuePath in usages then usages[queuePath] else map[]
    }

    /** Some queue that counts guarantees the type. */
    ghost predicate IsGuaranteed(k: string)
      requires Valid()
    {
      exists c | c in Counted(k) :: c.Guarantees(k)
    }

    /** A bound that all queues that count leave of the type, and the least of them. */
    ghost predicate LeastLeft(usages: map<string, Amounts>, k: string, v: Quantity)
      requires Valid()
    {
      && (forall c | c in Counted(k) && c.Guarantees(k) :: v <= c.Left(c.UsedBy(usages), k))
      && (exists c | c in Counted(k) :: c.Guarantees(k) && v == c.Left(c.UsedBy(usages), k))
    }

    /** The remaining guarantee: of the types that are guaranteed, the least that a queue that counts has left. */
    lemma {:induction false} RemainingByType(usages: map<string, Amounts>, standing: map<QueueSnapshot, Amounts>, k: string)
      requires Valid()
      ensures var r := RemainingBy(usages, standing);
              && (r.Some? ==> r.value != map[])
              && (k in OrZero(r) <==> IsGuaranteed(k))
              && (k in OrZero(r) ==> LeastLeft(usages, k, r.value[k]))
      decreases depth
    {
      hide QueueSnapshot.RemainingOf, QueueSnapshot.Guarantees, QueueSnapshot.Left, QueueSnapshot.IsAskQueue, QueueSnapshot.Withholds;
      var inherited := if parent == null then None else parent.RemainingBy(usages, standing);
      if parent != null {
        parent.RemainingByType(usages, standing, k);
      }
      LevelByType(inherited, UsedBy(usages), if askQueue == null || askQueue !in standing then map[] else standing[askQueue], k);
      if Guarantees(k) && !Withholds() {
        assert this in Counted(k);
      }
      if parent != null && !Withholds() && !(IsAskQueue() && Guarantees(k)) {
        assert Counted(k) == {this} + parent.Counted(k);
      }
    }

    static lemma SameTypes(a: Option<Amounts>, b: Option<Amounts>, k: string)
      ensures var r := SubOnlyExisting(a, b);
              && (k in OrZero(r) <==> k in OrZero(a))
              && (IsEmpty(r) <==> IsEmpty(a))
              && (r.None? <==> a.None?)
              && (k in OrZero(a) ==> OrZero(r)[k] == SatSub(OrZero(a)[k], Get(OrZero(b), k)))
    {
      if !IsEmpty(a) {
        var j :| j in a.value.Keys;
        assert j in OrZero(SubOnlyExisting(a, b));
      }
    }
  }

  // ---------- duplicates ----------

  /** A duplicate has the values of its original; its parent is the duplicate of the parent. */
  ghost predicate IsCopy(copy: QueueSnapshot, original: QueueSnapshot)
    reads copy, original
  {
    SameSettings(copy, original) && copy.used == original.used
  }

  /** Everything but the usage, which a trial run changes. */
  ghost predicate SameSettings(copy: QueueSnapshot, original: QueueSnapshot) {
    && copy.queuePath == original.queuePath && copy.preempting == original.preempting
    && copy.guaranteed == original.guaranteed && copy.potentialVictims == original.potentialVictims
    && copy.askQueue == original.askQueue
    && (copy.parent == null <==> original.parent == null)
    && (copy.parent != null ==> copy.parent.queuePath == original.parent.queuePath)
  }

  /** One entry: its ancestors are entries too, and it stands for one original. */
  ghost predicate Linked(entries: map<string, QueueSnapshot>, originals: map<string, QueueSnapshot>, p: string)
    requires p in entries && p in originals
  {
    var copy, original := entries[p], originals[p];
    && copy.queuePath == p && copy.Valid() && original.Valid() && SameSettings(copy, original)
    && (forall c | c in copy.chain :: c.queuePath in entries && entries[c.queuePath] == c)
    && (original.parent != null ==>
          && original.parent.queuePath in originals && originals[original.parent.queuePath] == original.parent
          && original.parent.queuePath in entries && entries[original.parent.queuePath] == copy.parent)
  }

  ghost predicate AllLinked(entries: map<string, QueueSnapshot>, originals: map<string, QueueSnapshot>) {
    entries.Keys == originals.Keys && forall p | p in entries :: Linked(entries, originals, p)
  }

  ghost predicate EntryValid(entries: map<string, QueueSnapshot>, originals: map<string, QueueSnapshot>, p: string)
    requires p in entries && p in originals
    reads entries[p], originals[p]
  {
    Linked(entries, originals, p) && entries[p].used == originals[p].used
  }

  /** Duplicates by queue path. Ghost: the originals they were made from. */
  class Duplicates {
    var entries: map<string, QueueSnapshot>
    ghost var originals: map<string, QueueSnapshot>

    ghost predicate Valid()
      reads this, entries.Values, originals.Values
    {
      entries.Keys == originals.Keys && forall p | p in entries :: EntryValid(entries, originals, p)
    }

    constructor ()
      ensures Valid() && entries == map[] && originals == map[]
    {
      entries, originals := map[], map[];
    }
  }

  /** The queue paths of a snapshot and its ancestors name them. */
  ghost predicate PathsNameQueues(queues: set<QueueSnapshot>) {
    forall a, b | a in queues && b in queues && a.queuePath == b.queuePath :: a == b
  }

  /** The entries are copies outside the given queues, of originals among them. */
  ghost predicate CopiesOf(copies: Duplicates, queues: set<QueueSnapshot>)
    reads copies
  {
    && copies.entries.Keys == copies.originals.Keys
    && forall p | p in copies.entries ::
         copies.originals[p] in queues && copies.originals[p].queuePath == p && copies.entries[p] !in queues
  }

  /** Copies a snapshot and its ancestors, unless a copy exists. The snapshots themselves are not changed. */
  method Duplicate(s: QueueSnapshot, copies: Duplicates, ghost queues: set<QueueSnapshot>) returns (copy: QueueSnapshot)
    requires s.Valid() && copies.Valid()
    requires PathsNameQueues(queues) && s.chain <= queues && CopiesOf(copies, queues)
    modifies copies
    ensures copies.Valid() && CopiesOf(copies, queues)
    ensures forall p | p in old(copies.entries) :: p in copies.entries && copies.entries[p] == old(copies.entries)[p]
    ensures forall p | p in copies.entries && p !in old(copies.entries) ::
              fresh(copies.entries[p]) && copies.originals[p] in s.chain
    ensures s.queuePath in copies.entries && copies.originals[s.queuePath] == s
    ensures copy == copies.entries[s.queuePath]
    decreases s.depth
  {
    hide EntryValid;
    if s.queuePath in copies.entries {
      return copies.entries[s.queuePath];
    }
    var parent: QueueSnapshot? := null;
    if s.parent != null {
      parent := Duplicate(s.parent, copies, queues);
    }
    copy := AddCopy(s, parent, copies, queues);
  }

  method AddCopy(s: QueueSnapshot, parent: QueueSnapshot?, copies: Duplicates, ghost queues: set<QueueSnapshot>)
    returns (copy: QueueSnapshot)
    requires s.Valid() && s in queues && copies.Valid() && CopiesOf(copies, queues) && s.queuePath !in copies.entries
    requires s.parent == null <==> parent == null
    requires s.parent != null ==>
               && s.parent.queuePath in copies.entries && copies.entries[s.parent.queuePath] == parent
               && copies.originals[s.parent.queuePath] == s.parent
    modifies copies
    ensures copies.Valid() && CopiesOf(copies, queues) && fresh(copy)
    ensures copies.entries == old(copies.entries)[s.queuePath := copy]
    ensures copies.originals == old(copies.originals)[s.queuePath := s]
  {
    hide EntryValid;
    ghost var entries, originals := copies.entries, copies.originals;
    copy := CopyOf(s, parent, entries, originals);
    copies.entries := copies.entries[s.queuePath := copy];
    copies.originals := copies.originals[s.queuePath := s];
    forall p | p in copies.entries
      ensures EntryValid(copies.entries, copies.originals, p)
    {
      hide IsCopy;
      if p != s.queuePath {
        EntryStays(entries, originals, s, copy, p);
      }
    }
  }

  /** The copy, and that it makes a valid entry. */
  method CopyOf(s: QueueSnapshot, parent: QueueSnapshot?, ghost entries: map<string, QueueSnapshot>,
                ghost originals: map<string, QueueSnapshot>)
    returns (copy: QueueSnapshot)
    requires s.Valid() && s.queuePath !in entries && s.queuePath !in originals
    requires s.parent == null <==> parent == null
    requires s.parent != null ==>
               && s.parent.queuePath in entries && entries[s.parent.queuePath] == parent
               && s.parent.queuePath in originals && originals[s.parent.queuePath] == s.parent
               && EntryValid(entries, originals, s.parent.queuePath)
    ensures fresh(copy) && EntryValid(entries[s.queuePath := copy], originals[s.queuePath := s], s.queuePath)
  {
    copy := new QueueSnapshot(parent, s.queuePath, s.used, s.preempting, s.guaranteed, s.potentialVictims, s.askQueue);
    NewEntry(entries, originals, s, copy);
  }

  lemma EntryStays(entries: map<string, QueueSnapshot>, originals: map<string, QueueSnapshot>,
                   s: QueueSnapshot, copy: QueueSnapshot, p: string)
    requires p in entries && p in originals && EntryValid(entries, originals, p)
    requires s.queuePath !in entries && s.queuePath !in originals
    ensures EntryValid(entries[s.queuePath := copy], originals[s.queuePath := s], p)
  {
  }

  lemma NewEntry(entries: map<string, QueueSnapshot>, originals: map<string, QueueSnapshot>,
                 s: QueueSnapshot, copy: QueueSnapshot)
    requires s.queuePath !in entries && s.queuePath !in originals
    requires s.Valid() && copy.Valid() && IsCopy(copy, s)
    requires s.parent == null ==> copy.chain == {copy}
    requires s.parent != null ==>
               && s.parent.queuePath in entries && s.parent.queuePath in originals
               && entries[s.parent.queuePath] == copy.parent && originals[s.parent.queuePath] == s.parent
               && EntryValid(entries, originals, s.parent.queuePath)
               && copy.chain == {copy} + copy.parent.chain
    ensures EntryValid(entries[s.queuePath := copy], originals[s.queuePath := s], s.queuePath)
  {
  }

  // ---------- duplicates and originals ----------

  /** What the queues use, by path. */
  ghost function Usage(queues: map<string, QueueSnapshot>): map<string, Amounts>
    reads queues.Values
  {
    map p | p in queues :: queues[p].used
  }

  /** The ancestors of an original with a duplicate have duplicates. */
  lemma {:induction false} AncestorsListed(entries: map<string, QueueSnapshot>, originals: map<string, QueueSnapshot>,
                                           p: string, c: QueueSnapshot)
    requires AllLinked(entries, originals) && p in originals && c in originals[p].chain
    ensures c.queuePath in originals && originals[c.queuePath] == c
    decreases originals[p].depth
  {
    assert Linked(entries, originals, p);
    if c != originals[p] {
      AncestorsListed(entries, originals, originals[p].parent.queuePath, c);
    }
  }

  /** A duplicate is an ancestor of another exactly if its path is the path of an ancestor of the original. */
  lemma {:induction false} ChainByPath(entries: map<string, QueueSnapshot>, originals: map<string, QueueSnapshot>, p: string, r: string)
    requires AllLinked(entries, originals) && p in entries && r in entries
    ensures entries[r] in entries[p].chain <==> r in originals[p].Paths()
    decreases originals[p].depth
  {
    assert Linked(entries, originals, p) && Linked(entries, originals, r);
    var copy, original := entries[p], originals[p];
    if original.parent != null {
      ChainByPath(entries, originals, original.parent.queuePath, r);
      assert original.Paths() == {p} + original.parent.Paths();
    }
  }

  /** The remaining guarantee of a duplicate is that of its original under the usage of the duplicates. */
  lemma {:induction false} RemainingByPath(entries: map<string, QueueSnapshot>, originals: map<string, QueueSnapshot>, p: string,
                                           standing: map<QueueSnapshot, Amounts>)
    requires AllLinked(entries, originals) && p in entries
    requires forall r | r in originals && originals[r].askQueue != null ::
               originals[r].askQueue in standing && standing[originals[r].askQueue] == originals[r].askQueue.used
    ensures entries[p].GetRemainingGuaranteedResource() == originals[p].RemainingBy(Usage(entries), standing)
    decreases originals[p].depth
  {
    hide QueueSnapshot.RemainingOf;
    assert Linked(entries, originals, p);
    var copy, original := entries[p], originals[p];
    if original.parent != null {
      RemainingByPath(entries, originals, original.parent.queuePath, standing);
    }
    SameLevel(copy, original,
              if original.parent == null then None else original.parent.RemainingBy(Usage(entries), standing),
              copy.used, if copy.askQueue == null then map[] else copy.askQueue.used);
  }

  lemma SameLevel(copy: QueueSnapshot, original: QueueSnapshot, inherited: Option<Amounts>, ownUsed: Amounts, askUsed: Amounts)
    requires SameSettings(copy, original)
    ensures copy.RemainingOf(inherited, ownUsed, askUsed) == original.RemainingOf(inherited, ownUsed, askUsed)
  {
  }
}
