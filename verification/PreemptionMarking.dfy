/**
 Marking the final victims of a preemption (TryPreemption in pkg/scheduler/objects/preemption.go), while
 other routines release placeholders, and while the quota preemptor marks victims of its own. Every
 step below runs under the lock of one allocation; steps of different routines interleave freely.
 */
module PreemptionMarking {
  import opened Allocations

  datatype Flags = Flags(released: bool, preempted: bool)

  type Key = string

  /** Marking: the next victim to mark. Reverting: marking stopped at `failedAt`, `next` is to be unmarked next. */
  datatype Phase = Marking(next: nat) | Reverting(failedAt: nat, next: nat) | Succeeded | Failed

  /** `others` records the allocations that another preemptor has marked. */
  datatype State = State(flags: map<Key, Flags>, victims: seq<Key>, phase: Phase, others: set<Key>)

  datatype Action = SetReleased(key: Key, released: bool) | OtherMark(key: Key) | Step

  // the three atomic operations of an allocation

  function Release(f: Flags, released: bool): Flags {
    if released && f.preempted then f else f.(released := released)
  }

  function Mark(f: Flags): Flags {
    if f.released then f else f.(preempted := true)
  }

  function Unmark(f: Flags): Flags {
    f.(preempted := false)
  }

  ghost predicate WellFormed(s: State) {
    && (forall i | 0 <= i < |s.victims| :: s.victims[i] in s.flags)
    && (forall i, j | 0 <= i < j < |s.victims| :: s.victims[i] != s.victims[j])
    && (s.phase.Marking? ==> s.phase.next <= |s.victims|)
    && (s.phase.Reverting? ==> s.phase.next <= s.phase.failedAt < |s.victims|)
  }

  function MarkStep(s: State): State
    requires WellFormed(s)
  {
    match s.phase
    case Marking(i) =>
      if i == |s.victims| then s.(phase := Succeeded)
      else
        var v := s.victims[i];
        if s.flags[v].released then s.(phase := Reverting(i, 0))
        else s.(flags := s.flags[v := Mark(s.flags[v])], phase := Marking(i + 1))
    case Reverting(failedAt, i) =>
      if i == failedAt then s.(phase := Failed)
      else
        var v := s.victims[i];
        s.(flags := s.flags[v := Unmark(s.flags[v])], phase := Reverting(failedAt, i + 1))
    case _ => s
  }

  function Next(s: State, a: Action): State
    requires WellFormed(s)
  {
    match a
    case SetReleased(k, released) =>
      if k in s.flags then s.(flags := s.flags[k := Release(s.flags[k], released)]) else s
    case OtherMark(k) =>
      if k in s.flags && !s.flags[k].released
      then s.(flags := s.flags[k := Mark(s.flags[k])], others := s.others + {k}) else s
    case Step => MarkStep(s)
  }

  /** No allocation is both released and marked for preemption. */
  ghost predicate Exclusive(s: State) {
    forall k | k in s.flags :: !(s.flags[k].released && s.flags[k].preempted)
  }

  /** The victims that are marked by this routine at this point. */
  predicate MustBeMarked(phase: Phase, i: nat) {
    match phase
    case Marking(next) => i < next
    case Reverting(failedAt, next) => next <= i < failedAt
    case Succeeded => true
    case Failed => false
  }

  ghost predicate Inv(s: State) {
    && WellFormed(s) && Exclusive(s) && s.others <= s.flags.Keys
    && (forall i | 0 <= i < |s.victims| ::
          if MustBeMarked(s.phase, i) then s.flags[s.victims[i]].preempted
          else s.flags[s.victims[i]].preempted ==> s.victims[i] in s.others)
    && (forall k | k in s.others && k !in s.victims :: s.flags[k].preempted)
  }

  lemma NextKeeps(s: State, a: Action)
    requires Inv(s)
    ensures Inv(Next(s, a)) && Next(s, a).victims == s.victims && Next(s, a).flags.Keys == s.flags.Keys
  {
    var after := Next(s, a);
    forall i | 0 <= i < |s.victims|
      ensures if MustBeMarked(after.phase, i) then after.flags[s.victims[i]].preempted
              else after.flags[s.victims[i]].preempted ==> s.victims[i] in after.others
    {
      assert if MustBeMarked(s.phase, i) then s.flags[s.victims[i]].preempted
             else s.flags[s.victims[i]].preempted ==> s.victims[i] in s.others;
    }
  }

  /** Distinct victims, none of them marked yet. */
  ghost predicate Initial(s: State) {
    && s.phase == Marking(0) && s.others == {} && WellFormed(s) && Exclusive(s)
    && forall i | 0 <= i < |s.victims| :: !s.flags[s.victims[i]].preempted
  }

  ghost function Run(s: State, actions: seq<Action>): (r: State)
    requires Initial(s)
    ensures Inv(r) && r.victims == s.victims && r.flags.Keys == s.flags.Keys
    decreases |actions|
  {
    if actions == [] then
      s
    else
      var before := Run(s, actions[..|actions| - 1]);
      NextKeeps(before, actions[|actions| - 1]);
      Next(before, actions[|actions| - 1])
  }

  /**
   In every interleaving no allocation is ever both released and preempted. A finished preemption has
   marked all of its victims, or none of them, except for those that another preemptor has marked.
   */
  lemma AllOrNone(s: State, actions: seq<Action>)
    requires Initial(s)
    ensures Exclusive(Run(s, actions))
    ensures var r := Run(s, actions);
            && (r.phase.Succeeded? ==> forall v | v in r.victims :: r.flags[v] == Flags(false, true))
            && (r.phase.Failed? ==> forall v | v in r.victims && r.flags[v].preempted :: v in r.others)
            && (forall k | k in r.others && k !in r.victims :: r.flags[k].preempted)
  {
    var r := Run(s, actions);
    forall v | v in r.victims
      ensures r.phase.Succeeded? ==> r.flags[v] == Flags(false, true)
      ensures r.phase.Failed? && r.flags[v].preempted ==> v in r.others
    {
      var i :| 0 <= i < |r.victims| && r.victims[i] == v;
      assert MustBeMarked(r.phase, i) <==> r.phase.Succeeded? || (!r.phase.Failed? && MustBeMarked(r.phase, i));
    }
  }

  // ---------- marks of another preemptor ----------

  /** Another preemptor marked the allocation and it is not marked any more. */
  predicate Lost(s: State, k: Key) {
    k in s.others && k in s.flags && !s.flags[k].preempted
  }

  /** A step of this routine that undoes the mark of a victim. */
  predicate Reverts(s: State, a: Action, k: Key)
    requires WellFormed(s)
  {
    a.Step? && s.phase.Reverting? && s.phase.next < s.phase.failedAt && s.victims[s.phase.next] == k
  }

  /** A mark that is accepted, by this routine or by another preemptor. */
  predicate Marks(s: State, a: Action, k: Key)
    requires WellFormed(s)
  {
    && k in s.flags && !s.flags[k].released
    && (a == OtherMark(k) || (a.Step? && s.phase.Marking? && s.phase.next < |s.victims| && s.victims[s.phase.next] == k))
  }

  /** The last step that touched the mark was a revert, of a mark that another preemptor had set too. */
  ghost predicate RevertedLast(s: State, actions: seq<Action>, k: Key)
    requires Initial(s)
    decreases |actions|
  {
    actions != [] &&
      var before, a := Run(s, actions[..|actions| - 1]), actions[|actions| - 1];
      if Reverts(before, a, k) then k in before.others
      else !Marks(before, a, k) && RevertedLast(s, actions[..|actions| - 1], k)
  }

  lemma LostAfterStep(s: State, a: Action, k: Key)
    requires Inv(s)
    ensures Lost(Next(s, a), k) <==>
              if Reverts(s, a, k) then k in s.others else !Marks(s, a, k) && Lost(s, k)
  {
  }

  /** In every interleaving a mark of another preemptor is lost exactly when the revert touched it last. */
  lemma {:induction false} LostMarkIff(s: State, actions: seq<Action>, k: Key)
    requires Initial(s)
    ensures Lost(Run(s, actions), k) <==> RevertedLast(s, actions, k)
    decreases |actions|
  {
    hide Inv, Initial, Lost, Reverts, Marks, Next;
    if actions == [] {
      NothingLost(s, k);
    } else {
      LostMarkIff(s, actions[..|actions| - 1], k);
      LostAfterStep(Run(s, actions[..|actions| - 1]), actions[|actions| - 1], k);
    }
  }

  lemma NothingLost(s: State, k: Key)
    requires Initial(s)
    ensures !Lost(Run(s, []), k)
  {
  }

  /** Two victims, "a" and "b". */
  function Two(a: Flags, b: Flags, phase: Phase, others: set<Key>): State {
    State(map["a" := a, "b" := b], ["a", "b"], phase, others)
  }

  lemma TwoWellFormed(a: Flags, b: Flags, others: set<Key>)
    ensures WellFormed(Two(a, b, Marking(0), others)) && WellFormed(Two(a, b, Marking(1), others))
    ensures WellFormed(Two(a, b, Reverting(1, 0), others)) && WellFormed(Two(a, b, Reverting(1, 1), others))
  {
  }

  lemma TwoNext(a: Flags, b: Flags, others: set<Key>)
    ensures WellFormed(Two(a, b, Marking(0), others)) && WellFormed(Two(a, b, Marking(1), others))
    ensures WellFormed(Two(a, b, Reverting(1, 0), others)) && WellFormed(Two(a, b, Reverting(1, 1), others))
    ensures !a.released ==> Next(Two(a, b, Marking(0), others), Step) == Two(Mark(a), b, Marking(1), others)
    ensures !a.released ==> Next(Two(a, b, Marking(1), others), OtherMark("a")) == Two(Mark(a), b, Marking(1), others + {"a"})
    ensures Next(Two(a, b, Marking(1), others), SetReleased("b", true)) == Two(a, Release(b, true), Marking(1), others)
    ensures b.released ==> Next(Two(a, b, Marking(1), others), Step) == Two(a, b, Reverting(1, 0), others)
    ensures Next(Two(a, b, Reverting(1, 0), others), Step) == Two(Unmark(a), b, Reverting(1, 1), others)
    ensures Next(Two(a, b, Reverting(1, 1), others), Step) == Two(a, b, Failed, others)
  {
    TwoWellFormed(a, b, others);
    hide WellFormed;
    assert map["a" := a, "b" := b]["a" := Mark(a)] == map["a" := Mark(a), "b" := b];
    assert map["a" := a, "b" := b]["a" := Unmark(a)] == map["a" := Unmark(a), "b" := b];
    assert map["a" := a, "b" := b]["b" := Release(b, true)] == map["a" := a, "b" := Release(b, true)];
  }

  /** Undoing the marks also takes away a mark that the other preemptor has set in the meantime. */
  lemma LostMarkExample() returns (s: State, actions: seq<Action>)
    ensures Initial(s) && Run(s, actions).phase == Failed
    ensures "a" in Run(s, actions).others && !Run(s, actions).flags["a"].preempted
  {
    hide Run, Next, WellFormed;
    var clear, marked, released := Flags(false, false), Flags(false, true), Flags(true, false);
    s := Two(clear, clear, Marking(0), {});
    TwoNext(clear, clear, {});
    TwoNext(marked, clear, {});
    TwoNext(marked, clear, {"a"});
    TwoNext(marked, released, {"a"});
    TwoNext(clear, released, {"a"});
    RunNone(s);
    actions := RunStep(s, [], Step, s);
    actions := RunStep(s, actions, OtherMark("a"), Two(marked, clear, Marking(1), {}));
    actions := RunStep(s, actions, SetReleased("b", true), Two(marked, clear, Marking(1), {"a"}));
    actions := RunStep(s, actions, Step, Two(marked, released, Marking(1), {"a"}));
    actions := RunStep(s, actions, Step, Two(marked, released, Reverting(1, 0), {"a"}));
    actions := RunStep(s, actions, Step, Two(clear, released, Reverting(1, 1), {"a"}));
  }

  lemma RunNone(s: State)
    requires Initial(s)
    ensures Run(s, []) == s
  {
  }

  lemma RunStep(s: State, actions: seq<Action>, a: Action, before: State) returns (more: seq<Action>)
    requires Initial(s) && WellFormed(before) && before == Run(s, actions)
    ensures Next(before, a) == Run(s, more)
  {
    more := actions + [a];
    assert more[..|actions|] == actions;
  }

  // ---------- the loop itself, with nothing in between ----------

  /** Marks all victims, or undoes what it did when one of them is already released. */
  method MarkVictims(victims: seq<Allocation>) returns (ok: bool)
    requires forall i, j | 0 <= i < j < |victims| :: victims[i] != victims[j]
    requires forall v | v in victims :: !v.preempted
    modifies victims`preempted
    ensures ok <==> forall v | v in victims :: !v.released
    ensures forall v | v in victims :: v.preempted == ok
  {
    for i := 0 to |victims|
      invariant forall j | 0 <= j < |victims| :: victims[j].preempted == (j < i)
      invariant forall j | 0 <= j < i :: !victims[j].released
    {
      var marked := victims[i].MarkPreempted();
      if !marked {
        for k := 0 to i
          invariant forall j | 0 <= j < |victims| :: victims[j].preempted == (k <= j < i)
          invariant victims[i].released
        {
          victims[k].MarkUnPreempted();
        }
        assert victims[i] in victims;
        return false;
      }
    }
    return true;
  }
}
