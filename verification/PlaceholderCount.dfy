/**
 The counter of allocated placeholders of a partition (pkg/scheduler/partition.go). Replacing
 placeholders is skipped while it is zero. An application places a placeholder before the partition
 counts it, and other goroutines may remove the application or the node in between.
 */
module PlaceholderCount {
  import opened Resources
  import opened Allocations

  datatype Spot = Spot(app: string, node: string)

  /** The placeholders in the applications of the partition; open: the one the scheduler placed and has not counted yet. */
  datatype State = State(apps: set<string>, nodes: set<string>, placed: map<string, Spot>, open: Option<Spot>, counter: int)

  const NEW := State({}, {}, map[], None, 0)

  /**
   Finish is the partition's part of an allocation. Release stands for every release by key, a
   confirmed replacement and a timeout included. A node is removed in two halves: it leaves the list,
   and later the allocations that it lists go. The second half confirms the swaps that have their real
   allocation elsewhere.
   */
  datatype Step =
    | AddApp(app: string)
    | AddNode(node: string)
    | Place(key: string, spot: Spot)
    | Finish
    | Recover(key: string, spot: Spot)
    | Release(key: string)
    | ReleaseApp(app: string)
    | Rollback(key: string)
    | RemoveApp(app: string)
    | RemoveNode(node: string)
    | ReleaseNode(listed: set<string>, confirmed: set<string>)

  predicate Registered(s: State, spot: Spot) {
    spot.app in s.apps && spot.node in s.nodes
  }

  predicate Legal(s: State, step: Step) {
    match step
    case Place(k, spot) => s.open.None? && Registered(s, spot)
    case Recover(k, spot) => Registered(s, spot)
    case Finish => s.open.Some?
    case _ => true
  }

  function OfApp(s: State, app: string): (keys: set<string>)
    ensures keys <= s.placed.Keys
  {
    set k | k in s.placed && s.placed[k].app == app
  }

  function Next(s: State, step: Step): State {
    match step
    case AddApp(app) => s.(apps := s.apps + {app})
    case AddNode(node) => s.(nodes := s.nodes + {node})
    case Place(k, spot) => s.(placed := s.placed[k := spot], open := Some(spot))
    case Finish =>
      s.(open := None, counter := if s.open.Some? && Registered(s, s.open.value) then s.counter + 1 else s.counter)
    case Recover(k, spot) => s.(placed := s.placed[k := spot], counter := s.counter + 1)
    case Release(k) => if k in s.placed then Gone(s, {k}, {k}) else s
    case ReleaseApp(app) => Gone(s, OfApp(s, app), OfApp(s, app))
    case Rollback(k) => if k in s.placed then Gone(s, {k}, {}) else s
    case RemoveApp(app) => Gone(s, OfApp(s, app), {}).(apps := s.apps - {app})
    case RemoveNode(node) => s.(nodes := s.nodes - {node})
    case ReleaseNode(listed, confirmed) => Gone(s, Among(s, listed), Among(s, listed) - confirmed)
  }

  /** The keys of placeholders in a list. */
  function Among(s: State, listed: set<string>): set<string> {
    listed * s.placed.Keys
  }

  /** Placeholders leave, and some of them are counted out. */
  function Gone(s: State, keys: set<string>, counted: set<string>): State {
    s.(placed := s.placed - keys, counter := s.counter - |counted|)
  }

  // ---------- what goes uncounted ----------

  /**
   What makes the counter too large: placeholders that leave without being counted out, and a
   placeholder that is placed again while it is listed.
   */
  function Lost(s: State, step: Step): nat {
    match step
    case Rollback(k) => if k in s.placed then 1 else 0
    case RemoveApp(app) => |OfApp(s, app)|
    case ReleaseNode(listed, confirmed) => |Among(s, listed) * confirmed|
    case Place(k, _) => if k in s.placed then 1 else 0
    case Recover(k, _) => if k in s.placed then 1 else 0
    case _ => 0
  }

  /** Placeholders that are never counted in: the application or the node is gone. */
  function Missed(s: State, step: Step): nat {
    if step.Finish? && s.open.Some? && !Registered(s, s.open.value) then 1 else 0
  }

  /** How far the counter is ahead of the placeholders, with the open one counted in. */
  function Ahead(s: State): int {
    s.counter + (if s.open.Some? then 1 else 0) - |s.placed|
  }

  lemma SizeWith(m: map<string, Spot>, k: string, spot: Spot)
    ensures |m[k := spot]| == |m| + if k in m then 0 else 1
  {
    assert m[k := spot].Keys == m.Keys + {k};
  }

  lemma AheadSame(s: State, t: State)
    requires s.placed == t.placed && s.open == t.open && s.counter == t.counter
    ensures Ahead(s) == Ahead(t)
  {
  }

  lemma GoneBalance(s: State, keys: set<string>, counted: set<string>)
    requires counted <= keys <= s.placed.Keys
    ensures Ahead(Gone(s, keys, counted)) == Ahead(s) + |keys - counted|
  {
    assert (s.placed - keys).Keys == s.placed.Keys - keys;
    assert keys == counted + (keys - counted);
  }

  lemma StepBalance(s: State, step: Step)
    requires Legal(s, step)
    ensures Ahead(Next(s, step)) == Ahead(s) + Lost(s, step) - Missed(s, step)
  {
    hide OfApp, Registered, Gone;
    match step
    case Place(k, spot) => SizeWith(s.placed, k, spot);
    case Recover(k, spot) => SizeWith(s.placed, k, spot);
    case Release(_) => LeaveBalance(s, step);
    case ReleaseApp(_) => LeaveBalance(s, step);
    case Rollback(_) => LeaveBalance(s, step);
    case RemoveApp(_) => LeaveBalance(s, step);
    case ReleaseNode(_, _) => LeaveBalance(s, step);
    case _ =>
  }

  lemma NodeBalance(s: State, listed: set<string>, confirmed: set<string>)
    ensures Ahead(Gone(s, Among(s, listed), Among(s, listed) - confirmed)) == Ahead(s) + |Among(s, listed) * confirmed|
  {
    var all := Among(s, listed);
    assert all <= s.placed.Keys;
    assert all - (all - confirmed) == all * confirmed;
    hide Gone, Ahead, Among;
    GoneBalance(s, all, all - confirmed);
  }

  lemma LeaveBalance(s: State, step: Step)
    requires step.Release? || step.ReleaseApp? || step.Rollback? || step.RemoveApp? || step.ReleaseNode?
    ensures Ahead(Next(s, step)) == Ahead(s) + Lost(s, step)
  {
    hide OfApp, Registered, Gone, Ahead, Among;
    match step
    case Release(k) =>
      if k in s.placed {
        GoneBalance(s, {k}, {k});
        assert {k} - {k} == {};
      }
    case ReleaseApp(app) =>
      GoneBalance(s, OfApp(s, app), OfApp(s, app));
      assert OfApp(s, app) - OfApp(s, app) == {};
    case Rollback(k) =>
      if k in s.placed {
        GoneBalance(s, {k}, {});
        assert {k} - {} == {k};
      }
    case RemoveApp(app) =>
      GoneBalance(s, OfApp(s, app), {});
      assert OfApp(s, app) - {} == OfApp(s, app);
      AheadSame(Gone(s, OfApp(s, app), {}), Next(s, step));
    case ReleaseNode(listed, confirmed) => NodeBalance(s, listed, confirmed);
  }

  // ---------- whole runs ----------

  function Run(s: State, steps: seq<Step>): State
    decreases |steps|
  {
    if steps == [] then s else Run(Next(s, steps[0]), steps[1..])
  }

  predicate LegalRun(s: State, steps: seq<Step>)
    decreases |steps|
  {
    steps != [] ==> Legal(s, steps[0]) && LegalRun(Next(s, steps[0]), steps[1..])
  }

  function TotalLost(s: State, steps: seq<Step>): nat
    decreases |steps|
  {
    if steps == [] then 0 else Lost(s, steps[0]) + TotalLost(Next(s, steps[0]), steps[1..])
  }

  function TotalMissed(s: State, steps: seq<Step>): nat
    decreases |steps|
  {
    if steps == [] then 0 else Missed(s, steps[0]) + TotalMissed(Next(s, steps[0]), steps[1..])
  }

  lemma {:induction false} RunBalance(s: State, steps: seq<Step>)
    requires LegalRun(s, steps)
    ensures Ahead(Run(s, steps)) == Ahead(s) + TotalLost(s, steps) - TotalMissed(s, steps)
    decreases |steps|
  {
    hide Next, Legal, Lost, Missed, Ahead;
    if steps != [] {
      StepBalance(s, steps[0]);
      RunBalance(Next(s, steps[0]), steps[1..]);
    }
  }

  /**
   Between two allocations the counter is the number of placeholders exactly if as many left
   uncounted as were never counted in, and it is below that number exactly if more were never counted in.
   */
  lemma CounterExactIff(steps: seq<Step>)
    requires LegalRun(NEW, steps) && Run(NEW, steps).open.None?
    ensures var s, lost, missed := Run(NEW, steps), TotalLost(NEW, steps), TotalMissed(NEW, steps);
            && (s.counter == |s.placed| <==> lost == missed)
            && (s.counter < |s.placed| <==> lost < missed)
  {
    RunBalance(NEW, steps);
  }

  /** At zero the search for placeholders to replace is skipped, and rightly so exactly if none was lost in the balance. */
  lemma SkipsNoneIff(steps: seq<Step>)
    requires LegalRun(NEW, steps) && Run(NEW, steps).open.None? && Run(NEW, steps).counter == 0
    ensures Run(NEW, steps).placed == map[] <==> TotalLost(NEW, steps) == TotalMissed(NEW, steps)
  {
    RunBalance(NEW, steps);
  }

  predicate Removes(step: Step) {
    step.RemoveApp? || step.RemoveNode?
  }

  /** While no application and no node is removed every allocation is counted in. */
  lemma {:induction false} NoneMissed(s: State, steps: seq<Step>)
    requires s.open.Some? ==> Registered(s, s.open.value)
    requires LegalRun(s, steps) && forall i | 0 <= i < |steps| :: !Removes(steps[i])
    ensures TotalMissed(s, steps) == 0
    decreases |steps|
  {
    hide Run, Lost;
    if steps != [] {
      assert !Removes(steps[0]);
      NoneMissed(Next(s, steps[0]), steps[1..]);
    }
  }

  predicate NoStepLoses(s: State, steps: seq<Step>)
    decreases |steps|
  {
    steps != [] ==> Lost(s, steps[0]) == 0 && NoStepLoses(Next(s, steps[0]), steps[1..])
  }

  lemma {:induction false} NothingLostIff(s: State, steps: seq<Step>)
    ensures TotalLost(s, steps) == 0 <==> NoStepLoses(s, steps)
    decreases |steps|
  {
    hide Next, Lost;
    if steps != [] {
      NothingLostIff(Next(s, steps[0]), steps[1..]);
    }
  }

  /**
   While no application and no node is removed, the counter is at least the number of placeholders, and
   it is that number exactly if no placeholder was rolled back or placed again while it was listed.
   */
  lemma WithoutRemovals(steps: seq<Step>)
    requires LegalRun(NEW, steps) && Run(NEW, steps).open.None? && forall i | 0 <= i < |steps| :: !Removes(steps[i])
    ensures Run(NEW, steps).counter >= |Run(NEW, steps).placed|
    ensures Run(NEW, steps).counter == |Run(NEW, steps).placed| <==> NoStepLoses(NEW, steps)
  {
    hide Run, LegalRun, TotalLost, TotalMissed, NoStepLoses;
    NoneMissed(NEW, steps);
    NothingLostIff(NEW, steps);
    CounterExactIff(steps);
  }

  // ---------- a placeholder that is counted out but never in ----------

  lemma RunStep(s: State, step: Step, steps: seq<Step>)
    ensures Run(s, [step] + steps) == Run(Next(s, step), steps)
    ensures LegalRun(s, [step] + steps) <==> Legal(s, step) && LegalRun(Next(s, step), steps)
  {
    assert ([step] + steps)[1..] == steps;
  }

  /** The steps of SkippedExample. */
  function NodeLost(): seq<Step> {
    [AddApp("app")] + ([AddNode("old")] + ([Place("ph-1", Spot("app", "old"))] + ([RemoveNode("old")]
    + ([ReleaseNode({"ph-1"}, {})] + ([Finish] + ([AddNode("new")] + ([Recover("ph-2", Spot("app", "new"))] + [])))))))
  }

  /**
   The node is removed between the placement and the count: the placeholder is counted out and never
   in, and the next one is not seen.
   */
  lemma SkippedExample()
    ensures LegalRun(NEW, NodeLost()) && Run(NEW, NodeLost()).open.None?
    ensures Run(NEW, NodeLost()).counter == 0 && "ph-2" in Run(NEW, NodeLost()).placed
  {
    hide Run, LegalRun;
    var spot, next := Spot("app", "old"), Spot("app", "new");
    var s2 := State({"app"}, {"old"}, map[], None, 0);
    var s3 := State({"app"}, {"old"}, map["ph-1" := spot], Some(spot), 0);
    var s4 := s3.(nodes := {});
    var s5 := State({"app"}, {}, map[], Some(spot), -1);
    var s6 := State({"app"}, {}, map[], None, -1);
    var s7 := s6.(nodes := {"new"});
    var s8 := State({"app"}, {"new"}, map["ph-2" := next], None, 0);
    FirstPart(spot, s2, s3, s4, s5);
    assert Next(s5, Finish) == s6 && Next(s6, AddNode("new")) == s7 && Next(s7, Recover("ph-2", next)) == s8;
    RunNothing(s8);
    RunStep(s7, Recover("ph-2", next), []);
    var last := [Recover("ph-2", next)] + [];
    RunStep(s6, AddNode("new"), last);
    RunStep(s5, Finish, [AddNode("new")] + last);
    var rest := [Finish] + ([AddNode("new")] + last);
    RunStep(s4, ReleaseNode({"ph-1"}, {}), rest);
    var both := [ReleaseNode({"ph-1"}, {})] + rest;
    RunStep(s3, RemoveNode("old"), both);
    RunStep(s2, Place("ph-1", spot), [RemoveNode("old")] + both);
    var more := [Place("ph-1", spot)] + ([RemoveNode("old")] + both);
    RunStep(NEW.(apps := {"app"}), AddNode("old"), more);
    RunStep(NEW, AddApp("app"), [AddNode("old")] + more);
  }

  lemma RunNothing(s: State)
    ensures Run(s, []) == s && LegalRun(s, [])
  {
  }

  lemma FirstPart(spot: Spot, s2: State, s3: State, s4: State, s5: State)
    requires spot == Spot("app", "old") && s2 == State({"app"}, {"old"}, map[], None, 0)
    requires s3 == State({"app"}, {"old"}, map["ph-1" := spot], Some(spot), 0)
    requires s4 == s3.(nodes := {}) && s5 == State({"app"}, {}, map[], Some(spot), -1)
    ensures Next(Next(NEW, AddApp("app")), AddNode("old")) == s2 && Next(NEW, AddApp("app")) == NEW.(apps := {"app"})
    ensures Next(s2, Place("ph-1", spot)) == s3 && Legal(s2, Place("ph-1", spot))
    ensures Next(s3, RemoveNode("old")) == s4 && Next(s4, ReleaseNode({"ph-1"}, {})) == s5
  {
    assert {"old"} - {"old"} == {};
    var all := {"ph-1"} * s4.placed.Keys;
    assert all == {"ph-1"} && all - {} == all;
    assert s4.placed - all == map[];
  }

  // ---------- the list of an application's releases ----------

  /** The placeholders in a list of released allocations. */
  function Placeholders(released: seq<Allocation>): nat {
    if released == [] then 0
    else Placeholders(released[..|released| - 1]) + (if released[|released| - 1].placeholder then 1 else 0)
  }

  function PlaceholderKeys(released: seq<Allocation>): set<string> {
    set i | 0 <= i < |released| && released[i].placeholder :: released[i].key
  }

  /** What the application returns for a release: each allocation once, and exactly the placeholders of the step. */
  ghost predicate Returns(s: State, step: Step, released: seq<Allocation>) {
    && (forall i, j | 0 <= i < j < |released| :: released[i].key != released[j].key)
    && match step
       case Release(k) => PlaceholderKeys(released) == if k in s.placed then {k} else {}
       case ReleaseApp(app) => PlaceholderKeys(released) == OfApp(s, app)
       case _ => false
  }

  lemma {:induction false} PlaceholdersByKey(released: seq<Allocation>)
    requires forall i, j | 0 <= i < j < |released| :: released[i].key != released[j].key
    ensures Placeholders(released) == |PlaceholderKeys(released)|
  {
    if released != [] {
      var n := |released| - 1;
      var front, last := released[..n], released[n];
      PlaceholdersByKey(front);
      assert last.key !in PlaceholderKeys(front);
      LastKey(released);
    } else {
      assert PlaceholderKeys(released) == {};
    }
  }

  lemma LastKey(released: seq<Allocation>)
    requires released != []
    ensures var n := |released| - 1;
            PlaceholderKeys(released)
            == PlaceholderKeys(released[..n]) + if released[n].placeholder then {released[n].key} else {}
  {
    var n := |released| - 1;
    forall k | k in PlaceholderKeys(released)
      ensures k in PlaceholderKeys(released[..n]) || (released[n].placeholder && k == released[n].key)
    {
      var i :| 0 <= i < |released| && released[i].placeholder && released[i].key == k;
      assert i < n ==> released[..n][i] == released[i];
    }
    forall k | k in PlaceholderKeys(released[..n])
      ensures k in PlaceholderKeys(released)
    {
      var i :| 0 <= i < n && released[..n][i].placeholder && released[..n][i].key == k;
      assert released[i] == released[..n][i];
    }
  }

  /** Counting the released list down by its placeholders is what the step does to the counter. */
  lemma ReleaseCountsList(s: State, step: Step, released: seq<Allocation>)
    requires Returns(s, step, released)
    ensures Next(s, step).counter == s.counter - Placeholders(released)
  {
    PlaceholdersByKey(released);
  }
}
