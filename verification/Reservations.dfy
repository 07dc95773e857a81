/**
 Reservations as values. Every reservation is recorded twice, on the application and on the node, and
 counted once, on the partition (pkg/scheduler/objects/application.go, pkg/scheduler/objects/node.go,
 pkg/scheduler/partition.go). The steps are those of the partition; a release that is on its way to
 the counter is owed, one that never gets there is lost.
 */
module Reservations {
  import opened Resources
  import opened MapSums

  datatype Held = Held(app: string, required: bool)

  /** The application of an ask and the node it requires, if any. */
  datatype Ask = Ask(app: string, requiredNode: string)

  datatype State = State(
    /** Every registered ask: keys are unique in the partition. */
    asks: map<string, Ask>,
    /** The node each ask of an application reserves. */
    apps: map<string, map<string, string>>,
    /** Who reserved a node. */
    nodes: map<string, map<string, Held>>,
    counter: int, owed: nat, lost: nat)

  const EMPTY := State(map[], map[], map[], 0, 0, 0)

  function NodeOf(s: State, app: string, key: string): Option<string> {
    if app in s.apps && key in s.apps[app] then Some(s.apps[app][key]) else None
  }

  function HeldOn(s: State, node: string, key: string): Option<Held> {
    if node in s.nodes && key in s.nodes[node] then Some(s.nodes[node][key]) else None
  }

  predicate Registered(s: State, app: string, key: string) {
    key in s.asks && s.asks[key].app == app
  }

  predicate IsRequired(s: State, key: string) {
    key in s.asks && s.asks[key].requiredNode != ""
  }

  function Sizes(apps: map<string, map<string, string>>): map<string, int> {
    map a | a in apps :: |apps[a]|
  }

  /** The true number of reservations. */
  ghost function Count(s: State): int {
    Sum(Sizes(s.apps))
  }

  // ---------- one reservation ----------

  /** A normal reservation needs an unreserved node, one of a required node no normal reservation beside it. */
  predicate CanHold(held: map<string, Held>, required: bool) {
    if required then forall k | k in held :: held[k].required else held == map[]
  }

  function Put(s: State, app: string, key: string, node: string, required: bool): State
    requires app in s.apps && node in s.nodes
  {
    s.(apps := s.apps[app := s.apps[app][key := node]],
       nodes := s.nodes[node := s.nodes[node][key := Held(app, required)]])
  }

  /** Takes the reservation of an ask off the application and off the node. */
  function Drop(s: State, app: string, key: string): State {
    var node := NodeOf(s, app, key);
    if node.None? then s
    else
      s.(apps := s.apps[app := s.apps[app] - {key}],
         nodes := if node.value in s.nodes then s.nodes[node.value := s.nodes[node.value] - {key}] else s.nodes)
  }

  function DropAll(s: State, todo: seq<(string, string)>): State
    decreases |todo|
  {
    if todo == [] then s else DropAll(Drop(s, todo[0].0, todo[0].1), todo[1..])
  }

  // ---------- the steps of the partition ----------

  datatype Step =
    | AddApp(app: string)
    | AddNode(node: string)
    | AddAsk(app: string, key: string, requiredNode: string)
    | Reserve(app: string, key: string, node: string, fits: bool)
    | UnReserve(app: string, key: string)
    | Expire(app: string, key: string)
    | Cancel(todo: seq<(string, string)>)
    | RemoveAsk(app: string, key: string)
    | RemoveApp(app: string, todo: seq<(string, string)>)
    | RemoveNode(node: string, todo: seq<(string, string)>)
    | Settle(num: nat)
    | Lose(num: nat)

  function UnReserved(s: State, app: string, key: string): State {
    if NodeOf(s, app, key).None? then s else Drop(s, app, key).(counter := s.counter - 1)
  }

  /** An ask that already reserves another node gives that up first. */
  function Reserved(s: State, app: string, key: string, node: string, fits: bool): State {
    if app !in s.apps || node !in s.nodes || NodeOf(s, app, key) == Some(node) then s
    else
      var u := UnReserved(s, app, key);
      if fits && Registered(u, app, key) && CanHold(u.nodes[node], IsRequired(u, key))
      then Put(u, app, key, node, IsRequired(u, key)).(counter := u.counter + 1)
      else u
  }

  function Next(s: State, step: Step): State {
    match step
    case AddApp(app) => if app in s.apps then s else s.(apps := s.apps[app := map[]])
    case AddNode(node) => if node in s.nodes then s else s.(nodes := s.nodes[node := map[]])
    case AddAsk(app, key, requiredNode) => if app in s.apps then s.(asks := s.asks[key := Ask(app, requiredNode)]) else s
    case Reserve(app, key, node, fits) => Reserved(s, app, key, node, fits)
    case UnReserve(app, key) => UnReserved(s, app, key)
    case Expire(app, key) => if NodeOf(s, app, key).None? then s else Drop(s, app, key).(lost := s.lost + 1)
    case Cancel(todo) => DropAll(s, todo).(owed := s.owed + |todo|)
    case RemoveAsk(app, key) =>
      var d := Drop(s, app, key);
      d.(asks := s.asks - {key}, owed := s.owed + if NodeOf(s, app, key).Some? then 1 else 0)
    case RemoveApp(app, todo) =>
      var d := DropAll(s, todo);
      d.(apps := d.apps - {app}, asks := map k | k in s.asks && s.asks[k].app != app :: s.asks[k], owed := s.owed + |todo|)
    case RemoveNode(node, todo) =>
      var d := DropAll(s, todo);
      d.(nodes := d.nodes - {node}, owed := s.owed + |todo|)
    case Settle(num) => if num <= s.owed then s.(counter := s.counter - num, owed := s.owed - num) else s
    case Lose(num) => if num <= s.owed then s.(owed := s.owed - num, lost := s.lost + num) else s
  }

  // ---------- the invariants ----------

  /** What an application records is on the node; its ask is registered and has the node it requires. */
  predicate AppRecord(s: State, app: string, key: string) {
    var node := NodeOf(s, app, key);
    node.Some? ==>
      && HeldOn(s, node.value, key) == Some(Held(app, IsRequired(s, key)))
      && Entitled(s, app, key, node.value)
  }

  predicate Entitled(s: State, app: string, key: string, node: string) {
    Registered(s, app, key) && (IsRequired(s, key) ==> node == s.asks[key].requiredNode)
  }

  /** What a node records is on the application. */
  predicate NodeRecord(s: State, node: string, key: string) {
    var held := HeldOn(s, node, key);
    held.Some? ==> NodeOf(s, held.value.app, key) == Some(node)
  }

  /** A normal reservation is alone on its node. */
  predicate Alone(s: State, node: string, key: string, other: string) {
    HeldOn(s, node, key).Some? && HeldOn(s, node, other).Some? && !HeldOn(s, node, key).value.required ==> key == other
  }

  ghost predicate Matched(s: State) {
    && (forall a, k :: AppRecord(s, a, k))
    && (forall n, k :: NodeRecord(s, n, k))
    && (forall n, k, j :: Alone(s, n, k, j))
  }

  /** The counter is off by exactly the releases that were lost and those on their way. */
  ghost predicate Counted(s: State) {
    s.counter == Count(s) + s.owed + s.lost
  }

  ghost predicate Sound(s: State) {
    Matched(s) && Counted(s)
  }

  /** The reservations of a list, each once. */
  predicate Lists(s: State, todo: seq<(string, string)>) {
    && (forall i | 0 <= i < |todo| :: NodeOf(s, todo[i].0, todo[i].1).Some?)
    && (forall i, j | 0 <= i < j < |todo| :: todo[i] != todo[j])
  }

  /**
   New keys are unused, an ask reserves no other node than it requires, removals concern all
   reservations of an application or a node, and cancellations any.
   */
  ghost predicate Legal(s: State, step: Step) {
    match step
    case AddAsk(app, key, requiredNode) => key !in s.asks
    case Reserve(app, key, node, fits) => IsRequired(s, key) ==> node == s.asks[key].requiredNode
    case Cancel(todo) => Lists(s, todo)
    case RemoveAsk(app, key) => key in s.asks ==> Registered(s, app, key)
    case RemoveApp(app, todo) =>
      && Lists(s, todo)
      && forall a, k :: (a, k) in todo <==> a == app && NodeOf(s, a, k).Some?
    case RemoveNode(node, todo) =>
      && Lists(s, todo)
      && forall a, k :: (a, k) in todo <==> NodeOf(s, a, k) == Some(node)
    case _ => true
  }

  // ---------- one reservation more or less ----------

  lemma DropFrame(s: State, app: string, key: string)
    ensures forall a, k :: NodeOf(Drop(s, app, key), a, k) == if a == app && k == key then None else NodeOf(s, a, k)
    ensures forall n, k :: HeldOn(Drop(s, app, key), n, k) == if NodeOf(s, app, key) == Some(n) && k == key then None else HeldOn(s, n, k)
    ensures Drop(s, app, key) == s.(apps := Drop(s, app, key).apps, nodes := Drop(s, app, key).nodes)
    ensures Drop(s, app, key).apps.Keys == s.apps.Keys && Drop(s, app, key).nodes.Keys == s.nodes.Keys
  {
  }

  lemma DropOnlyRecords(s: State, app: string, key: string)
    ensures var d := Drop(s, app, key); d == s.(apps := d.apps, nodes := d.nodes)
    ensures NodeOf(s, app, key).None? ==> Drop(s, app, key) == s
  {
  }

  lemma DropMatched(s: State, app: string, key: string)
    requires Matched(s)
    ensures Matched(Drop(s, app, key))
  {
    DropFrame(s, app, key);
    var d := Drop(s, app, key);
    hide Drop, NodeOf, HeldOn;
    assert AppRecord(s, app, key);
    forall a, k
      ensures AppRecord(d, a, k)
    {
      assert AppRecord(s, a, k);
    }
    forall n, k
      ensures NodeRecord(d, n, k)
    {
      assert NodeRecord(s, n, k);
    }
    forall n, k, j
      ensures Alone(d, n, k, j)
    {
      assert Alone(s, n, k, j);
    }
  }

  lemma DropCount(s: State, app: string, key: string)
    ensures Count(Drop(s, app, key)) == Count(s) - if NodeOf(s, app, key).Some? then 1 else 0
  {
    hide Sum;
    if NodeOf(s, app, key).Some? {
      var less := s.apps[app] - {key};
      assert less[key := s.apps[app][key]] == s.apps[app];
      SumReplace(Sizes(s.apps), app, |less|);
      assert Sizes(s.apps[app := less]) == Sizes(s.apps)[app := |less|];
    }
  }

  lemma PutFrame(s: State, app: string, key: string, node: string, required: bool)
    requires app in s.apps && node in s.nodes
    ensures var p := Put(s, app, key, node, required);
            && (forall a, k :: NodeOf(p, a, k) == if a == app && k == key then Some(node) else NodeOf(s, a, k))
            && (forall n, k :: HeldOn(p, n, k) == if n == node && k == key then Some(Held(app, required)) else HeldOn(s, n, k))
            && p.asks == s.asks
  {
  }

  lemma CanHoldMeans(s: State, node: string, required: bool, key: string)
    requires node in s.nodes && CanHold(s.nodes[node], required)
    ensures HeldOn(s, node, key).Some? ==> required && HeldOn(s, node, key).value.required
  {
  }

  lemma PutMatched(s: State, app: string, key: string, node: string, required: bool)
    requires Matched(s) && app in s.apps && node in s.nodes && NodeOf(s, app, key).None?
    requires Entitled(s, app, key, node) && required == IsRequired(s, key) && CanHold(s.nodes[node], required)
    ensures Matched(Put(s, app, key, node, required))
  {
    var p := Put(s, app, key, node, required);
    PutFrame(s, app, key, node, required);
    hide Put, NodeOf, HeldOn, CanHold;
    forall a, k
      ensures AppRecord(p, a, k)
    {
      assert AppRecord(s, a, k);
    }
    forall n, k
      ensures NodeRecord(p, n, k)
    {
      assert NodeRecord(s, n, k);
    }
    forall n, k, j
      ensures Alone(p, n, k, j)
    {
      CanHoldMeans(s, node, required, k);
      CanHoldMeans(s, node, required, j);
      assert Alone(s, n, k, j);
    }
  }

  lemma PutCount(s: State, app: string, key: string, node: string, required: bool)
    requires app in s.apps && node in s.nodes && NodeOf(s, app, key).None?
    ensures Count(Put(s, app, key, node, required)) == Count(s) + 1
  {
    hide Sum;
    var more := s.apps[app][key := node];
    SumReplace(Sizes(s.apps), app, |more|);
    assert Sizes(s.apps[app := more]) == Sizes(s.apps)[app := |more|];
  }

  // ---------- many reservations less ----------

  lemma DropNone(s: State)
    ensures DropAll(s, []) == s
  {
  }

  lemma {:induction false} DropAllFrame(s: State, todo: seq<(string, string)>)
    ensures forall a, k :: NodeOf(DropAll(s, todo), a, k) == if (a, k) in todo then None else NodeOf(s, a, k)
    ensures DropAll(s, todo) == s.(apps := DropAll(s, todo).apps, nodes := DropAll(s, todo).nodes)
    ensures DropAll(s, todo).apps.Keys == s.apps.Keys && DropAll(s, todo).nodes.Keys == s.nodes.Keys
    decreases |todo|
  {
    hide Drop, NodeOf, HeldOn;
    if todo != [] {
      DropFrame(s, todo[0].0, todo[0].1);
      DropAllFrame(Drop(s, todo[0].0, todo[0].1), todo[1..]);
      assert todo[0] == (todo[0].0, todo[0].1);
    }
  }

  lemma {:induction false} DropAllAppend(s: State, todo: seq<(string, string)>, app: string, key: string)
    ensures DropAll(s, todo + [(app, key)]) == Drop(DropAll(s, todo), app, key)
    decreases |todo|
  {
    if todo == [] {
      assert todo + [(app, key)] == [(app, key)];
    } else {
      assert (todo + [(app, key)])[1..] == todo[1..] + [(app, key)];
      hide Drop;
      DropAllAppend(Drop(s, todo[0].0, todo[0].1), todo[1..], app, key);
    }
  }

  lemma {:induction false} DropAllKeeps(s: State, todo: seq<(string, string)>)
    requires Matched(s) && Lists(s, todo)
    ensures Matched(DropAll(s, todo)) && Count(DropAll(s, todo)) == Count(s) - |todo|
    decreases |todo|
  {
    hide Drop, NodeOf, HeldOn, Matched, Count;
    if todo != [] {
      var d := Drop(s, todo[0].0, todo[0].1);
      DropMatched(s, todo[0].0, todo[0].1);
      DropCount(s, todo[0].0, todo[0].1);
      DropFrame(s, todo[0].0, todo[0].1);
      forall i | 0 <= i < |todo[1..]|
        ensures NodeOf(d, todo[1..][i].0, todo[1..][i].1).Some?
      {
        assert todo[0] != todo[i + 1];
      }
      DropAllKeeps(d, todo[1..]);
    }
  }

  /** The reservations of a node that match, among those looked at so far. */
  ghost predicate MatchesListed(s: State, node: string, onlyNormal: bool, done: set<string>, todo: seq<(string, string)>) {
    && Lists(s, todo)
    && forall a, k :: (a, k) in todo <==> k in done && Matches(s, node, onlyNormal, a, k)
  }

  predicate Matches(s: State, node: string, onlyNormal: bool, app: string, key: string) {
    var held := HeldOn(s, node, key);
    held.Some? && held.value.app == app && !(onlyNormal && held.value.required)
  }

  lemma NoneListed(s: State, node: string, onlyNormal: bool)
    ensures MatchesListed(s, node, onlyNormal, {}, [])
  {
  }

  lemma SkipOne(s: State, node: string, onlyNormal: bool, done: set<string>, todo: seq<(string, string)>, key: string)
    requires MatchesListed(s, node, onlyNormal, done, todo) && key !in done
    requires HeldOn(s, node, key).Some? && onlyNormal && HeldOn(s, node, key).value.required
    ensures MatchesListed(s, node, onlyNormal, done + {key}, todo)
  {
    hide HeldOn, NodeOf;
  }

  lemma ListOne(s: State, node: string, onlyNormal: bool, done: set<string>, todo: seq<(string, string)>, key: string)
    requires Sound(s) && MatchesListed(s, node, onlyNormal, done, todo) && key !in done
    requires HeldOn(s, node, key).Some? && !(onlyNormal && HeldOn(s, node, key).value.required)
    ensures var app := HeldOn(s, node, key).value.app;
            && MatchesListed(s, node, onlyNormal, done + {key}, todo + [(app, key)])
            && NodeOf(DropAll(s, todo), app, key).Some?
            && DropAll(s, todo + [(app, key)]) == Drop(DropAll(s, todo), app, key)
  {
    hide HeldOn, NodeOf, Count, Drop, DropAll;
    var app := HeldOn(s, node, key).value.app;
    assert NodeRecord(s, node, key);
    assert Matches(s, node, onlyNormal, app, key);
    assert (app, key) !in todo;
    DropAllFrame(s, todo);
    DropAllAppend(s, todo, app, key);
    ListGrows(s, todo, (app, key));
    forall a, k
      ensures (a, k) in todo + [(app, key)] <==> k in done + {key} && Matches(s, node, onlyNormal, a, k)
    {
    }
  }

  lemma ListGrows(s: State, todo: seq<(string, string)>, x: (string, string))
    requires Lists(s, todo) && x !in todo && NodeOf(s, x.0, x.1).Some?
    ensures Lists(s, todo + [x])
  {
    hide NodeOf;
  }

  /** All reservations of a node, looked up on the node, are all reservations of it that applications recorded. */
  lemma AllOfNode(s: State, node: string, todo: seq<(string, string)>)
    requires Sound(s) && node in s.nodes && MatchesListed(s, node, false, s.nodes[node].Keys, todo)
    ensures Legal(s, RemoveNode(node, todo))
    ensures forall a, k :: NodeOf(DropAll(s, todo), a, k) != Some(node)
  {
    DropAllFrame(s, todo);
    hide NodeOf, Count, DropAll;
    forall a, k
      ensures (a, k) in todo <==> NodeOf(s, a, k) == Some(node)
    {
      assert AppRecord(s, a, k) && NodeRecord(s, node, k);
    }
  }

  lemma UnlistedNode(s: State, node: string)
    requires Sound(s) && node !in s.nodes
    ensures Legal(s, RemoveNode(node, [])) && Next(Next(s, RemoveNode(node, [])), Settle(0)) == s
  {
    hide NodeOf, Count;
    assert s.nodes - {node} == s.nodes;
    forall a, k
      ensures NodeOf(s, a, k) != Some(node)
    {
      assert AppRecord(s, a, k);
    }
  }

  // ---------- every step ----------

  /** Nothing but the records and the owners of reserved asks matters for the matching. */
  lemma SameRecords(s: State, t: State)
    requires Matched(s)
    requires forall a, k :: NodeOf(t, a, k) == NodeOf(s, a, k)
    requires forall n, k :: HeldOn(t, n, k) == HeldOn(s, n, k)
    requires forall a, k :: NodeOf(s, a, k).Some? ==> k in s.asks && k in t.asks && t.asks[k] == s.asks[k]
    ensures Matched(t)
  {
    hide NodeOf, HeldOn;
    assert forall a, k :: AppRecord(s, a, k) ==> AppRecord(t, a, k);
    assert forall n, k :: NodeRecord(s, n, k) ==> NodeRecord(t, n, k);
    assert forall n, k, j :: Alone(s, n, k, j) ==> Alone(t, n, k, j);
  }

  lemma ReservedIsRegistered(s: State)
    requires Matched(s)
    ensures forall a, k :: NodeOf(s, a, k).Some? ==> Registered(s, a, k)
  {
    hide NodeOf, HeldOn;
    forall a, k | NodeOf(s, a, k).Some?
      ensures Registered(s, a, k)
    {
      assert AppRecord(s, a, k);
    }
  }

  /** The counters play no part in the matching. */
  lemma CountersAside(s: State, t: State)
    requires Matched(s) && t.asks == s.asks && t.apps == s.apps && t.nodes == s.nodes
    ensures Matched(t) && Count(t) == Count(s)
  {
    ReservedIsRegistered(s);
    SameRecords(s, t);
  }

  lemma AddAppKeeps(s: State, app: string)
    requires Sound(s)
    ensures Sound(Next(s, AddApp(app)))
  {
    hide Matched, Count;
    ReservedIsRegistered(s);
    SameRecords(s, Next(s, AddApp(app)));
    NewAppCount(s, app);
  }

  /** An application without reservations counts nothing. */
  lemma EmptyAppSize(apps: map<string, map<string, string>>, app: string)
    requires app in apps && apps[app] == map[]
    ensures Sum(Sizes(apps - {app})) == Sum(Sizes(apps))
  {
    hide Sum;
    SumRemove(Sizes(apps), app);
    assert Sizes(apps) - {app} == Sizes(apps - {app});
    assert Sizes(apps)[app] == 0;
  }

  lemma NewAppCount(s: State, app: string)
    ensures Count(Next(s, AddApp(app))) == Count(s)
  {
    hide Sizes;
    if app !in s.apps {
      EmptyAppSize(s.apps[app := map[]], app);
      assert s.apps[app := map[]] - {app} == s.apps;
    }
  }

  lemma AddNodeKeeps(s: State, node: string)
    requires Sound(s)
    ensures Sound(Next(s, AddNode(node)))
  {
    ReservedIsRegistered(s);
    SameRecords(s, Next(s, AddNode(node)));
  }

  lemma AddAskKeeps(s: State, app: string, key: string, requiredNode: string)
    requires Sound(s) && key !in s.asks
    ensures Sound(Next(s, AddAsk(app, key, requiredNode)))
  {
    ReservedIsRegistered(s);
    SameRecords(s, Next(s, AddAsk(app, key, requiredNode)));
  }

  lemma UnReserveKeeps(s: State, app: string, key: string)
    requires Sound(s)
    ensures Sound(UnReserved(s, app, key))
    ensures NodeOf(UnReserved(s, app, key), app, key).None? && UnReserved(s, app, key).asks == s.asks
    ensures UnReserved(s, app, key).apps.Keys == s.apps.Keys && UnReserved(s, app, key).nodes.Keys == s.nodes.Keys
  {
    hide Drop, Matched, HeldOn, Count;
    DropMatched(s, app, key);
    DropCount(s, app, key);
    DropFrame(s, app, key);
    if NodeOf(s, app, key).Some? {
      CountersAside(Drop(s, app, key), UnReserved(s, app, key));
    }
  }

  lemma ReserveKeeps(s: State, app: string, key: string, node: string, fits: bool)
    requires Sound(s) && Legal(s, Reserve(app, key, node, fits))
    ensures Sound(Reserved(s, app, key, node, fits))
  {
    hide UnReserved, Matched, NodeOf, HeldOn, Count, CanHold, Put;
    UnReserveKeeps(s, app, key);
    var u := UnReserved(s, app, key);
    if app in s.apps && node in s.nodes && fits && Registered(u, app, key) && CanHold(u.nodes[node], IsRequired(u, key)) {
      PutMatched(u, app, key, node, IsRequired(u, key));
      PutCount(u, app, key, node, IsRequired(u, key));
      PutOnlyRecords(u, app, key, node, IsRequired(u, key));
      var p := Put(u, app, key, node, IsRequired(u, key));
      CountersAside(p, p.(counter := u.counter + 1));
    }
  }

  /** The asks, applications and nodes that a step leaves. */
  lemma ListedAfter(s: State, step: Step)
    ensures var t := Next(s, step);
            && t.asks == (match step
                          case AddAsk(app, key, node) => if app in s.apps then s.asks[key := Ask(app, node)] else s.asks
                          case RemoveAsk(_, key) => s.asks - {key}
                          case RemoveApp(app, _) => map k | k in s.asks && s.asks[k].app != app :: s.asks[k]
                          case _ => s.asks)
            && t.apps.Keys == (match step
                               case AddApp(app) => s.apps.Keys + {app}
                               case RemoveApp(app, _) => s.apps.Keys - {app}
                               case _ => s.apps.Keys)
            && t.nodes.Keys == (match step
                                case AddNode(node) => s.nodes.Keys + {node}
                                case RemoveNode(node, _) => s.nodes.Keys - {node}
                                case _ => s.nodes.Keys)
  {
    hide Drop, DropAll, CanHold, IsRequired;
    match step
    case Reserve(app, key, node, fits) => DropFrame(s, app, key);
    case UnReserve(app, key) => DropFrame(s, app, key);
    case Expire(app, key) => DropFrame(s, app, key);
    case Cancel(todo) => DropAllFrame(s, todo);
    case RemoveAsk(app, key) => DropFrame(s, app, key);
    case RemoveApp(_, todo) => DropAllFrame(s, todo);
    case RemoveNode(_, todo) => DropAllFrame(s, todo);
    case _ =>
  }

  /** The node that an ask reserves after a step. */
  lemma HeldAfter(s: State, step: Step, a: string, k: string)
    ensures NodeOf(Next(s, step), a, k) ==
              match step
              case Reserve(app, key, node, fits) =>
                if (a, k) != (app, key) || app !in s.apps || node !in s.nodes then NodeOf(s, a, k)
                else if NodeOf(s, a, k) == Some(node) || (fits && Registered(s, app, key) && NothingInTheWay(s, key, node)) then Some(node)
                else None
              case UnReserve(app, key) => if (a, k) == (app, key) then None else NodeOf(s, a, k)
              case Expire(app, key) => if (a, k) == (app, key) then None else NodeOf(s, a, k)
              case RemoveAsk(app, key) => if (a, k) == (app, key) then None else NodeOf(s, a, k)
              case Cancel(todo) => if (a, k) in todo then None else NodeOf(s, a, k)
              case RemoveApp(app, todo) => if a == app || (a, k) in todo then None else NodeOf(s, a, k)
              case RemoveNode(node, todo) => if (a, k) in todo then None else NodeOf(s, a, k)
              case _ => NodeOf(s, a, k)
  {
    hide Drop, DropAll, Reserved, NothingInTheWay;
    match step
    case Reserve(app, key, node, fits) =>
      if app in s.apps && node in s.nodes {
        ReservedIff(s, app, key, node, fits);
      } else {
        NotReserved(s, app, key, node, fits);
      }
    case UnReserve(app, key) => DropFrame(s, app, key);
    case Expire(app, key) => DropFrame(s, app, key);
    case Cancel(todo) => DropAllFrame(s, todo);
    case RemoveAsk(app, key) => DropFrame(s, app, key);
    case RemoveApp(_, todo) => DropAllFrame(s, todo);
    case RemoveNode(_, todo) => DropAllFrame(s, todo);
    case _ =>
  }

  lemma NotReserved(s: State, app: string, key: string, node: string, fits: bool)
    requires app !in s.apps || node !in s.nodes
    ensures Reserved(s, app, key, node, fits) == s
  {
  }

  /** Nothing on the node keeps an ask away: a normal reservation excludes everything else. */
  ghost predicate NothingInTheWay(s: State, key: string, node: string) {
    forall k :: HeldOn(s, node, k).Some? ==> IsRequired(s, key) && HeldOn(s, node, k).value.required
  }

  lemma HoldIsFree(s: State, key: string, node: string)
    requires node in s.nodes
    ensures CanHold(s.nodes[node], IsRequired(s, key)) <==> NothingInTheWay(s, key, node)
  {
    hide IsRequired;
    if s.nodes[node] != map[] {
      var k :| k in s.nodes[node].Keys;
      assert HeldOn(s, node, k).Some?;
    }
    assert forall k | k in s.nodes[node] :: HeldOn(s, node, k) == Some(s.nodes[node][k]);
  }

  /**
   When an ask ends up with the node it wants. A refused ask has no reservation at all: what it held on
   another node is gone, and the counter went down for it. No other record changes.
   */
  lemma ReservedIff(s: State, app: string, key: string, node: string, fits: bool)
    requires app in s.apps && node in s.nodes
    ensures var r, was := Reserved(s, app, key, node, fits), NodeOf(s, app, key);
            && (NodeOf(r, app, key) == Some(node)
                <==> was == Some(node) || (fits && Registered(s, app, key) && NothingInTheWay(s, key, node)))
            && (NodeOf(r, app, key) != Some(node) ==> NodeOf(r, app, key).None?)
            && r.counter == s.counter + (if NodeOf(r, app, key).Some? then 1 else 0) - (if was.Some? then 1 else 0)
            && (was != Some(node) ==>
                  && HeldOn(r, node, key) == (if NodeOf(r, app, key).Some? then Some(Held(app, IsRequired(s, key))) else HeldOn(s, node, key))
                  && (was.Some? ==> HeldOn(r, was.value, key).None?))
    ensures var r, was := Reserved(s, app, key, node, fits), NodeOf(s, app, key);
            && r.asks == s.asks && r.owed == s.owed && r.lost == s.lost
            && (forall a, k :: (a, k) != (app, key) ==> NodeOf(r, a, k) == NodeOf(s, a, k))
            && (forall n, k :: (k != key || (n != node && Some(n) != was)) ==> HeldOn(r, n, k) == HeldOn(s, n, k))
            && (was == Some(node) ==> r == s)
  {
    hide Drop, Put, HeldOn, CanHold, NothingInTheWay, IsRequired, Registered;
    HoldIsFree(s, key, node);
    DropFrame(s, app, key);
    var u := UnReserved(s, app, key);
    Recounted(Drop(s, app, key), s.counter - 1);
    SameOffNode(s, u, key, node);
    HoldIsFree(u, key, node);
    PutFrame(u, app, key, node, IsRequired(s, key));
    PutOnlyRecords(u, app, key, node, IsRequired(s, key));
    Recounted(Put(u, app, key, node, IsRequired(s, key)), u.counter + 1);
  }

  lemma Recounted(s: State, counter: int)
    ensures forall a, k :: NodeOf(s.(counter := counter), a, k) == NodeOf(s, a, k)
    ensures forall n, k :: HeldOn(s.(counter := counter), n, k) == HeldOn(s, n, k)
  {
  }

  /** Only the other keys of the node and the ask itself decide. */
  lemma SameOffNode(s: State, u: State, key: string, node: string)
    requires u.asks == s.asks
    ensures (forall k :: HeldOn(u, node, k) == HeldOn(s, node, k)) ==> NothingInTheWay(u, key, node) == NothingInTheWay(s, key, node)
    ensures IsRequired(u, key) == IsRequired(s, key) && forall a :: Registered(u, a, key) == Registered(s, a, key)
  {
  }

  lemma PutOnlyRecords(s: State, app: string, key: string, node: string, required: bool)
    requires app in s.apps && node in s.nodes
    ensures var p := Put(s, app, key, node, required); p == s.(apps := p.apps, nodes := p.nodes)
  {
  }

  lemma ExpireKeeps(s: State, app: string, key: string)
    requires Sound(s)
    ensures Sound(Next(s, Expire(app, key)))
  {
    hide Drop, Matched, HeldOn, NodeOf, Count;
    DropMatched(s, app, key);
    DropCount(s, app, key);
    DropFrame(s, app, key);
    CountersAside(Drop(s, app, key), Drop(s, app, key).(lost := s.lost + 1));
  }

  lemma CancelKeeps(s: State, todo: seq<(string, string)>)
    requires Sound(s) && Lists(s, todo)
    ensures Sound(Next(s, Cancel(todo)))
  {
    hide DropAll, Matched, HeldOn, NodeOf, Count;
    DropAllKeeps(s, todo);
    DropAllFrame(s, todo);
    CountersAside(DropAll(s, todo), Next(s, Cancel(todo)));
  }

  lemma RemoveAskKeeps(s: State, app: string, key: string)
    requires Sound(s) && (key in s.asks ==> Registered(s, app, key))
    ensures Sound(Next(s, RemoveAsk(app, key)))
  {
    var d, t := Drop(s, app, key), Next(s, RemoveAsk(app, key));
    DropMatched(s, app, key);
    DropCount(s, app, key);
    DropFrame(s, app, key);
    ReservedIsRegistered(s);
    ReservedIsRegistered(d);
    hide Drop, Matched, Count;
    assert forall a, k :: NodeOf(d, a, k).Some? ==> k != key;
    SameRecords(d, t);
    assert t.apps == d.apps;
    CountByApps(d, t);
  }

  lemma CountByApps(s: State, t: State)
    requires s.apps == t.apps
    ensures Count(s) == Count(t)
  {
  }

  lemma RemoveAppKeeps(s: State, app: string, todo: seq<(string, string)>)
    requires Sound(s) && Legal(s, RemoveApp(app, todo))
    ensures Sound(Next(s, RemoveApp(app, todo)))
  {
    var d, t := DropAll(s, todo), Next(s, RemoveApp(app, todo));
    DropAllKeeps(s, todo);
    DropAllFrame(s, todo);
    ReservedIsRegistered(d);
    hide DropAll, Matched, Count;
    assert forall k :: NodeOf(d, app, k).None?;
    assert forall a, k :: NodeOf(t, a, k) == NodeOf(d, a, k);
    SameRecords(d, t);
    EmptyAppCount(d, t, app);
  }

  lemma EmptyAppCount(d: State, t: State, app: string)
    requires t.apps == d.apps - {app} && forall k :: NodeOf(d, app, k).None?
    ensures Count(t) == Count(d)
  {
    hide Sizes;
    if app in d.apps {
      NoRecords(d, app);
      EmptyAppSize(d.apps, app);
    } else {
      assert d.apps - {app} == d.apps;
    }
  }

  lemma NoRecords(d: State, app: string)
    requires app in d.apps && forall k :: NodeOf(d, app, k).None?
    ensures d.apps[app] == map[]
  {
    forall k
      ensures k !in d.apps[app]
    {
      assert NodeOf(d, app, k).None?;
    }
  }

  lemma RemoveNodeKeeps(s: State, node: string, todo: seq<(string, string)>)
    requires Sound(s) && Legal(s, RemoveNode(node, todo))
    ensures Sound(Next(s, RemoveNode(node, todo)))
  {
    var d, t := DropAll(s, todo), Next(s, RemoveNode(node, todo));
    DropAllKeeps(s, todo);
    DropAllFrame(s, todo);
    ReservedIsRegistered(d);
    NobodyOn(d, node);
    hide DropAll, Matched, Count;
    assert forall n, k :: HeldOn(t, n, k) == HeldOn(d, n, k);
    SameRecords(d, t);
    CountByApps(d, t);
  }

  lemma NobodyOn(d: State, node: string)
    requires Matched(d) && forall a, k :: NodeOf(d, a, k) != Some(node)
    ensures forall k :: HeldOn(d, node, k).None?
  {
    hide NodeOf, HeldOn;
    forall k
      ensures HeldOn(d, node, k).None?
    {
      assert NodeRecord(d, node, k);
    }
  }

  lemma StepKeepsSound(s: State, step: Step)
    requires Sound(s) && Legal(s, step)
    ensures Sound(Next(s, step))
  {
    hide Sound;
    match step
    case AddApp(app) => AddAppKeeps(s, app);
    case AddNode(node) => AddNodeKeeps(s, node);
    case AddAsk(app, key, requiredNode) => AddAskKeeps(s, app, key, requiredNode);
    case Reserve(app, key, node, fits) => ReserveKeeps(s, app, key, node, fits);
    case UnReserve(app, key) => UnReserveKeeps(s, app, key);
    case Expire(app, key) => ExpireKeeps(s, app, key);
    case Cancel(todo) => CancelKeeps(s, todo);
    case RemoveAsk(app, key) => RemoveAskKeeps(s, app, key);
    case RemoveApp(app, todo) => RemoveAppKeeps(s, app, todo);
    case RemoveNode(node, todo) => RemoveNodeKeeps(s, node, todo);
    case Settle(num) => SettleKeeps(s, step);
    case Lose(num) => SettleKeeps(s, step);
  }

  lemma SettleKeeps(s: State, step: Step)
    requires Sound(s) && (step.Settle? || step.Lose?)
    ensures Sound(Next(s, step))
  {
    CountersAside(s, Next(s, step));
  }

  // ---------- whole runs ----------

  function Run(s: State, steps: seq<Step>): State
    decreases |steps|
  {
    if steps == [] then s else Run(Next(s, steps[0]), steps[1..])
  }

  ghost predicate LegalRun(s: State, steps: seq<Step>)
    decreases |steps|
  {
    steps != [] ==> Legal(s, steps[0]) && LegalRun(Next(s, steps[0]), steps[1..])
  }

  lemma {:induction false} RunIsSound(s: State, steps: seq<Step>)
    requires Sound(s) && LegalRun(s, steps)
    ensures Sound(Run(s, steps))
    decreases |steps|
  {
    hide Sound, Legal, Next;
    if steps != [] {
      StepKeepsSound(s, steps[0]);
      RunIsSound(Next(s, steps[0]), steps[1..]);
    }
  }

  lemma EmptyIsSound()
    ensures Sound(EMPTY)
  {
    assert Count(EMPTY) == 0 by {
      SumEmpty<string>();
      assert Sizes(map[]) == map[];
    }
    hide Count;
    assert forall a, k :: AppRecord(EMPTY, a, k);
    assert forall n, k :: NodeRecord(EMPTY, n, k);
    assert forall n, k, j :: Alone(EMPTY, n, k, j);
  }

  // ---------- what follows for the scheduler ----------

  /** The two sides agree: an application holds a node for a key exactly when the node holds the key for it. */
  lemma TwoSides(s: State, app: string, key: string, node: string)
    requires Sound(s)
    ensures NodeOf(s, app, key) == Some(node) <==> HeldOn(s, node, key).Some? && HeldOn(s, node, key).value.app == app
  {
    hide NodeOf, HeldOn, Count;
    assert AppRecord(s, app, key) && NodeRecord(s, node, key);
  }

  /** An ask reserves at most one node. */
  lemma OneNodePerAsk(s: State, key: string, n1: string, n2: string)
    requires Sound(s) && HeldOn(s, n1, key).Some? && HeldOn(s, n2, key).Some?
    ensures n1 == n2
  {
    hide NodeOf, HeldOn;
    assert NodeRecord(s, n1, key) && NodeRecord(s, n2, key);
    assert AppRecord(s, HeldOn(s, n1, key).value.app, key) && AppRecord(s, HeldOn(s, n2, key).value.app, key);
  }

  /** The normal reservations that a required node ask cancels on its node. */
  function Cancelled(held: map<string, Held>): set<string> {
    set k | k in held && !held[k].required
  }

  /**
   When an ask that requires a node already reserved it, there is nothing to cancel on that node: the
   attempt that then ends without a result loses no release.
   */
  lemma NothingCancelledWhenReserved(s: State, app: string, key: string)
    requires Sound(s) && Registered(s, app, key) && IsRequired(s, key) && NodeOf(s, app, key).Some?
    ensures s.asks[key].requiredNode in s.nodes && Cancelled(s.nodes[s.asks[key].requiredNode]) == {}
  {
    hide Count;
    var node := s.asks[key].requiredNode;
    assert AppRecord(s, app, key);
    forall k | k in s.nodes[node]
      ensures s.nodes[node][k].required
    {
      assert Alone(s, node, k, key);
    }
  }

  /** The short-cut: without a counted reservation there is none. */
  lemma ShortcutIsSound(s: State, app: string, key: string)
    requires Sound(s) && s.counter <= 0
    ensures NodeOf(s, app, key).None?
  {
    hide Matched, Count;
    if app in s.apps {
      CountCoversApp(s, app);
    }
  }

  lemma CountCoversApp(s: State, app: string)
    requires app in s.apps
    ensures |s.apps[app]| <= Count(s)
  {
    SumRemove(Sizes(s.apps), app);
    SumNonNegative(Sizes(s.apps) - {app});
  }

  /** A step that drops a reservation, or a release on its way, without telling the counter. */
  predicate Loses(s: State, step: Step) {
    || (step.Expire? && NodeOf(s, step.app, step.key).Some?)
    || (step.Lose? && 0 < step.num <= s.owed)
  }

  predicate NoStepLoses(s: State, steps: seq<Step>)
    decreases |steps|
  {
    steps != [] ==> !Loses(s, steps[0]) && NoStepLoses(Next(s, steps[0]), steps[1..])
  }

  lemma LostAfterStep(s: State, step: Step)
    ensures Next(s, step).lost >= s.lost
    ensures Next(s, step).lost == s.lost <==> !Loses(s, step)
  {
    hide Drop, DropAll, NodeOf, Put, CanHold;
    match step
    case Reserve(app, key, node, fits) =>
      DropFrame(s, app, key);
      var u := UnReserved(s, app, key);
      if app in u.apps && node in u.nodes {
        PutOnlyRecords(u, app, key, node, IsRequired(u, key));
      }
    case UnReserve(app, key) => DropOnlyRecords(s, app, key);
    case Expire(app, key) =>
    case Cancel(todo) => DropAllFrame(s, todo);
    case RemoveAsk(app, key) => DropOnlyRecords(s, app, key);
    case RemoveApp(app, todo) => DropAllFrame(s, todo);
    case RemoveNode(node, todo) => DropAllFrame(s, todo);
    case _ =>
  }

  lemma {:induction false} LostInRun(s: State, steps: seq<Step>)
    ensures Run(s, steps).lost >= s.lost
    ensures Run(s, steps).lost == s.lost <==> NoStepLoses(s, steps)
    decreases |steps|
  {
    hide Next, Loses;
    if steps != [] {
      LostAfterStep(s, steps[0]);
      LostInRun(Next(s, steps[0]), steps[1..]);
    }
  }

  /**
   In every run the counter is at least the true number of reservations plus the releases on their
   way, and it is exactly that if and only if no reservation expired and no release got lost.
   */
  lemma CounterExactIff(s: State, steps: seq<Step>)
    requires Sound(s) && s.lost == 0 && LegalRun(s, steps)
    ensures var r := Run(s, steps);
            && r.counter >= Count(r) + r.owed
            && (r.counter == Count(r) + r.owed <==> NoStepLoses(s, steps))
  {
    RunIsSound(s, steps);
    LostInRun(s, steps);
    hide Run, NoStepLoses, Matched, Count;
  }

  /** A reservation that waited too long is dropped behind the back of the counter. */
  lemma ExpiryIsNotCounted(s: State, app: string, key: string)
    requires Sound(s) && NodeOf(s, app, key).Some?
    ensures var t := Next(s, Expire(app, key)); t.counter == s.counter && Count(t) == Count(s) - 1
  {
    DropCount(s, app, key);
    CountByApps(Drop(s, app, key), Next(s, Expire(app, key)));
  }
}
