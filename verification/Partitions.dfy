/**
 A partition (pkg/scheduler/partition.go): its nodes and applications, the total of the node
 capacities and the number of reservations, kept up to date by every change.
 */
module Partitions {
  import opened Resources
  import opened Allocations
  import T = PartitionTotals
  import opened Nodes
  import opened Applications
  import R = Reservations
  import PC = PlaceholderCount
  import opened ApplicationBooks

  class Partition {
    var stopped: bool
    var nodes: map<string, Node>
    var applications: map<string, Application>
    var totalPartitionResource: Option<Amounts>
    /** The number of reservations, as far as the partition was told. */
    var reservations: int
    /** The number of allocated placeholders, as far as the partition counted them. */
    var placeholderAllocations: int
    /** Every request of every application; keys are unique in the partition. */
    ghost var asks: map<string, R.Ask>
    /** Releases on their way to the counter, and releases that never get there. */
    ghost var owed: nat
    ghost var lost: nat

    // ---------- the partition as a value ----------

    /** Nodes and applications are listed under their IDs. */
    ghost predicate Listed()
      reads this`nodes, this`applications
    {
      && (forall id | id in nodes :: nodes[id].nodeID == id)
      && (forall id | id in applications :: applications[id].applicationID == id)
    }

    /** A reserved node is a listed one. */
    ghost predicate Reachable()
      reads this`nodes, this`applications, applications.Values`reservations
    {
      forall id, k | id in applications && k in applications[id].reservations ::
        var node := applications[id].reservations[k]; node.nodeID in nodes && nodes[node.nodeID] == node
    }

    /** The registered asks are the requests of the applications. */
    ghost predicate AsksAgree()
      reads this`asks, this`applications, applications.Values`requests
    {
      forall id, k | id in applications ::
        && (k in applications[id].requests <==> k in asks && asks[k].app == id)
        && (k in applications[id].requests ==> applications[id].requests[k].requiredNode == asks[k].requiredNode)
    }

    ghost predicate Valid()
      reads this`nodes, this`applications, this`asks, applications.Values`reservations, applications.Values`requests
    {
      Listed() && Reachable() && AsksAgree()
    }

    ghost function Capacities(): map<string, Amounts>
      reads this`nodes, nodes.Values`totalResource
    {
      map id | id in nodes :: nodes[id].totalResource
    }

    ghost function Capacity(): T.Totals
      reads this, nodes.Values`totalResource
    {
      T.Totals(totalPartitionResource, Capacities())
    }

    ghost function OnApps(): map<string, map<string, string>>
      reads this`applications, applications.Values`reservations
    {
      map id | id in applications :: applications[id].Reserves()
    }

    ghost function OnNodes(): map<string, map<string, R.Held>>
      reads this`nodes, nodes.Values`reservations
    {
      map id | id in nodes :: nodes[id].reservations
    }

    ghost function Holdings(): R.State
      reads this, applications.Values`reservations, nodes.Values`reservations
    {
      R.State(asks, OnApps(), OnNodes(), reservations, owed, lost)
    }

    constructor ()
      ensures Valid() && !stopped && Capacity() == T.Totals(None, map[]) && Holdings() == R.EMPTY
      ensures placeholderAllocations == PC.NEW.counter
    {
      stopped, nodes, applications, totalPartitionResource, reservations := false, map[], map[], None, 0;
      asks, owed, lost, placeholderAllocations := map[], 0, 0, 0;
    }

    // ---------- placeholders ----------

    method DecPhAllocationCount(num: int)
      modifies this`placeholderAllocations
      ensures placeholderAllocations == old(placeholderAllocations) - num
    {
      placeholderAllocations := placeholderAllocations - num;
    }

    /** Counts out the placeholders among the released allocations. */
    method UpdatePhAllocationCount(released: seq<Allocation>)
      modifies this`placeholderAllocations
      ensures placeholderAllocations == old(placeholderAllocations) - PC.Placeholders(released)
    {
      var phReleases := 0;
      for i := 0 to |released|
        invariant phReleases == PC.Placeholders(released[..i])
      {
        assert released[..i + 1][..i] == released[..i];
        if released[i].placeholder {
          phReleases := phReleases + 1;
        }
      }
      assert released[..|released|] == released;
      if phReleases > 0 {
        DecPhAllocationCount(phReleases);
      }
    }

    /**
     The release of one allocation: the application gives it up and the counter follows. For every view
     of the placeholders that knows this key, that is the release step of the counter.
     */
    method ReleaseFromApp(app: Application, key: string, ghost s: PC.State) returns (released: seq<Allocation>)
      requires app.Valid() && s.counter == placeholderAllocations
      requires key in s.placed <==> key in app.allocations && app.allocations[key].placeholder
      modifies this`placeholderAllocations, app`allocations, app`allocatedResource, app`allocatedPlaceholder
      ensures app.Valid() && app.View() == AllocationRemoved(old(app.View()), key)
      ensures released == if key in old(app.allocations) then [old(app.allocations)[key]] else []
      ensures placeholderAllocations == PC.Next(s, PC.Release(key)).counter
      ensures key !in PC.Next(s, PC.Release(key)).placed
    {
      hide AllocationRemoved, Application.View, Application.Valid;
      released := [];
      var alloc := app.RemoveAllocationInternal(key);
      if alloc != null {
        released := [alloc];
        assert released[..0] == [];
      }
      UpdatePhAllocationCount(released);
    }

    // ---------- reservations ----------

    /** Nothing but the records of one application changed. */
    twostate lemma OneAppChanged(id: string)
      requires id in applications && applications == old(applications)
      requires forall a | a in applications && a != id :: applications[a].Reserves() == old(applications[a].Reserves())
      ensures OnApps() == old(OnApps())[id := applications[id].Reserves()]
    {
      hide Application.Reserves;
    }

    twostate lemma OneNodeChanged(id: string)
      requires id in nodes && nodes == old(nodes)
      requires forall n | n in nodes && n != id :: nodes[n].reservations == old(nodes[n].reservations)
      ensures OnNodes() == old(OnNodes())[id := nodes[id].reservations]
    {
    }

    /** What an application recorded, as the value shows it. */
    lemma Recorded(app: Application, key: string)
      requires app.applicationID in applications && applications[app.applicationID] == app
      ensures R.NodeOf(Holdings(), app.applicationID, key)
              == if key in app.reservations then Some(app.reservations[key].nodeID) else None
    {
    }

    /** What the application recorded is taken off the application and its node. The counter is not told here. */
    method DropReservation(app: Application, key: string) returns (num: nat)
      requires Valid() && app.applicationID in applications && applications[app.applicationID] == app
      modifies app`reservations, nodes.Values`reservations
      ensures Valid() && num == if R.NodeOf(old(Holdings()), app.applicationID, key).Some? then 1 else 0
      ensures app.reservations == old(app.reservations) - {key}
      ensures forall n | n in nodes :: nodes[n].reservations
                == if key in old(app.reservations) && old(app.reservations)[key] == nodes[n] then old(nodes[n].reservations) - {key}
                   else old(nodes[n].reservations)
      ensures Holdings() == R.Drop(old(Holdings()), app.applicationID, key)
    {
      hide OnApps, OnNodes, Listed, Reachable, AsksAgree, Application.Reserves;
      Recorded(app, key);
      if key !in app.reservations {
        assert app.reservations - {key} == app.reservations;
        return 0;
      }
      var node := app.reservations[key];
      ReachedFrom(app, key);
      KnownToValue(app, node);
      AppKnown(app);
      num := app.UnReserveInternal(node, key);
      OneAppChanged(app.applicationID);
      OneNodeChanged(node.nodeID);
      StillReachable(app);
    }

    lemma ReachedFrom(app: Application, key: string)
      requires Valid() && app.applicationID in applications && applications[app.applicationID] == app && key in app.reservations
      ensures var node := app.reservations[key]; node.nodeID in nodes && nodes[node.nodeID] == node
      ensures forall a | a in applications && a != app.applicationID :: applications[a] != app
      ensures forall n | n in nodes && n != app.reservations[key].nodeID :: nodes[n] != app.reservations[key]
    {
    }

    method DecReservationCount(num: nat)
      modifies this`reservations
      ensures reservations == old(reservations) - num
    {
      reservations := reservations - num;
    }

    method UnReserve(app: Application, key: string)
      requires Valid() && app.applicationID in applications && applications[app.applicationID] == app
      modifies this`reservations, app`reservations, nodes.Values`reservations
      ensures Valid() && Holdings() == R.UnReserved(old(Holdings()), app.applicationID, key)
      ensures app.reservations == old(app.reservations) - {key}
      ensures forall n | n in nodes :: nodes[n].reservations
                == if key in old(app.reservations) && old(app.reservations)[key] == nodes[n] then old(nodes[n].reservations) - {key}
                   else old(nodes[n].reservations)
      ensures reservations == old(reservations) - if key in old(app.reservations) then 1 else 0
    {
      hide R.Drop, OnApps, OnNodes, R.NodeOf, Listed, Reachable, AsksAgree;
      R.DropOnlyRecords(Holdings(), app.applicationID, key);
      Recorded(app, key);
      var num := DropReservation(app, key);
      DecReservationCount(num);
    }

    /** Nothing recorded on the node keeps the ask away, and the ask may reserve at all. */
    predicate Grants(app: Application, node: Node, ask: Allocation)
      reads app`requests, ask, node`totalResource, node`reservations
    {
      && ask.key in app.requests && !ask.isAllocated && FitIn(node.totalResource, ask.resource)
      && forall k | k in node.reservations :: ask.requiredNode != "" && node.reservations[k].required
    }

    lemma GrantsIsHold(app: Application, node: Node, ask: Allocation)
      ensures Grants(app, node, ask)
              <==> (&& ask.key in app.requests && !ask.isAllocated && FitIn(node.totalResource, ask.resource)
                    && R.CanHold(node.reservations, ask.requiredNode != ""))
    {
      hide FitIn;
      if ask.requiredNode == "" && node.reservations != map[] {
        var k :| k in node.reservations.Keys;
      }
    }

    /**
     An ask that reserves another node gives that up first; whether it then gets this one or not, the
     other is not given back.
     */
    method Reserve(app: Application, node: Node, ask: Allocation)
      requires Valid() && app.applicationID in applications && applications[app.applicationID] == app
      requires node.nodeID in nodes && nodes[node.nodeID] == node
      requires ask.key in app.requests ==> app.requests[ask.key] == ask
      modifies this`reservations, app`reservations, nodes.Values`reservations
      ensures Valid()
      ensures var fits := !ask.isAllocated && FitIn(node.totalResource, ask.resource);
              Holdings() == R.Reserved(old(Holdings()), app.applicationID, ask.key, node.nodeID, fits)
      ensures ask.key in app.reservations && app.reservations[ask.key] == node
              <==> (ask.key in old(app.reservations) && old(app.reservations)[ask.key] == node) || old(Grants(app, node, ask))
      ensures app.reservations == if ask.key in app.reservations then old(app.reservations)[ask.key := node]
                                  else old(app.reservations) - {ask.key}
      ensures var has, had := ask.key in app.reservations, ask.key in old(app.reservations);
              && reservations == old(reservations) + (if has then 1 else 0) - (if had then 1 else 0)
              && node.reservations
                 == if has && !(had && old(app.reservations)[ask.key] == node)
                    then old(node.reservations)[ask.key := R.Held(app.applicationID, ask.requiredNode != "")] else old(node.reservations)
      ensures forall n | n in nodes && nodes[n] != node :: nodes[n].reservations
                == if ask.key in old(app.reservations) && old(app.reservations)[ask.key] == nodes[n]
                   then old(nodes[n].reservations) - {ask.key} else old(nodes[n].reservations)
    {
      hide R.UnReserved, FitIn, R.CanHold, OnApps, OnNodes, R.NodeOf, R.Put, R.Registered, R.IsRequired, Grants;
      hide AsksAgree, Listed, Reachable, Application.Reserves;
      Recorded(app, ask.key);
      KnownToValue(app, node);
      if ask.key in app.reservations {
        ReachedFrom(app, ask.key);
        if app.reservations[ask.key] == node {
          assert app.reservations == app.reservations[ask.key := node];
          return;
        }
      }
      MoveReservation(app, node, ask);
    }

    /** The reservation of an ask that is not on this node. */
    method MoveReservation(app: Application, node: Node, ask: Allocation)
      requires Valid() && app.applicationID in applications && applications[app.applicationID] == app
      requires node.nodeID in nodes && nodes[node.nodeID] == node
      requires ask.key in app.requests ==> app.requests[ask.key] == ask
      requires ask.key in app.reservations ==> app.reservations[ask.key] != node
      modifies this`reservations, app`reservations, nodes.Values`reservations
      ensures Valid()
      ensures var fits := !ask.isAllocated && FitIn(node.totalResource, ask.resource);
              var u, id := R.UnReserved(old(Holdings()), app.applicationID, ask.key), app.applicationID;
              && id in u.apps && node.nodeID in u.nodes
              && Holdings() == if fits && R.Registered(u, id, ask.key) && R.CanHold(u.nodes[node.nodeID], R.IsRequired(u, ask.key))
                               then R.Put(u, id, ask.key, node.nodeID, R.IsRequired(u, ask.key)).(counter := u.counter + 1) else u
      ensures var has, had := old(Grants(app, node, ask)), ask.key in old(app.reservations);
              && reservations == old(reservations) + (if has then 1 else 0) - (if had then 1 else 0)
              && app.reservations == (if has then old(app.reservations)[ask.key := node] else old(app.reservations) - {ask.key})
              && node.reservations == if has then old(node.reservations)[ask.key := R.Held(app.applicationID, ask.requiredNode != "")]
                                      else old(node.reservations)
      ensures forall n | n in nodes && nodes[n] != node :: nodes[n].reservations
                == if ask.key in old(app.reservations) && old(app.reservations)[ask.key] == nodes[n]
                   then old(nodes[n].reservations) - {ask.key} else old(nodes[n].reservations)
    {
      hide R.UnReserved, FitIn, R.CanHold, OnApps, OnNodes, R.NodeOf, R.Put, R.Registered, R.IsRequired, Grants;
      hide AsksAgree, Listed, Reachable, Application.Reserves;
      GrantsIsHold(app, node, ask);
      UnReserve(app, ask.key);
      GrantsIsHold(app, node, ask);
      ReserveFree(app, node, ask);
    }

    lemma KnownToValue(app: Application, node: Node)
      requires app.applicationID in applications && node.nodeID in nodes
      ensures app.applicationID in OnApps() && node.nodeID in OnNodes() && OnNodes()[node.nodeID] == nodes[node.nodeID].reservations
    {
    }

    lemma AppKnown(app: Application)
      requires app.applicationID in applications && applications[app.applicationID] == app
      ensures app.applicationID in OnApps() && OnApps()[app.applicationID] == app.Reserves()
    {
    }

    /** What one application recorded anew are listed nodes. */
    twostate lemma StillReachable(app: Application)
      requires old(Reachable()) && nodes == old(nodes) && applications == old(applications)
      requires forall a | a in applications && applications[a] != app :: applications[a].reservations == old(applications[a].reservations)
      requires forall k | k in app.reservations ::
                 var node := app.reservations[k];
                 (k in old(app.reservations) && old(app.reservations)[k] == node) || (node.nodeID in nodes && nodes[node.nodeID] == node)
      ensures Reachable()
    {
    }

    lemma OthersDiffer(app: Application, node: Node)
      requires Listed() && app.applicationID in applications && node.nodeID in nodes
      ensures forall a | a in applications && a != app.applicationID :: applications[a] != app
      ensures forall n | n in nodes && n != node.nodeID :: nodes[n] != node
    {
    }

    /** Both sides of a new reservation. */
    method RecordReservation(app: Application, node: Node, ask: Allocation) returns (ok: bool)
      requires Valid() && app.applicationID in applications && applications[app.applicationID] == app
      requires node.nodeID in nodes && nodes[node.nodeID] == node && ask.key !in app.reservations
      modifies app`reservations, node`reservations
      ensures Valid() && app.applicationID in old(OnApps()) && node.nodeID in old(OnNodes())
      ensures ok == (&& ask.key in app.requests && !ask.isAllocated && FitIn(node.totalResource, ask.resource)
                     && R.CanHold(old(OnNodes())[node.nodeID], ask.requiredNode != ""))
      ensures ok == old(Grants(app, node, ask))
      ensures app.reservations == if ok then old(app.reservations)[ask.key := node] else old(app.reservations)
      ensures node.reservations == if ok then old(node.reservations)[ask.key := R.Held(app.applicationID, ask.requiredNode != "")]
                                   else old(node.reservations)
      ensures var apps, id := old(OnApps()), app.applicationID;
              OnApps() == if ok then apps[id := apps[id][ask.key := node.nodeID]] else apps
      ensures var nodes, id := old(OnNodes()), node.nodeID;
              OnNodes() == if ok then nodes[id := nodes[id][ask.key := R.Held(app.applicationID, ask.requiredNode != "")]] else nodes
    {
      hide FitIn, R.CanHold, OnApps, OnNodes, Listed, Reachable, AsksAgree, Application.Reserves, Grants;
      GrantsIsHold(app, node, ask);
      KnownToValue(app, node);
      AppKnown(app);
      OthersDiffer(app, node);
      ok := app.ReserveInternal(node, ask);
      OneAppChanged(app.applicationID);
      OneNodeChanged(node.nodeID);
      StillReachable(app);
    }

    method ReserveFree(app: Application, node: Node, ask: Allocation)
      requires Valid() && app.applicationID in applications && applications[app.applicationID] == app
      requires node.nodeID in nodes && nodes[node.nodeID] == node
      requires ask.key in app.requests ==> app.requests[ask.key] == ask
      requires ask.key !in app.reservations
      modifies this`reservations, app`reservations, node`reservations
      ensures Valid()
      ensures var fits := !ask.isAllocated && FitIn(node.totalResource, ask.resource);
              var s, id := old(Holdings()), app.applicationID;
              && id in s.apps && node.nodeID in s.nodes
              && Holdings() == if fits && R.Registered(s, id, ask.key) && R.CanHold(s.nodes[node.nodeID], R.IsRequired(s, ask.key))
                               then R.Put(s, id, ask.key, node.nodeID, R.IsRequired(s, ask.key)).(counter := s.counter + 1) else s
      ensures var ok := old(Grants(app, node, ask));
              && reservations == old(reservations) + (if ok then 1 else 0)
              && app.reservations == (if ok then old(app.reservations)[ask.key := node] else old(app.reservations))
              && node.reservations == if ok then old(node.reservations)[ask.key := R.Held(app.applicationID, ask.requiredNode != "")]
                                      else old(node.reservations)
    {
      hide FitIn, R.CanHold, OnApps, OnNodes, Listed, Reachable, AsksAgree, R.Registered, R.IsRequired, Grants;
      AskAgrees(app, ask.key);
      var ok := RecordReservation(app, node, ask);
      if ok {
        reservations := reservations + 1;
      }
    }

    /** What the value says about a request of an application. */
    lemma AskAgrees(app: Application, key: string)
      requires Valid() && app.applicationID in applications && applications[app.applicationID] == app
      ensures R.Registered(Holdings(), app.applicationID, key) <==> key in app.requests
      ensures key in app.requests ==> R.IsRequired(Holdings(), key) == (app.requests[key].requiredNode != "")
    {
    }

    /** A reservation that waited too long; nobody tells the counter. */
    method ExpireReservation(app: Application, key: string)
      requires Valid() && app.applicationID in applications && applications[app.applicationID] == app
      modifies this`lost, app`reservations, nodes.Values`reservations
      ensures Valid() && Holdings() == R.Next(old(Holdings()), R.Expire(app.applicationID, key))
    {
      hide R.Drop, OnApps, OnNodes, R.NodeOf, Listed, Reachable, AsksAgree;
      R.DropOnlyRecords(Holdings(), app.applicationID, key);
      Recorded(app, key);
      var num := DropReservation(app, key);
      lost := lost + num;
    }

    /** Drops the reservations of a node, all or the normal ones only. The counter is not told here. */
    method DropMatching(node: Node, onlyNormal: bool) returns (released: nat, ghost todo: seq<(string, string)>)
      requires Valid() && R.Sound(Holdings()) && node.nodeID in nodes && nodes[node.nodeID] == node
      modifies applications.Values`reservations, nodes.Values`reservations
      ensures Valid() && released == |todo|
      ensures R.MatchesListed(old(Holdings()), node.nodeID, onlyNormal, old(node.reservations.Keys), todo)
      ensures Holdings() == R.DropAll(old(Holdings()), todo)
    {
      hide R.Sound, R.Matches, R.MatchesListed, R.Drop, R.DropAll, R.NodeOf, OnApps, OnNodes, Listed, Reachable,
           AsksAgree;
      ghost var s := Holdings();
      var held := node.reservations;
      var left := held.Keys;
      released, todo := 0, [];
      NodeKnown(node);
      assert held.Keys - left == {};
      R.NoneListed(s, node.nodeID, onlyNormal);
      R.DropNone(s);
      while left != {}
        invariant left <= held.Keys && Valid() && released == |todo|
        invariant node.nodeID in s.nodes && s.nodes[node.nodeID] == held
        invariant R.MatchesListed(s, node.nodeID, onlyNormal, held.Keys - left, todo)
        invariant Holdings() == R.DropAll(s, todo)
      {
        var k :| k in left;
        HeldAtStart(s, held, node.nodeID, k);
        ghost var done := held.Keys - left;
        left := left - {k};
        assert held.Keys - left == done + {k};
        if onlyNormal && held[k].required {
          R.SkipOne(s, node.nodeID, onlyNormal, done, todo, k);
        } else {
          R.ListOne(s, node.nodeID, onlyNormal, done, todo, k);
          AppOf(held[k].app, k);
          var num := DropReservation(applications[held[k].app], k);
          released := released + num;
          todo := todo + [(held[k].app, k)];
        }
      }
      assert held.Keys - left == held.Keys;
    }

    lemma NodeKnown(node: Node)
      requires node.nodeID in nodes && nodes[node.nodeID] == node
      ensures node.nodeID in OnNodes() && OnNodes()[node.nodeID] == node.reservations
    {
    }

    lemma HeldAtStart(s: R.State, held: map<string, R.Held>, node: string, key: string)
      requires node in s.nodes && s.nodes[node] == held && key in held
      ensures R.HeldOn(s, node, key) == Some(held[key])
    {
    }

    lemma AppOf(id: string, key: string)
      requires Valid() && R.NodeOf(Holdings(), id, key).Some?
      ensures id in applications && applications[id].applicationID == id
    {
    }

    /** An ask that requires this node drives the normal reservations off it; the release is reported later. */
    method CancelReservations(node: Node) returns (released: nat, ghost todo: seq<(string, string)>)
      requires Valid() && R.Sound(Holdings()) && node.nodeID in nodes && nodes[node.nodeID] == node
      modifies this`owed, applications.Values`reservations, nodes.Values`reservations
      ensures Valid() && released == |todo|
      ensures R.MatchesListed(old(Holdings()), node.nodeID, true, old(node.reservations.Keys), todo)
      ensures R.Legal(old(Holdings()), R.Cancel(todo)) && Holdings() == R.Next(old(Holdings()), R.Cancel(todo))
    {
      hide R.Sound, R.Matches, R.Drop, R.DropAll, R.NodeOf, OnApps, OnNodes, Listed, Reachable, AsksAgree;
      released, todo := DropMatching(node, true);
      R.DropAllFrame(old(Holdings()), todo);
      owed := owed + released;
    }

    // ---------- nodes ----------

    method UpdatePartitionResource(delta: Option<Amounts>)
      modifies this`totalPartitionResource
      ensures totalPartitionResource == if delta.None? then old(totalPartitionResource) else T.WithDelta(old(totalPartitionResource), delta.value)
    {
      if delta.Some? {
        if totalPartitionResource.None? {
          totalPartitionResource := delta;
        } else {
          totalPartitionResource := Some(Plus(totalPartitionResource.value, delta.value));
        }
        totalPartitionResource := Some(Pruned(totalPartitionResource.value));
      }
    }

    method AddToList(node: Node)
      requires Valid() && node.reservations == map[] && node.nodeID !in nodes
      modifies this`nodes
      ensures Valid() && nodes == old(nodes)[node.nodeID := node]
      ensures OnNodes() == old(OnNodes())[node.nodeID := map[]] && Capacities() == old(Capacities())[node.nodeID := node.totalResource]
    {
      hide AsksAgree;
      nodes := nodes[node.nodeID := node];
      assert OnNodes() == old(OnNodes())[node.nodeID := map[]];
    }

    /** Refused when the partition is stopped or already has a node of that ID. */
    method AddNode(node: Node) returns (added: bool)
      requires Valid() && node.reservations == map[]
      modifies this`nodes, this`totalPartitionResource
      ensures Valid() && added == (!stopped && node.nodeID !in old(nodes))
      ensures Capacity() == if stopped then old(Capacity()) else T.Next(old(Capacity()), T.NodeAdded(node.nodeID, node.totalResource))
      ensures Holdings() == if stopped then old(Holdings()) else R.Next(old(Holdings()), R.AddNode(node.nodeID))
    {
      hide T.WithDelta, AsksAgree, Listed, Reachable, OnNodes, OnApps, Capacities;
      NodesOf();
      if stopped || node.nodeID in nodes { return false; }
      AddToList(node);
      UpdatePartitionResource(Some(node.totalResource));
      return true;
    }

    /** Takes the node off the list once nobody reserves it. */
    method RemoveNodeFromList(node: Node)
      requires Listed() && AsksAgree() && node.nodeID in nodes && nodes[node.nodeID] == node
      requires forall a, k :: R.NodeOf(Holdings(), a, k) != Some(node.nodeID)
      requires Reachable()
      modifies this`nodes
      ensures Valid() && nodes == old(nodes) - {node.nodeID}
      ensures OnNodes() == old(OnNodes()) - {node.nodeID} && Capacities() == old(Capacities()) - {node.nodeID}
    {
      hide AsksAgree;
      NobodyReserves(node.nodeID);
      nodes := nodes - {node.nodeID};
      assert OnNodes() == old(OnNodes()) - {node.nodeID};
      assert Capacities() == old(Capacities()) - {node.nodeID};
    }

    lemma NobodyReserves(node: string)
      requires Listed() && Reachable() && forall a, k :: R.NodeOf(Holdings(), a, k) != Some(node)
      ensures forall id, k | id in applications && k in applications[id].reservations :: applications[id].reservations[k].nodeID != node
    {
      forall id, k | id in applications && k in applications[id].reservations
        ensures applications[id].reservations[k].nodeID != node
      {
        Recorded(applications[id], k);
      }
    }

    /** Releases all reservations of a node, takes it off the list and counts the releases. */
    method ReleaseNode(node: Node) returns (ghost todo: seq<(string, string)>)
      requires Valid() && R.Sound(Holdings()) && node.nodeID in nodes && nodes[node.nodeID] == node
      modifies this`nodes, this`reservations, applications.Values`reservations, nodes.Values`reservations
      ensures Valid() && Capacities() == old(Capacities()) - {node.nodeID}
      ensures R.Legal(old(Holdings()), R.RemoveNode(node.nodeID, todo))
      ensures Holdings() == R.Next(R.Next(old(Holdings()), R.RemoveNode(node.nodeID, todo)), R.Settle(|todo|))
    {
      hide R.Sound, R.Legal, R.Drop, R.DropAll, R.NodeOf, OnApps, OnNodes, Capacities, Listed, Reachable, AsksAgree;
      NodeKnown(node);
      var released;
      released, todo := DropMatching(node, false);
      R.AllOfNode(old(Holdings()), node.nodeID, todo);
      R.DropAllFrame(old(Holdings()), todo);
      RemoveNodeFromList(node);
      DecReservationCount(released);
    }

    /** The reservations of the node are released and counted out, and its capacity leaves the total. */
    method RemoveNode(nodeID: string) returns (node: Node?, ghost todo: seq<(string, string)>)
      requires Valid() && R.Sound(Holdings())
      modifies this`nodes, this`totalPartitionResource, this`reservations, applications.Values`reservations, nodes.Values`reservations
      ensures Valid() && node == if nodeID in old(nodes) then old(nodes)[nodeID] else null
      ensures Capacity() == T.Next(old(Capacity()), T.NodeRemoved(nodeID))
      ensures R.Legal(old(Holdings()), R.RemoveNode(nodeID, todo))
      ensures Holdings() == R.Next(R.Next(old(Holdings()), R.RemoveNode(nodeID, todo)), R.Settle(|todo|))
    {
      hide T.WithDelta, R.Sound, R.Legal, R.Next, OnApps, OnNodes, Capacities, Listed, Reachable, AsksAgree, Multiply;
      NodesOf();
      if nodeID !in nodes {
        R.UnlistedNode(Holdings(), nodeID);
        return null, [];
      }
      node := nodes[nodeID];
      NodeIDOf(nodeID);
      todo := RemoveListedNode(node);
    }

    method RemoveListedNode(node: Node) returns (ghost todo: seq<(string, string)>)
      requires Valid() && R.Sound(Holdings()) && node.nodeID in nodes && nodes[node.nodeID] == node
      modifies this`nodes, this`totalPartitionResource, this`reservations, applications.Values`reservations, nodes.Values`reservations
      ensures Valid() && Capacity() == T.Next(old(Capacity()), T.NodeRemoved(node.nodeID))
      ensures R.Legal(old(Holdings()), R.RemoveNode(node.nodeID, todo))
      ensures Holdings() == R.Next(R.Next(old(Holdings()), R.RemoveNode(node.nodeID, todo)), R.Settle(|todo|))
    {
      hide T.WithDelta, R.Sound, R.Legal, R.Next, OnApps, OnNodes, Capacities, Listed, Reachable, AsksAgree, Multiply;
      NodesOf();
      todo := ReleaseNode(node);
      UpdatePartitionResource(Some(Multiply(node.totalResource, -1)));
    }

    twostate lemma OneCapacityChanged(id: string)
      requires id in nodes && nodes == old(nodes)
      requires forall n | n in nodes && n != id :: nodes[n].totalResource == old(nodes[n].totalResource)
      ensures Capacities() == old(Capacities())[id := nodes[id].totalResource]
    {
    }

    lemma OthersDifferFrom(id: string)
      requires Listed() && id in nodes
      ensures forall n | n in nodes && n != id :: nodes[n] != nodes[id]
    {
    }

    /** The node computes the change of its capacity, the partition adds it. */
    method UpdateNodeCapacity(nodeID: string, capacity: Amounts)
      requires Valid()
      modifies this`totalPartitionResource, nodes.Values`totalResource, nodes.Values`availableResource
      ensures Valid() && Capacity() == T.Next(old(Capacity()), T.NodeResized(nodeID, capacity))
      ensures Holdings() == old(Holdings())
    {
      hide Plus, Minus, Pruned, Equals, Listed, Reachable, AsksAgree, OnApps, OnNodes, Capacities, T.WithDelta,
           Node.View;
      NodesOf();
      if nodeID in nodes {
        OthersDifferFrom(nodeID);
        var delta := nodes[nodeID].SetCapacity(capacity);
        OneCapacityChanged(nodeID);
        UpdatePartitionResource(delta);
      }
    }

    lemma NodesOf()
      ensures OnNodes().Keys == nodes.Keys && Capacities().Keys == nodes.Keys
      ensures forall id | id in nodes :: Capacities()[id] == nodes[id].totalResource
    {
    }

    lemma NodeIDOf(id: string)
      requires Valid() && id in nodes
      ensures nodes[id].nodeID == id
    {
    }
  }
}
