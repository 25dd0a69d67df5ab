/** internal/opcua/subscription.go as it is written: interval groups are objects
    whose maps change in place, and the manager's methods are its critical
    sections. Each is proved to compute the function of Subscriptions that the
    histories are made of. */
module SubscriptionManager {
  import opened Wrappers
  import opened Subscriptions

  class IntervalGroup {
    var refCount: int
    var route: map<Handle, NodeId>
    var handleOf: map<NodeId, Handle>
    var itemOf: map<NodeId, ItemId>
    ghost var live: map<ItemId, Handle>  // the server's side

    ghost function View(): Group
      reads this
    {
      Group(refCount, route, handleOf, itemOf, live)
    }

    constructor ()
      ensures View() == EmptyGroup
    {
      refCount, route, handleOf, itemOf, live := 0, map[], map[], map[], map[];
    }

    /** The loop over the server's results for requests that start after handle last. */
    method TakeIn(nodes: seq<NodeId>, last: Handle, results: seq<ItemResult>)
      returns (accepted: seq<NodeId>, rejected: seq<(NodeId, string)>)
      requires |results| <= |nodes|
      modifies this
      ensures View() == Admit(old(View()), nodes, last, results)
      ensures accepted == AcceptedNodes(nodes, results) && rejected == RejectedNodes(nodes, results)
    {
      accepted, rejected := [], [];
      for i := 0 to |results|
        invariant Admit(View(), nodes[i..], last + i, results[i..]) == Admit(old(View()), nodes, last, results)
        invariant accepted + AcceptedNodes(nodes[i..], results[i..]) == AcceptedNodes(nodes, results)
        invariant rejected + RejectedNodes(nodes[i..], results[i..]) == RejectedNodes(nodes, results)
      {
        assert nodes[i..][1..] == nodes[i + 1..] && results[i..][1..] == results[i + 1..];
        match results[i]
        case Rejected(status) =>
          rejected := rejected + [(nodes[i], status)];
        case Accepted(item) =>
          route := route[last + i + 1 := nodes[i]];
          handleOf := handleOf[nodes[i] := last + i + 1];
          itemOf := itemOf[nodes[i] := item];
          live := live[item := last + i + 1];
          accepted := accepted + [nodes[i]];
      }
    }

    method DropNode(node: NodeId) returns (item: Option<ItemId>)
      modifies this
      ensures View() == DropOne(old(View()), node)
      ensures item == if node in old(itemOf) then Some(old(itemOf)[node]) else None
    {
      item := if node in itemOf then Some(itemOf[node]) else None;
      if node in handleOf {
        route := route - {handleOf[node]};
      }
      handleOf := handleOf - {node};
      itemOf := itemOf - {node};
    }

    /** The loop of Unsubscribe over a record's nodes. */
    method DropNodes(nodes: seq<NodeId>) returns (items: seq<ItemId>)
      modifies this
      ensures View() == Drop(old(View()), nodes)
      ensures items == ToUnmonitor(old(itemOf), nodes)
    {
      items := [];
      for i := 0 to |nodes|
        invariant Drop(View(), nodes[i..]) == Drop(old(View()), nodes)
        invariant items + ToUnmonitor(View().itemOf, nodes[i..]) == ToUnmonitor(old(itemOf), nodes)
      {
        assert nodes[i..][1..] == nodes[i + 1..];
        var item := DropNode(nodes[i]);
        items := items + if item.Some? then [item.value] else [];
      }
    }

    /** Unmonitoring the dropped nodes' items and giving up one reference. */
    method Release(nodes: seq<NodeId>, removed: set<ItemId>)
      modifies this
      ensures View() == Released(old(View()), nodes, removed)
    {
      var items := DropNodes(nodes);
      live := live - (removed * (set i | i in items));
      refCount := refCount - 1;
    }
  }

  class SubscriptionManager {
    var subscriptions: map<SubscriptionId, Record>
    var groups: map<int, IntervalGroup>
    var nextHandle: Handle
    var intents: map<SubscriptionId, Record>  // the store's bucket
    ghost var issued: map<Handle, NodeId>

    /** No two intervals share a group object. */
    ghost predicate Valid()
      reads this
    {
      forall i, j | i in groups && j in groups && i != j :: groups[i] != groups[j]
    }

    ghost function View(): Manager
      reads this, groups.Values
    {
      Manager(subscriptions, map i | i in groups :: groups[i].View(), nextHandle, intents, issued)
    }

    constructor (persisted: map<SubscriptionId, Record>)
      ensures Valid() && View() == Manager(map[], map[], 0, persisted, map[])
    {
      subscriptions, groups, nextHandle, intents, issued := map[], map[], 0, persisted, map[];
    }

    /** Building the monitored item requests; stopped is the first node that does
        not parse. */
    method BuildRequests(nodes: seq<NodeId>) returns (stopped: nat)
      modifies this`nextHandle, this`issued
      ensures stopped == ParsedPrefix(nodes)
      ensures nextHandle == old(nextHandle) + stopped && issued == Issue(old(issued), old(nextHandle), nodes)
    {
      stopped := 0;
      while stopped < |nodes| && nodes[stopped].parses
        invariant stopped <= |nodes| && nextHandle == old(nextHandle) + stopped
        invariant ParsedPrefix(nodes) == stopped + ParsedPrefix(nodes[stopped..])
        invariant Issue(issued, nextHandle, nodes[stopped..]) == Issue(old(issued), old(nextHandle), nodes)
      {
        assert nodes[stopped..][1..] == nodes[stopped + 1..];
        nextHandle := nextHandle + 1;
        issued := issued[nextHandle := nodes[stopped]];
        stopped := stopped + 1;
      }
    }

    method Open(interval: int, subscribeOk: bool) returns (group: Option<IntervalGroup>)
      requires Valid()
      modifies this`groups
      ensures Valid() && fresh(groups.Values - old(groups.Values))
      ensures group.None? <==> interval !in old(groups) && !subscribeOk
      ensures group.None? ==> groups == old(groups)
      ensures group.Some? ==> interval in groups && groups[interval] == group.value
      ensures var v := old(View());
              group.Some? ==> View() == v.(groups := v.groups[interval := OpenGroup(v, interval)])
    {
      if interval in groups {
        assert View().groups == View().groups[interval := OpenGroup(View(), interval)];
        return Some(groups[interval]);
      }
      if !subscribeOk {
        return None;
      }
      var created := new IntervalGroup();
      groups := groups[interval := created];
      assert View().groups == old(View()).groups[interval := EmptyGroup];
      return Some(created);
    }

    /** The server took none of the nodes: a group nobody references goes. */
    method DropIfUnused(interval: int)
      requires Valid() && interval in groups
      modifies this`groups
      ensures Valid() && groups.Values <= old(groups.Values)
      ensures var v := old(View());
              View() == v.(groups := if v.groups[interval].refCount == 0 then v.groups - {interval} else v.groups)
    {
      if groups[interval].refCount == 0 {
        groups := groups - {interval};
        assert View().groups == old(View()).groups - {interval};
      }
    }

    /** The server took some of them: record, count and persist the subscription. */
    method Keep(record: Record, putOk: bool)
      requires Valid() && record.interval in groups
      modifies this`subscriptions, this`intents, groups[record.interval]
      ensures Valid()
      ensures var (v, g) := (old(View()), old(View()).groups[record.interval]);
              View() == v.(groups := v.groups[record.interval := g.(refCount := g.refCount + 1)],
                           subs := v.subs[record.id := record],
                           intents := if putOk then v.intents[record.id := record] else v.intents)
    {
      Retain(record.interval);
      Enter(record, putOk);
    }

    method Retain(interval: int)
      requires Valid() && interval in groups
      modifies groups[interval]
      ensures Valid()
      ensures var g := old(View()).groups[interval];
              View() == old(View()).(groups := old(View()).groups[interval := g.(refCount := g.refCount + 1)])
    {
      var group := groups[interval];
      group.refCount := group.refCount + 1;
      assert forall i | i in groups && i != interval :: groups[i] != group;
      assert View().groups == old(View()).groups[interval := group.View()];
    }

    /** Putting the record on the books. */
    method Enter(record: Record, putOk: bool)
      requires Valid()
      modifies this`subscriptions, this`intents
      ensures Valid()
      ensures var v := old(View());
              View() == v.(subs := v.subs[record.id := record],
                           intents := if putOk then v.intents[record.id := record] else v.intents)
    {
      subscriptions := subscriptions[record.id := record];
      if putOk {
        intents := intents[record.id := record];
      }
      assert View().groups == old(View()).groups;
    }

    /** The rest of subscribeInternal once the server has answered Monitor. */
    method Finish(id: SubscriptionId, nodes: seq<NodeId>, interval: int, createdAt: int, last: Handle, reply: Reply)
      returns (outcome: Outcome, rejected: seq<(NodeId, string)>)
      requires Valid() && interval in groups && |reply.results| <= |nodes|
      modifies this`groups, this`subscriptions, this`intents, groups.Values
      ensures Valid() && groups.Values <= old(groups.Values)
      ensures (View(), outcome) == Commit(old(View()), Admit(old(View()).groups[interval], nodes, last, reply.results),
                                          Record(id, AcceptedNodes(nodes, reply.results), interval, createdAt),
                                          reply.putOk)
      ensures rejected == RejectedNodes(nodes, reply.results)
    {
      var group := groups[interval];
      var accepted;
      accepted, rejected := group.TakeIn(nodes, last, reply.results);
      assert forall i | i in groups && i != interval :: groups[i] != group;
      ghost var g := group.View();
      ghost var before := old(View()).groups;
      assert View().groups == before[interval := g];
      assert before[interval := g] - {interval} == before - {interval};
      assert before[interval := g][interval := g.(refCount := g.refCount + 1)]
             == before[interval := g.(refCount := g.refCount + 1)];
      if accepted == [] {
        DropIfUnused(interval);
        outcome := NoneAccepted;
      } else {
        Keep(Record(id, accepted, interval, createdAt), reply.putOk);
        outcome := if reply.putOk then Done else PersistFailed;
      }
    }

    /** subscribeInternal; reply is what the server and the store answer. */
    method Subscribe(id: SubscriptionId, nodes: seq<NodeId>, interval: int, createdAt: int, reply: Reply)
      returns (outcome: Outcome, rejected: seq<(NodeId, string)>)
      requires Valid() && Serves(View(), nodes, interval, reply)
      modifies this, groups.Values
      ensures Valid() && fresh(groups.Values - old(groups.Values))
      ensures (View(), outcome) == Subscriptions.Subscribe(old(View()), id, nodes, interval, createdAt, reply)
      ensures rejected == if outcome.NotCreated? || outcome.BadNode? || outcome.MonitorFailed? then []
                          else RejectedNodes(nodes, reply.results)
    {
      var found := Open(interval, reply.subscribeOk);
      if found.None? {
        return NotCreated, [];
      }
      var last := nextHandle;
      var stopped := BuildRequests(nodes);
      assert View() == Asked(old(View()), nodes, interval);
      if stopped < |nodes| {
        return BadNode(stopped), [];
      }
      if !reply.monitorOk {
        return MonitorFailed, [];
      }
      outcome, rejected := Finish(id, nodes, interval, createdAt, last, reply);
    }

    /** Taking a record's nodes out of its group, and the group out if that was
        its last reference. */
    method GiveUp(record: Record, removed: set<ItemId>)
      requires Valid() && record.interval in groups
      modifies this`groups, groups.Values
      ensures Valid() && groups.Values <= old(groups.Values)
      ensures var g := Released(old(View()).groups[record.interval], record.nodes, removed);
              View() == old(View()).(groups := if g.refCount <= 0 then old(View()).groups - {record.interval}
                                               else old(View()).groups[record.interval := g])
    {
      var group := groups[record.interval];
      group.Release(record.nodes, removed);
      assert forall i | i in groups && i != record.interval :: groups[i] != group;
      assert View().groups == old(View()).groups[record.interval := group.View()];
      if group.refCount <= 0 {
        groups := groups - {record.interval};
        assert View().groups == old(View()).groups - {record.interval};
      }
    }

    /** removed is what the server removes of the items it is asked to; deleteOk,
        whether the store deletes the intent. */
    method Unsubscribe(id: SubscriptionId, removed: set<ItemId>, deleteOk: bool) returns (found: bool)
      requires Valid()
      modifies this, groups.Values
      ensures Valid() && groups.Values <= old(groups.Values)
      ensures found <==> Subscriptions.Unsubscribe(old(View()), id, removed, deleteOk).Some?
      ensures View() == if found then Subscriptions.Unsubscribe(old(View()), id, removed, deleteOk).value
                        else old(View())
    {
      if id !in subscriptions {
        return false;
      }
      var record := subscriptions[id];
      if record.interval in groups {
        GiveUp(record, removed);
      }
      Forget(id, deleteOk);
      return true;
    }

    /** Taking the record off the books. */
    method Forget(id: SubscriptionId, deleteOk: bool)
      requires Valid()
      modifies this`subscriptions, this`intents
      ensures Valid()
      ensures View() == old(View()).(subs := old(View()).subs - {id},
                                     intents := if deleteOk then old(View()).intents - {id} else old(View()).intents)
    {
      subscriptions := subscriptions - {id};
      if deleteOk {
        intents := intents - {id};
      }
      assert View().groups == old(View()).groups;
    }

    /** The critical section that discards the in-memory state. */
    method Discard()
      modifies this`subscriptions, this`groups
      ensures Valid() && groups == map[] && View() == Reset(old(View()))
    {
      subscriptions, groups := map[], map[];
      assert View().groups == map[];
    }

    /** restoreFromIntent with no other call in between: order is how the store
        lists the intents. */
    method RestoreFromIntent(order: seq<Record>, replies: seq<Reply>)
      requires Valid() && |replies| == |order| && Lists(order, intents) && ServesAll(Reset(View()), order, replies)
      modifies this, groups.Values
      ensures Valid() && fresh(groups.Values - old(groups.Values))
      ensures View() == RestoreAll(Reset(old(View())), order, replies)
    {
      Discard();
      for k := 0 to |order|
        invariant Valid() && fresh(groups.Values - old(groups.Values))
        invariant ServesAll(View(), order[k..], replies[k..])
        invariant RestoreAll(View(), order[k..], replies[k..]) == RestoreAll(Reset(old(View())), order, replies)
      {
        assert order[k..][1..] == order[k + 1..] && replies[k..][1..] == replies[k + 1..];
        var _, _ := Subscribe(order[k].id, order[k].nodes, order[k].interval, order[k].createdAt, replies[k]);
      }
    }

    /** lookupNodeIDLocked: groups are searched in no particular order. */
    method LookupNodeID(handle: Handle) returns (node: Option<NodeId>)
      ensures node.Some? ==> RoutesTo(View(), handle, node.value)
      ensures node.None? ==> Unrouted(View(), handle)
    {
      var todo := groups.Keys;
      while exists i :: i in todo
        invariant todo <= groups.Keys
        invariant forall i | i in groups && i !in todo :: handle !in groups[i].route
        decreases todo
      {
        var i :| i in todo;
        if handle in groups[i].route {
          assert View().groups[i].route[handle] == groups[i].route[handle];
          return Some(groups[i].route[handle]);
        }
        todo := todo - {i};
      }
      return None;
    }
  }
}
