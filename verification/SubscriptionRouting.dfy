/** What Subscribe and Unsubscribe do to routing, exactly: which handles begin to
    route, which cease to, and when a node nobody names any more is silent. */
module SubscriptionRouting {
  import opened Wrappers
  import opened Sums
  import opened Subscriptions
  import opened SubscriptionProofs
  import opened SubscriptionRuns
  import opened SubscriptionHistory
  import opened SubscriptionRestore
  import Return = SubscriptionReturn
  import Pump = NotificationPump

  // ---- Taking items in --------------------------------------------------------

  /** The k-th request was accepted; requests start at handle last + 1. */
  predicate Won(results: seq<ItemResult>, k: int) { 0 <= k < |results| && results[k].Accepted? }

  function Rank(last: Handle, h: Handle): int { h - last - 1 }

  /** No later request for the same node was accepted. */
  predicate LastWon(nodes: seq<NodeId>, results: seq<ItemResult>, k: nat)
    requires |results| <= |nodes|
  {
    Won(results, k) && forall x | k < x < |results| && results[x].Accepted? :: nodes[x] != nodes[k]
  }

  /** The handles of exactly the accepted requests begin to route, each to the node
      it was requested for. */
  lemma {:induction false} AdmitRoutes(g: Group, nodes: seq<NodeId>, last: Handle, results: seq<ItemResult>, h: Handle)
    requires |results| <= |nodes|
    ensures var g' := Admit(g, nodes, last, results);
            && (h in g'.route <==> h in g.route || Won(results, Rank(last, h)))
            && (h in g'.route ==>
                  g'.route[h] == if Won(results, Rank(last, h)) then nodes[Rank(last, h)] else g.route[h])
    decreases |results|
  {
    if results != [] {
      AdmitRoutes(AdmitOne(g, nodes[0], last + 1, results[0]), nodes[1..], last + 1, results[1..], h);
      var k := Rank(last, h);
      assert 0 < k < |results| ==> results[1..][k - 1] == results[k] && nodes[1..][k - 1] == nodes[k];
    }
  }

  /** Exactly the accepted items are monitored now, too. */
  lemma {:induction false} AdmitItems(g: Group, nodes: seq<NodeId>, last: Handle, results: seq<ItemResult>,
                                      item: ItemId)
    requires |results| <= |nodes|
    ensures item in Admit(g, nodes, last, results).live
            <==> item in g.live || exists k | 0 <= k < |results| :: results[k] == Accepted(item)
    decreases |results|
  {
    if results != [] {
      AdmitItems(AdmitOne(g, nodes[0], last + 1, results[0]), nodes[1..], last + 1, results[1..], item);
      assert forall k | 0 <= k < |results[1..]| :: results[1..][k] == results[k + 1];
      assert forall k | 0 < k < |results| :: results[k] == results[1..][k - 1];
    }
  }

  /** The reverse maps name the last accepted request of each node, and are as they
      were for a node with none. */
  lemma {:induction false} AdmitNames(g: Group, nodes: seq<NodeId>, last: Handle, results: seq<ItemResult>, k: nat)
    requires |results| <= |nodes| && LastWon(nodes, results, k)
    ensures var g' := Admit(g, nodes, last, results);
            && nodes[k] in g'.handleOf && g'.handleOf[nodes[k]] == last + 1 + k
            && nodes[k] in g'.itemOf && g'.itemOf[nodes[k]] == results[k].item
    decreases |results|
  {
    var g1 := AdmitOne(g, nodes[0], last + 1, results[0]);
    assert forall x | 0 <= x < |results[1..]| :: results[1..][x] == results[x + 1] && nodes[1..][x] == nodes[x + 1];
    if k > 0 {
      AdmitNames(g1, nodes[1..], last + 1, results[1..], k - 1);
    } else {
      AdmitSpares(g1, nodes[1..], last + 1, results[1..], nodes[0]);
    }
  }

  lemma {:induction false} AdmitSpares(g: Group, nodes: seq<NodeId>, last: Handle, results: seq<ItemResult>, n: NodeId)
    requires |results| <= |nodes| && forall x | 0 <= x < |results| && results[x].Accepted? :: nodes[x] != n
    ensures var g' := Admit(g, nodes, last, results);
            && (n in g'.handleOf <==> n in g.handleOf) && (n in g.handleOf ==> g'.handleOf[n] == g.handleOf[n])
            && (n in g'.itemOf <==> n in g.itemOf) && (n in g.itemOf ==> g'.itemOf[n] == g.itemOf[n])
    decreases |results|
  {
    if results != [] {
      assert forall x | 0 <= x < |results[1..]| :: results[1..][x] == results[x + 1] && nodes[1..][x] == nodes[x + 1];
      AdmitSpares(AdmitOne(g, nodes[0], last + 1, results[0]), nodes[1..], last + 1, results[1..], n);
    }
  }

  // ---- Dropping a record's nodes ----------------------------------------------

  lemma {:induction false} DropShrinks(g: Group, nodes: seq<NodeId>, h: Handle)
    requires h !in g.route
    ensures h !in Drop(g, nodes).route
    decreases |nodes|
  {
    if nodes != [] { DropShrinks(DropOne(g, nodes[0]), nodes[1..], h); }
  }

  /** The handle the reverse map names for a dropped node ceases to route. */
  lemma {:induction false} DropEnds(g: Group, nodes: seq<NodeId>, n: NodeId)
    requires n in nodes && n in g.handleOf
    ensures g.handleOf[n] !in Drop(g, nodes).route
    decreases |nodes|
  {
    var g1 := DropOne(g, nodes[0]);
    if nodes[0] == n {
      DropShrinks(g1, nodes[1..], g.handleOf[n]);
    } else {
      DropEnds(g1, nodes[1..], n);
    }
  }

  /** h is what the reverse map names for one of the nodes. */
  predicate Named(g: Group, nodes: seq<NodeId>, h: Handle) {
    h in g.route && g.route[h] in nodes && g.route[h] in g.handleOf && g.handleOf[g.route[h]] == h
  }

  /** What is left of a group an Unsubscribe drops nodes from: exactly the routes of
      handles it does not name, the reverse entries of other nodes, and the items
      the server was not asked to remove or did not. */
  lemma ReleasedExactly(g: Group, nodes: seq<NodeId>, removed: set<ItemId>)
    requires GroupOk(g)
    ensures var g' := Released(g, nodes, removed);
            && g'.refCount == g.refCount - 1
            && (forall h :: h in g'.route <==> h in g.route && !Named(g, nodes, h))
            && (forall h | h in g'.route :: g'.route[h] == g.route[h])
            && (forall n :: n in g'.handleOf <==> n in g.handleOf && n !in nodes)
            && (forall n :: n in g'.itemOf <==> n in g.itemOf && n !in nodes)
            && (forall n | n in g'.handleOf :: g'.handleOf[n] == g.handleOf[n])
            && (forall n | n in g'.itemOf :: g'.itemOf[n] == g.itemOf[n])
            && (forall i :: i in g'.live <==> i in g.live && !(i in removed && AskedFor(g, nodes, i)))
            && (forall i | i in g'.live :: g'.live[i] == g.live[i])
  {
    DropShape(g, nodes);
    var g' := Released(g, nodes, removed);
    forall h ensures h in g'.route <==> h in g.route && !Named(g, nodes, h) {
      if Named(g, nodes, h) { DropEnds(g, nodes, g.route[h]); }
    }
    forall i ensures i in g'.live <==> i in g.live && !(i in removed && AskedFor(g, nodes, i)) {
      UnmonitorShape(g.itemOf, nodes, i);
    }
  }

  /** The server was asked to stop monitoring item i. */
  predicate AskedFor(g: Group, nodes: seq<NodeId>, i: ItemId) {
    exists n | n in g.itemOf :: n in nodes && g.itemOf[n] == i
  }

  // ---- Unsubscribe ------------------------------------------------------------

  /** The interval's group after an Unsubscribe: released, or gone with its last
      reference; no other group changes. */
  lemma UnsubscribeGroups(m: Manager, id: SubscriptionId, removed: set<ItemId>, deleteOk: bool)
    requires Inv(m) && id in m.subs
    ensures var (m', r) := (Unsubscribe(m, id, removed, deleteOk).value, m.subs[id]);
            && r.interval in m.groups
            && (r.interval in m'.groups <==> m.groups[r.interval].refCount > 1)
            && (r.interval in m'.groups ==> m'.groups[r.interval] == Released(m.groups[r.interval], r.nodes, removed))
            && (forall i | i != r.interval :: i in m'.groups <==> i in m.groups)
            && (forall i | i in m.groups && i != r.interval :: m'.groups[i] == m.groups[i])
            && m'.subs == m.subs - {id} && m'.intents == (if deleteOk then m.intents - {id} else m.intents)
            && m'.nextHandle == m.nextHandle && m'.issued == m.issued
  {
    var r := m.subs[id];
    SumSplit(m.subs, id, AtInterval(r.interval));
    assert Records(m, r.interval) <= RefCount(m, r.interval);
    ReleasedExactly(m.groups[r.interval], r.nodes, removed);
  }

  /** The handle through which an unsubscribed node was addressed stops routing. */
  lemma UnsubscribeEndsRouting(m: Manager, id: SubscriptionId, removed: set<ItemId>, deleteOk: bool, n: NodeId)
    requires Inv(m) && id in m.subs && m.subs[id].interval in m.groups
    requires n in m.subs[id].nodes && n in m.groups[m.subs[id].interval].handleOf
    ensures Unrouted(Unsubscribe(m, id, removed, deleteOk).value, m.groups[m.subs[id].interval].handleOf[n])
  {
    var r := m.subs[id];
    var g := m.groups[r.interval];
    UnsubscribeGroups(m, id, removed, deleteOk);
    ReleasedExactly(g, r.nodes, removed);
    var (m', h) := (Unsubscribe(m, id, removed, deleteOk).value, g.handleOf[n]);
    assert GroupOk(g) && Named(g, r.nodes, h);
    forall i | i in m'.groups ensures h !in m'.groups[i].route {
      if i != r.interval { assert m'.groups[i] == m.groups[i] && h in g.route; }
    }
  }

  lemma NamedIsIssued(m: Manager, interval: int, n: NodeId)
    requires Inv(m) && interval in m.groups && n in m.groups[interval].handleOf
    ensures m.groups[interval].handleOf[n] <= m.nextHandle
  {
    assert GroupOk(m.groups[interval]);
    assert m.groups[interval].handleOf[n] in m.groups[interval].route;
    assert m.groups[interval].handleOf[n] in m.issued;
  }

  /** And never routes again, whatever happens afterwards. */
  lemma RoutingStaysEnded(s: System, id: SubscriptionId, removed: set<ItemId>, deleteOk: bool, n: NodeId,
                          ls: seq<Label>, t: System)
    requires Inv(s.m) && id in s.m.subs && s.m.subs[id].interval in s.m.groups
    requires n in s.m.subs[id].nodes && n in s.m.groups[s.m.subs[id].interval].handleOf
    requires Runs(Apply(s, DoUnsubscribe(id, removed, deleteOk)), ls, t)
    ensures Unrouted(t.m, s.m.groups[s.m.subs[id].interval].handleOf[n])
  {
    var l := DoUnsubscribe(id, removed, deleteOk);
    StepKeeps(s, l);
    UnsubscribeEndsRouting(s.m, id, removed, deleteOk, n);
    RunAdvances(Apply(s, l), ls, t);
    NamedIsIssued(s.m, s.m.subs[id].interval, n);
    UnsubscribeGroups(s.m, id, removed, deleteOk);
  }

  /** A handle it does not name goes on routing, as long as the group stays. */
  lemma StaysRouted(m: Manager, id: SubscriptionId, removed: set<ItemId>, deleteOk: bool, h: Handle)
    requires Inv(m) && id in m.subs && m.subs[id].interval in m.groups && m.groups[m.subs[id].interval].refCount > 1
    requires var g := m.groups[m.subs[id].interval]; h in g.route && !Named(g, m.subs[id].nodes, h)
    ensures RoutesTo(Unsubscribe(m, id, removed, deleteOk).value, h, m.groups[m.subs[id].interval].route[h])
  {
    var r := m.subs[id];
    UnsubscribeGroups(m, id, removed, deleteOk);
    ReleasedExactly(m.groups[r.interval], r.nodes, removed);
    assert h in Unsubscribe(m, id, removed, deleteOk).value.groups[r.interval].route;
  }

  /** Every handle that routes to one of the nodes is the one the reverse map names. */
  predicate OneHandleEach(g: Group, nodes: seq<NodeId>) {
    forall h | h in g.route && g.route[h] in nodes :: Named(g, nodes, h)
  }

  predicate RoutesNone(m: Manager, interval: int, nodes: seq<NodeId>) {
    interval in m.groups ==> forall h | h in m.groups[interval].route :: m.groups[interval].route[h] !in nodes
  }

  /** Unsubscribe leaves nothing routed to the record's nodes at its interval exactly
      when the group goes with it, or no node had a handle the reverse map has
      forgotten, as it has after a second request for the node. */
  lemma UnroutesAllIff(m: Manager, id: SubscriptionId, removed: set<ItemId>, deleteOk: bool)
    requires Inv(m) && id in m.subs
    ensures var r := m.subs[id];
            && r.interval in m.groups
            && (RoutesNone(Unsubscribe(m, id, removed, deleteOk).value, r.interval, r.nodes)
                <==> m.groups[r.interval].refCount <= 1 || OneHandleEach(m.groups[r.interval], r.nodes))
  {
    UnsubscribeGroups(m, id, removed, deleteOk);
    ReleasedExactly(m.groups[m.subs[id].interval], m.subs[id].nodes, removed);
  }

  // ---- Nodes requested once ---------------------------------------------------

  predicate NoRepeats(nodes: seq<NodeId>) { forall i, j | 0 <= i < j < |nodes| :: nodes[i] != nodes[j] }

  predicate NamedAt(m: Manager, interval: int, n: NodeId) {
    exists id | id in m.subs :: m.subs[id].interval == interval && n in m.subs[id].nodes
  }

  /** A request that names no node twice and none that a record at its interval
      names already. */
  predicate Once(m: Manager, id: SubscriptionId, nodes: seq<NodeId>, interval: int) {
    id !in m.subs && NoRepeats(nodes) && forall n | n in nodes :: !NamedAt(m, interval, n)
  }

  /** A run all of whose requests are such. */
  ghost predicate OnceEach(s: System, ls: seq<Label>)
    decreases |ls|
  {
    ls == [] ||
    (&& Enabled(s, ls[0])
     && (ls[0].DoSubscribe? ==> Once(s.m, ls[0].id, ls[0].nodes, ls[0].interval))
     && (ls[0].DoRestoreOne? ==>
           var r := s.restores[ls[0].thread].rest[0]; Once(s.m, r.id, r.nodes, r.interval))
     && OnceEach(Apply(s, ls[0]), ls[1..]))
  }

  /** Every handle that routes is the one its node is known by, and a record names
      that node. */
  predicate Tight(m: Manager) {
    forall i, h | i in m.groups && h in m.groups[i].route :: TightAt(m, i, h)
  }

  predicate TightAt(m: Manager, i: int, h: Handle)
    requires i in m.groups && h in m.groups[i].route
  {
    var (g, n) := (m.groups[i], m.groups[i].route[h]);
    n in g.handleOf && g.handleOf[n] == h && NamedAt(m, i, n)
  }

  lemma {:induction false} AcceptedIn(nodes: seq<NodeId>, results: seq<ItemResult>, k: nat)
    requires |results| <= |nodes| && Won(results, k)
    ensures nodes[k] in AcceptedNodes(nodes, results)
    decreases |results|
  {
    if k > 0 {
      AcceptedIn(nodes[1..], results[1..], k - 1);
    }
  }

  /** A group that has taken in a request made once. */
  lemma AdmitIsTight(m: Manager, nodes: seq<NodeId>, interval: int, last: Handle, results: seq<ItemResult>, h: Handle)
    requires Tight(m) && |results| <= |nodes| && NoRepeats(nodes) && forall n | n in nodes :: !NamedAt(m, interval, n)
    requires h in Admit(OpenGroup(m, interval), nodes, last, results).route
    ensures var g' := Admit(OpenGroup(m, interval), nodes, last, results);
            var n := g'.route[h];
            && n in g'.handleOf && g'.handleOf[n] == h
            && (n in AcceptedNodes(nodes, results) || NamedAt(m, interval, n))
  {
    var g := OpenGroup(m, interval);
    var k := Rank(last, h);
    AdmitRoutes(g, nodes, last, results, h);
    if Won(results, k) {
      assert LastWon(nodes, results, k);
      AdmitNames(g, nodes, last, results, k);
      AcceptedIn(nodes, results, k);
    } else {
      assert TightAt(m, interval, h);
      AdmitSpares(g, nodes, last, results, g.route[h]);
    }
  }

  lemma SubscribeIsTight(m: Manager, id: SubscriptionId, nodes: seq<NodeId>, interval: int, createdAt: int, r: Reply)
    requires Tight(m) && Serves(m, nodes, interval, r) && Once(m, id, nodes, interval)
    ensures Tight(Subscribe(m, id, nodes, interval, createdAt, r).0)
  {
    var (m', o) := Subscribe(m, id, nodes, interval, createdAt, r);
    SubscribeOutcome(m, id, nodes, interval, createdAt, r);
    forall i, h | i in m'.groups && h in m'.groups[i].route ensures TightAt(m', i, h) {
      SubscribedGroup(m, id, nodes, interval, createdAt, r, i);
      if i == interval && Reaches(m, nodes, interval, r) {
        AdmitIsTight(m, nodes, interval, m.nextHandle, r.results, h);
        var n := m'.groups[i].route[h];
        if n in AcceptedNodes(nodes, r.results) {
          assert TakenIn(o) && m'.subs[id].interval == i;
        } else {
          NamedLater(m, m', i, n);
        }
      } else {
        assert TightAt(m, i, h);
        NamedLater(m, m', i, m.groups[i].route[h]);
      }
    }
  }

  /** The server's results are reached. */
  predicate Reaches(m: Manager, nodes: seq<NodeId>, interval: int, r: Reply) {
    (interval in m.groups || r.subscribeOk) && ParsedPrefix(nodes) == |nodes| && r.monitorOk
  }

  lemma SubscribedGroup(m: Manager, id: SubscriptionId, nodes: seq<NodeId>, interval: int, createdAt: int, r: Reply,
                        i: int)
    requires Serves(m, nodes, interval, r) && i in Subscribe(m, id, nodes, interval, createdAt, r).0.groups
    ensures var g' := Subscribe(m, id, nodes, interval, createdAt, r).0.groups[i];
            if i != interval then i in m.groups && g' == m.groups[i]
            else
              var g := if !Reaches(m, nodes, interval, r) then OpenGroup(m, interval)
                       else Admit(OpenGroup(m, interval), nodes, m.nextHandle, r.results);
              g'.route == g.route && g'.handleOf == g.handleOf && g'.itemOf == g.itemOf && g'.live == g.live
  {
  }

  lemma NamedLater(m: Manager, m': Manager, interval: int, n: NodeId)
    requires NamedAt(m, interval, n) && forall id | id in m.subs :: id in m'.subs && m'.subs[id] == m.subs[id]
    ensures NamedAt(m', interval, n)
  {
    var id :| id in m.subs && m.subs[id].interval == interval && n in m.subs[id].nodes;
    assert m'.subs[id] == m.subs[id];
  }

  lemma ReleasedIsTight(m: Manager, id: SubscriptionId, removed: set<ItemId>, h: Handle)
    requires Tight(m) && id in m.subs && m.subs[id].interval in m.groups && GroupOk(m.groups[m.subs[id].interval])
    requires h in Released(m.groups[m.subs[id].interval], m.subs[id].nodes, removed).route
    ensures var (i, g') := (m.subs[id].interval, Released(m.groups[m.subs[id].interval], m.subs[id].nodes, removed));
            var n := g'.route[h];
            n in g'.handleOf && g'.handleOf[n] == h && n !in m.subs[id].nodes && NamedAt(m, i, n)
  {
    var (i, g) := (m.subs[id].interval, m.groups[m.subs[id].interval]);
    ReleasedExactly(g, m.subs[id].nodes, removed);
    assert h in g.route && !Named(g, m.subs[id].nodes, h);
    assert TightAt(m, i, h);
  }

  /** Another record names the node, if this one does not. */
  lemma NamedByAnother(m: Manager, m': Manager, id: SubscriptionId, interval: int, n: NodeId)
    requires NamedAt(m, interval, n) && m'.subs == m.subs - {id}
    requires id in m.subs ==> m.subs[id].interval != interval || n !in m.subs[id].nodes
    ensures NamedAt(m', interval, n)
  {
    var k :| k in m.subs && m.subs[k].interval == interval && n in m.subs[k].nodes;
    assert k in m'.subs && m'.subs[k] == m.subs[k];
  }

  lemma UnsubscribeIsTight(m: Manager, id: SubscriptionId, removed: set<ItemId>, deleteOk: bool)
    requires Inv(m) && Tight(m) && id in m.subs
    ensures Tight(Unsubscribe(m, id, removed, deleteOk).value)
  {
    var (m', r) := (Unsubscribe(m, id, removed, deleteOk).value, m.subs[id]);
    UnsubscribeGroups(m, id, removed, deleteOk);
    forall i, h | i in m'.groups && h in m'.groups[i].route ensures TightAt(m', i, h) {
      if i == r.interval {
        ReleasedIsTight(m, id, removed, h);
      } else {
        assert TightAt(m, i, h);
      }
      NamedByAnother(m, m', id, i, m'.groups[i].route[h]);
    }
  }

  lemma StepIsTight(s: System, l: Label)
    requires Inv(s.m) && Tight(s.m) && Enabled(s, l) && OnceEach(s, [l])
    ensures Tight(Apply(s, l).m)
  {
    match l
    case DoSubscribe(id, nodes, interval, createdAt, reply) =>
      SubscribeIsTight(s.m, id, nodes, interval, createdAt, reply);
    case DoUnsubscribe(id, removed, deleteOk) => UnsubscribeIsTight(s.m, id, removed, deleteOk);
    case DoRestoreOne(t, reply) =>
      var r := s.restores[t].rest[0];
      SubscribeIsTight(s.m, r.id, r.nodes, r.interval, r.createdAt, reply);
    case _ =>
  }

  lemma {:induction false} RunIsTight(s: System, ls: seq<Label>, t: System)
    requires Inv(s.m) && Tight(s.m) && Runs(s, ls, t) && OnceEach(s, ls)
    ensures Inv(t.m) && Tight(t.m)
    decreases |ls|
  {
    if ls != [] {
      assert OnceEach(Apply(s, ls[0]), []) && [ls[0]][1..] == [];
      StepIsTight(s, ls[0]);
      StepKeeps(s, ls[0]);
      RunIsTight(Apply(s, ls[0]), ls[1..], t);
    }
  }

  ghost predicate RoutedAt(m: Manager, interval: int, n: NodeId) {
    interval in m.groups && exists h | h in m.groups[interval].route :: m.groups[interval].route[h] == n
  }

  /** Over every history in which no node is requested twice at one interval: a node
      is routed at an interval exactly while a record there names it. */
  lemma RoutedIffNamed(s: System, ls: seq<Label>, t: System, interval: int, n: NodeId)
    requires Inv(s.m) && Tight(s.m) && Runs(s, ls, t) && OnceEach(s, ls)
    ensures RoutedAt(t.m, interval, n) <==> NamedAt(t.m, interval, n)
  {
    RunIsTight(s, ls, t);
    if RoutedAt(t.m, interval, n) {
      var h :| h in t.m.groups[interval].route && t.m.groups[interval].route[h] == n;
      assert TightAt(t.m, interval, h);
    }
    if NamedAt(t.m, interval, n) {
      var id :| id in t.m.subs && t.m.subs[id].interval == interval && n in t.m.subs[id].nodes;
      SumSplit(t.m.subs, id, AtInterval(interval));
      assert Records(t.m, interval) <= RefCount(t.m, interval);
      SumSplit(t.m.subs, id, HoldsNode(interval, n));
      assert Occurrences(t.m, interval, n) <= |Covered(t.m.groups[interval], n)|;
      assert Covered(t.m.groups[interval], n) != {};
      var h :| h in Covered(t.m.groups[interval], n);
    }
  }

  /** Then the pump brings nothing for a node that no record names. */
  lemma UnnamedNodesAreSilent<V>(s: System, ls: seq<Label>, t: System, item: Pump.Item<V>, n: NodeId)
    requires Inv(s.m) && Tight(s.m) && Runs(s, ls, t) && OnceEach(s, ls)
    requires forall interval :: !NamedAt(t.m, interval, n)
    ensures forall u | u in Pump.Update(t.m, item) :: u.0 != n
  {
    if RoutesTo(t.m, item.handle, n) {
      var i :| i in t.m.groups && item.handle in t.m.groups[i].route && t.m.groups[i].route[item.handle] == n;
      RoutedIffNamed(s, ls, t, i, n);
    }
  }

  // ---- A node requested twice -------------------------------------------------

  const Both := Reply(true, true, [Accepted(0), Accepted(1)], true)
  const Another := Reply(true, true, [Accepted(2)], true)

  /** One subscription names a node twice. */
  lemma RequestedTwice(n: NodeId) returns (s: System)
    requires n.parses
    ensures Return.Reached(s) && s.m.subs == map[0 := Record(0, [n, n], 100, 0)] && s.m.nextHandle == 2
    ensures s.restores == map[] && s.usedIds == {0} && 100 in s.m.groups
    ensures var g := s.m.groups[100];
            && g.refCount == 1 && 1 in g.route && g.route[1] == n
            && n in g.handleOf && g.handleOf[n] == 2 && 2 !in g.live
  {
    s := Initially(map[]);
    assert Runs(s, [], s);
    ParsesFully([n, n]);
    AcceptsEverything([n, n], Both.results);
    SubscribeOutcome(s.m, 0, [n, n], 100, 0, Both);
    AdmitRoutes(EmptyGroup, [n, n], 0, Both.results, 1);
    AdmitNames(EmptyGroup, [n, n], 0, Both.results, 1);
    AdmitItems(EmptyGroup, [n, n], 0, Both.results, 2);
    AdmitRefCount(EmptyGroup, [n, n], 0, Both.results);
    s := Return.Reach(s, DoSubscribe(0, [n, n], 100, 0, Both));
  }

  /** And another keeps the group. */
  lemma NamedTwice(n: NodeId, k: NodeId) returns (s: System)
    requires n.parses && k.parses && n != k
    ensures Return.Reached(s) && s.m.subs == map[0 := Record(0, [n, n], 100, 0), 1 := Record(1, [k], 100, 0)]
    ensures 100 in s.m.groups
    ensures var g := s.m.groups[100];
            g.refCount == 2 && 1 in g.route && g.route[1] == n && n in g.handleOf && g.handleOf[n] == 2
  {
    s := RequestedTwice(n);
    var g := s.m.groups[100];
    ParsesFully([k]);
    AcceptsEverything([k], Another.results);
    SubscribeOutcome(s.m, 1, [k], 100, 0, Another);
    AdmitRoutes(g, [k], 2, Another.results, 1);
    AdmitSpares(g, [k], 2, Another.results, n);
    AdmitRefCount(g, [k], 2, Another.results);
    s := Return.Reach(s, DoSubscribe(1, [k], 100, 0, Another));
  }

  /** Unsubscribing it leaves the first of its two handles routed, though no record
      names the node any more. */
  lemma TwiceNamedStaysRouted(n: NodeId, k: NodeId) returns (s: System)
    requires n.parses && k.parses && n != k
    ensures Return.Reached(s) && 0 in s.m.subs
    ensures var t := Apply(s, DoUnsubscribe(0, {}, true)); RoutesTo(t.m, 1, n) && !NamedAt(t.m, 100, n)
  {
    s := NamedTwice(n, k);
    Return.ReachedKnown(s);
    ForgottenHandle(s.m, n);
  }

  lemma ForgottenHandle(m: Manager, n: NodeId)
    requires Inv(m) && m.subs.Keys == {0, 1} && m.subs[0].interval == 100 && n !in m.subs[1].nodes && 100 in m.groups
    requires var g := m.groups[100];
             g.refCount == 2 && 1 in g.route && g.route[1] == n && n in g.handleOf && g.handleOf[n] == 2
    ensures var m' := Unsubscribe(m, 0, {}, true).value; RoutesTo(m', 1, n) && !NamedAt(m', 100, n)
  {
    StaysRouted(m, 0, {}, true, 1);
    UnsubscribeGroups(m, 0, {}, true);
  }
}
