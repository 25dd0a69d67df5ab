/** Where handles route over whole histories, and what is kept of what was asked for. */
module SubscriptionHistory {
  import opened Subscriptions
  import opened SubscriptionProofs
  import opened SubscriptionRuns

  /** The manager before its first restore, over a store that holds intents. */
  function Initially(intents: map<SubscriptionId, Record>): System {
    System(Manager(map[], map[], 0, intents, map[]), map[], intents.Keys, {})
  }

  lemma InitiallyInvariant(intents: map<SubscriptionId, Record>)
    requires StoreOk(intents)
    ensures Inv(Initially(intents).m) && OrderlyState(Initially(intents)) && IdsOk(Initially(intents))
  {
  }

  // ---- Routing ----------------------------------------------------------------

  /** At most one group holds a handle, so a lookup does not depend on the order
      in which groups are searched. */
  lemma LookupIsUnambiguous(m: Manager, handle: Handle, a: NodeId, b: NodeId)
    requires RoutingOk(m) && RoutesTo(m, handle, a) && RoutesTo(m, handle, b)
    ensures a == b && handle in m.issued && m.issued[handle] == a
  {
    var i :| i in m.groups && handle in m.groups[i].route && m.groups[i].route[handle] == a;
    var j :| j in m.groups && handle in m.groups[j].route && m.groups[j].route[handle] == b;
  }

  /** Handles are handed out in increasing order, each for one node, and a handle
      already handed out gains no route. */
  ghost predicate Advances(m: Manager, m': Manager) {
    && m.nextHandle <= m'.nextHandle
    && (forall h | h in m.issued :: h in m'.issued && m'.issued[h] == m.issued[h])
    && (forall i, h | i in m'.groups && h in m'.groups[i].route && h <= m.nextHandle ::
          i in m.groups && h in m.groups[i].route && m.groups[i].route[h] == m'.groups[i].route[h])
  }

  lemma SubscribeGroups(m: Manager, id: SubscriptionId, nodes: seq<NodeId>, interval: int, createdAt: int, r: Reply)
    requires Serves(m, nodes, interval, r)
    ensures var m' := Subscribe(m, id, nodes, interval, createdAt, r).0;
            && (m'.issued == m.issued || m'.issued == Issue(m.issued, m.nextHandle, nodes))
            && m.nextHandle <= m'.nextHandle
            && forall i | i in m'.groups ::
                 if i != interval then i in m.groups && m'.groups[i] == m.groups[i]
                 else m'.groups[i].route == OpenGroup(m, interval).route
                      || m'.groups[i].route == Admit(OpenGroup(m, interval), nodes, m.nextHandle, r.results).route
  {
    if (interval in m.groups || r.subscribeOk) && ParsedPrefix(nodes) == |nodes| && r.monitorOk {
      CommitGroups(Asked(m, nodes, interval), Admit(OpenGroup(m, interval), nodes, m.nextHandle, r.results),
                   Record(id, AcceptedNodes(nodes, r.results), interval, createdAt), r.putOk);
    }
  }

  lemma SubscribeAdvances(m: Manager, id: SubscriptionId, nodes: seq<NodeId>, interval: int, createdAt: int, r: Reply)
    requires Inv(m) && Serves(m, nodes, interval, r)
    ensures Advances(m, Subscribe(m, id, nodes, interval, createdAt, r).0)
  {
    var m' := Subscribe(m, id, nodes, interval, createdAt, r).0;
    var g0 := OpenGroup(m, interval);
    SubscribeGroups(m, id, nodes, interval, createdAt, r);
    RoutedAreOld(m, interval);
    IssueAll(m.issued, m.nextHandle, nodes);
    AdmitKeeps(g0, nodes, m.nextHandle, r.results);
    forall i, h | i in m'.groups && h in m'.groups[i].route && h <= m.nextHandle
      ensures i in m.groups && h in m.groups[i].route && m.groups[i].route[h] == m'.groups[i].route[h]
    {
      if i == interval { assert h in g0.route; }
    }
  }

  lemma UnsubscribeAdvances(m: Manager, id: SubscriptionId, removed: set<ItemId>, deleteOk: bool)
    requires Inv(m) && id in m.subs
    ensures Advances(m, Unsubscribe(m, id, removed, deleteOk).value)
  {
    var i := m.subs[id].interval;
    if i in m.groups { DropShape(m.groups[i], m.subs[id].nodes); }
  }

  lemma StepAdvances(s: System, l: Label)
    requires Inv(s.m) && Enabled(s, l)
    ensures Advances(s.m, Apply(s, l).m)
  {
    match l
    case DoSubscribe(id, nodes, interval, createdAt, reply) =>
      SubscribeAdvances(s.m, id, nodes, interval, createdAt, reply);
    case DoUnsubscribe(id, removed, deleteOk) => UnsubscribeAdvances(s.m, id, removed, deleteOk);
    case DoRestoreOne(t, reply) =>
      var r := s.restores[t].rest[0];
      SubscribeAdvances(s.m, r.id, r.nodes, r.interval, r.createdAt, reply);
    case _ =>
  }

  lemma {:induction false} RunAdvances(s: System, ls: seq<Label>, t: System)
    requires Inv(s.m) && Runs(s, ls, t)
    ensures Advances(s.m, t.m)
    decreases |ls|
  {
    if ls != [] {
      StepKeeps(s, ls[0]);
      StepAdvances(s, ls[0]);
      RunAdvances(Apply(s, ls[0]), ls[1..], t);
    }
  }

  /** Over any history a handle stands for one node: once handed out it routes to
      that node or nowhere, and having stopped routing it never routes again. */
  lemma HandlesStandForOneNode(s: System, ls: seq<Label>, t: System, handle: Handle, node: NodeId)
    requires Inv(s.m) && Runs(s, ls, t) && handle <= s.m.nextHandle && RoutesTo(t.m, handle, node)
    ensures RoutesTo(s.m, handle, node)
    ensures handle in s.m.issued && s.m.issued[handle] == node && handle in t.m.issued && t.m.issued[handle] == node
  {
    RunKeeps(s, ls, t);
    RunAdvances(s, ls, t);
    var i :| i in t.m.groups && handle in t.m.groups[i].route && t.m.groups[i].route[handle] == node;
    assert RoutesTo(s.m, handle, node);
    LookupIsUnambiguous(s.m, handle, node, node);
  }

  /** No handle from before a restore routes during or after it. */
  lemma RestoreRetiresHandles(s: System, thread: Thread, ls: seq<Label>, t: System, handle: Handle, node: NodeId)
    requires Inv(s.m) && thread !in s.restores && Runs(Apply(s, DoReset(thread)), ls, t)
    requires handle <= s.m.nextHandle
    ensures !RoutesTo(t.m, handle, node)
  {
    var r := Apply(s, DoReset(thread));
    ResetKeeps(s.m);
    if RoutesTo(t.m, handle, node) {
      HandlesStandForOneNode(r, ls, t, handle, node);
      assert false;
    }
  }

  // ---- Records and intents ----------------------------------------------------

  /** Every record on hand is persisted as it stands. */
  predicate Persisted(m: Manager) { forall id | id in m.subs :: id in m.intents && m.intents[id] == m.subs[id] }

  ghost predicate PutsWork(ls: seq<Label>) {
    forall i | 0 <= i < |ls| :: (ls[i].DoSubscribe? || ls[i].DoRestoreOne?) ==> ls[i].reply.putOk
  }

  lemma PersistedStep(s: System, l: Label)
    requires Persisted(s.m) && Enabled(s, l) && ((l.DoSubscribe? || l.DoRestoreOne?) ==> l.reply.putOk)
    ensures Persisted(Apply(s, l).m)
  {
  }

  /** While the store takes what it is given, memory never holds a subscription
      that the store does not hold in the same words, however calls interleave. */
  lemma {:induction false} RecordsArePersisted(s: System, ls: seq<Label>, t: System)
    requires Persisted(s.m) && Runs(s, ls, t) && PutsWork(ls)
    ensures Persisted(t.m)
    decreases |ls|
  {
    if ls != [] {
      PersistedStep(s, ls[0]);
      assert forall i | 0 <= i < |ls[1..]| :: ls[1..][i] == ls[i + 1];
      RecordsArePersisted(Apply(s, ls[0]), ls[1..], t);
    }
  }

  function Names(rejected: seq<(NodeId, string)>): seq<NodeId> {
    if rejected == [] then [] else [rejected[0].0] + Names(rejected[1..])
  }

  /** How the first result extends the two reports. */
  lemma FirstReported(nodes: seq<NodeId>, results: seq<ItemResult>)
    requires 0 < |results| <= |nodes|
    ensures var accepted := AcceptedNodes(nodes[1..], results[1..]);
            var rejected := Names(RejectedNodes(nodes[1..], results[1..]));
            && AcceptedNodes(nodes, results) == (if results[0].Accepted? then [nodes[0]] + accepted else accepted)
            && Names(RejectedNodes(nodes, results))
               == (if results[0].Rejected? then [nodes[0]] + rejected else rejected)
  {
    var rest := RejectedNodes(nodes[1..], results[1..]);
    if results[0].Rejected? {
      assert ([(nodes[0], results[0].status)] + rest)[1..] == rest;
    } else {
      assert RejectedNodes(nodes, results) == rest;
    }
  }

  lemma TakeCons<T>(s: seq<T>, n: nat)
    requires 0 < n <= |s|
    ensures s[..n] == [s[0]] + s[1..][..n - 1]
  {
  }

  lemma OneMore<T>(x: T, inA: bool, all: seq<T>, a: seq<T>, b: seq<T>, all': seq<T>, a': seq<T>, b': seq<T>)
    requires multiset(all) == multiset(a) + multiset(b)
    requires all' == [x] + all
    requires if inA then a' == [x] + a && b' == b else a' == a && b' == [x] + b
    ensures multiset(all') == multiset(a') + multiset(b')
  {
  }

  /** Every node the server answered for is reported, as accepted or as rejected,
      as often as it was asked for. */
  lemma {:induction false} NothingSilentlyDropped(nodes: seq<NodeId>, results: seq<ItemResult>)
    requires |results| <= |nodes|
    ensures multiset(nodes[..|results|])
            == multiset(AcceptedNodes(nodes, results)) + multiset(Names(RejectedNodes(nodes, results)))
    decreases |results|
  {
    if results == [] {
      assert nodes[..|results|] == [];
    } else {
      NothingSilentlyDropped(nodes[1..], results[1..]);
      FirstReported(nodes, results);
      var all := nodes[1..][..|results[1..]|];
      var a, b := AcceptedNodes(nodes[1..], results[1..]), Names(RejectedNodes(nodes[1..], results[1..]));
      var all', a', b' := nodes[..|results|], AcceptedNodes(nodes, results), Names(RejectedNodes(nodes, results));
      TakeCons(nodes, |results|);
      OneMore(nodes[0], results[0].Accepted?, all, a, b, all', a', b');
    }
  }
}
