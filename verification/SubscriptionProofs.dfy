/** The invariant of the subscription manager: routing, reference counts, and
    coverage of every subscribed node. */
module SubscriptionProofs {
  import opened Sums
  import opened Subscriptions

  // ---- The invariant ----------------------------------------------------------

  /** The reverse maps name one handle and one item per node, and agree. */
  predicate GroupOk(g: Group) {
    && g.refCount >= 0
    && g.handleOf.Keys == g.itemOf.Keys
    && forall n | n in g.handleOf ::
         && g.handleOf[n] in g.route && g.route[g.handleOf[n]] == n
         && g.itemOf[n] in g.live && g.live[g.itemOf[n]] == g.handleOf[n]
  }

  /** The handles through which the server still reports node and the manager
      still routes it. */
  ghost function Covered(g: Group, node: NodeId): set<Handle> { Covering(g.route, g.live, node) }

  ghost function Covering(route: map<Handle, NodeId>, live: map<ItemId, Handle>, node: NodeId): set<Handle> {
    set h | h in route && route[h] == node && Reports(live, h)
  }

  ghost predicate Reports(live: map<ItemId, Handle>, h: Handle) { exists i | i in live :: live[i] == h }

  ghost function HoldsNode(interval: int, node: NodeId): Record -> nat {
    (r: Record) => if r.interval == interval then multiset(r.nodes)[node] else 0
  }

  ghost function AtInterval(interval: int): Record -> nat {
    (r: Record) => if r.interval == interval then 1 else 0
  }

  /** How often live records at interval name node. */
  ghost function Occurrences(m: Manager, interval: int, node: NodeId): nat {
    Sum(m.subs, HoldsNode(interval, node))
  }

  ghost function Records(m: Manager, interval: int): nat { Sum(m.subs, AtInterval(interval)) }

  function RefCount(m: Manager, interval: int): int {
    if interval in m.groups then m.groups[interval].refCount else 0
  }

  predicate RoutingOk(m: Manager) {
    && (forall h | h in m.issued :: h <= m.nextHandle)
    && (forall i, h | i in m.groups && h in m.groups[i].route :: h in m.issued && m.issued[h] == m.groups[i].route[h])
    && (forall i, j, h | i in m.groups && j in m.groups && h in m.groups[i].route && h in m.groups[j].route :: i == j)
  }

  predicate KeyedOk(records: map<SubscriptionId, Record>) {
    forall id | id in records :: records[id].id == id && records[id].nodes != []
  }

  predicate Parse(nodes: seq<NodeId>) { forall i | 0 <= i < |nodes| :: nodes[i].parses }

  predicate StoreOk(intents: map<SubscriptionId, Record>) {
    KeyedOk(intents) && forall id | id in intents :: Parse(intents[id].nodes)
  }

  /** Every interval with records has a group counting at least that many, and
      every node the records name is covered at least as often as they name it. */
  ghost predicate CountsOk(m: Manager) {
    && (forall i :: Records(m, i) <= RefCount(m, i))
    && (forall i, n | i in m.groups :: Occurrences(m, i, n) <= |Covered(m.groups[i], n)|)
  }

  ghost predicate Inv(m: Manager) {
    && (forall i | i in m.groups :: GroupOk(m.groups[i]))
    && RoutingOk(m) && KeyedOk(m.subs) && StoreOk(m.intents) && CountsOk(m)
  }

  // ---- Taking in monitored items ----------------------------------------------

  lemma AdmitOneKeeps(g: Group, node: NodeId, handle: Handle, result: ItemResult)
    requires GroupOk(g) && handle !in g.route
    requires result.Accepted? ==> result.item !in g.live
    ensures GroupOk(AdmitOne(g, node, handle, result))
  {
  }

  lemma ReportsOne(live: map<ItemId, Handle>, item: ItemId, handle: Handle)
    requires item !in live
    ensures forall h :: Reports(live[item := handle], h) <==> Reports(live, h) || h == handle
  {
    var live' := live[item := handle];
    assert live'[item] == handle;
    forall h | Reports(live, h) ensures Reports(live', h) {
      var i :| i in live && live[i] == h;
      assert live'[i] == h;
    }
  }

  lemma CoverOneMore(route: map<Handle, NodeId>, live: map<ItemId, Handle>, node: NodeId, handle: Handle,
                     item: ItemId, n: NodeId)
    requires handle !in route && item !in live
    ensures |Covering(route[handle := node], live[item := handle], n)|
            == |Covering(route, live, n)| + (if n == node then 1 else 0)
  {
    ReportsOne(live, item, handle);
    var before := Covering(route, live, n);
    var after := Covering(route[handle := node], live[item := handle], n);
    assert handle !in before;
    if n == node {
      assert live[item := handle][item] == handle;
      assert after == before + {handle};
    } else {
      assert after == before;
    }
  }

  lemma AdmitOneCovers(g: Group, node: NodeId, handle: Handle, result: ItemResult, n: NodeId)
    requires handle !in g.route
    requires result.Accepted? ==> result.item !in g.live
    ensures |Covered(AdmitOne(g, node, handle, result), n)|
            == |Covered(g, n)| + (if result.Accepted? && n == node then 1 else 0)
  {
    if result.Accepted? {
      CoverOneMore(g.route, g.live, node, handle, result.item, n);
    }
  }

  lemma AcceptedCount(nodes: seq<NodeId>, results: seq<ItemResult>, n: NodeId)
    requires 0 < |results| <= |nodes|
    ensures multiset(AcceptedNodes(nodes, results))[n]
            == (if results[0].Accepted? && nodes[0] == n then 1 else 0)
               + multiset(AcceptedNodes(nodes[1..], results[1..]))[n]
  {
  }

  lemma FreshRest(g: Group, node: NodeId, handle: Handle, results: seq<ItemResult>)
    requires results != [] && FreshItems(g.live, results)
    ensures FreshItems(AdmitOne(g, node, handle, results[0]).live, results[1..])
  {
    var rest := results[1..];
    assert forall i | 0 <= i < |rest| :: rest[i] == results[i + 1];
  }

  lemma {:induction false} AdmitKeeps(g: Group, nodes: seq<NodeId>, last: Handle, results: seq<ItemResult>)
    requires |results| <= |nodes| && GroupOk(g) && FreshItems(g.live, results)
    requires forall h | h in g.route :: h <= last
    ensures var g' := Admit(g, nodes, last, results);
            && GroupOk(g') && g'.refCount == g.refCount
            && (forall h | h in g.route :: h in g'.route && g'.route[h] == g.route[h])
            && (forall h | h in g'.route && h !in g.route ::
                 last < h <= last + |results| && g'.route[h] == nodes[h - last - 1])
    decreases |results|
  {
    if results != [] {
      AdmitOneKeeps(g, nodes[0], last + 1, results[0]);
      AdmitKeeps(AdmitOne(g, nodes[0], last + 1, results[0]), nodes[1..], last + 1, results[1..]);
    }
  }

  lemma {:induction false} AdmitCovers(g: Group, nodes: seq<NodeId>, last: Handle, results: seq<ItemResult>, n: NodeId)
    requires |results| <= |nodes| && FreshItems(g.live, results)
    requires forall h | h in g.route :: h <= last
    ensures |Covered(Admit(g, nodes, last, results), n)| == |Covered(g, n)| + multiset(AcceptedNodes(nodes, results))[n]
    decreases |results|
  {
    if results != [] {
      var g1 := AdmitOne(g, nodes[0], last + 1, results[0]);
      AdmitOneCovers(g, nodes[0], last + 1, results[0], n);
      AcceptedCount(nodes, results, n);
      FreshRest(g, nodes[0], last + 1, results);
      AdmitCovers(g1, nodes[1..], last + 1, results[1..], n);
      assert Admit(g, nodes, last, results) == Admit(g1, nodes[1..], last + 1, results[1..]);
    }
  }

  lemma {:induction false} IssueAll(issued: map<Handle, NodeId>, last: Handle, nodes: seq<NodeId>)
    requires forall h | h in issued :: h <= last
    ensures var all := Issue(issued, last, nodes);
            && (forall h | h in issued :: h in all && all[h] == issued[h])
            && (forall h | h in all && h !in issued ::
                 last < h <= last + ParsedPrefix(nodes) && all[h] == nodes[h - last - 1])
            && (forall h | last < h <= last + ParsedPrefix(nodes) :: h in all && all[h] == nodes[h - last - 1])
    decreases |nodes|
  {
    if nodes != [] && nodes[0].parses {
      var issued1 := issued[last + 1 := nodes[0]];
      IssueAll(issued1, last + 1, nodes[1..]);
      var all := Issue(issued1, last + 1, nodes[1..]);
      assert last + 1 in issued1;
      assert all[last + 1] == nodes[0];
      assert forall h | last + 1 < h <= last + ParsedPrefix(nodes) :: all[h] == nodes[1..][h - (last + 1) - 1];
    }
  }

  // ---- Dropping a subscription's nodes ----------------------------------------

  lemma {:induction false} DropShape(g: Group, nodes: seq<NodeId>)
    requires forall n | n in g.handleOf :: g.handleOf[n] in g.route && g.route[g.handleOf[n]] == n
    ensures var d := Drop(g, nodes);
            && d.live == g.live && d.refCount == g.refCount
            && (forall n :: n in d.handleOf <==> n in g.handleOf && n !in nodes)
            && (forall n :: n in d.itemOf <==> n in g.itemOf && n !in nodes)
            && (forall n | n in d.handleOf :: d.handleOf[n] == g.handleOf[n])
            && (forall n | n in d.itemOf :: d.itemOf[n] == g.itemOf[n])
            && (forall h | h in d.route :: h in g.route && d.route[h] == g.route[h])
            && (forall h | h in g.route && h !in d.route ::
                 g.route[h] in nodes && g.route[h] in g.handleOf && g.handleOf[g.route[h]] == h)
    decreases |nodes|
  {
    if nodes != [] {
      var g1 := DropOne(g, nodes[0]);
      assert forall n | n in g1.handleOf ::
             g.handleOf[n] != (if nodes[0] in g.handleOf then g.handleOf[nodes[0]] else g.handleOf[n] + 1);
      DropShape(g1, nodes[1..]);
    }
  }

  lemma {:induction false} UnmonitorShape(itemOf: map<NodeId, ItemId>, nodes: seq<NodeId>, item: ItemId)
    ensures item in ToUnmonitor(itemOf, nodes) <==> exists n | n in itemOf :: n in nodes && itemOf[n] == item
    decreases |nodes|
  {
    if nodes != [] {
      var rest := itemOf - {nodes[0]};
      UnmonitorShape(rest, nodes[1..], item);
      forall n | n in itemOf && n in nodes && itemOf[n] == item ensures item in ToUnmonitor(itemOf, nodes) {
        assert n != nodes[0] ==> n in rest && n in nodes[1..] && rest[n] == item;
      }
      assert forall n | n in rest && n in nodes[1..] :: n in itemOf && n in nodes && itemOf[n] == rest[n];
    }
  }

  /** Dropping a record's nodes costs each of them at most the one handle the
      reverse map names, and other nodes nothing. */
  lemma ReleaseCosts(g: Group, nodes: seq<NodeId>, removed: set<ItemId>, node: NodeId)
    requires GroupOk(g)
    ensures var g' := Released(g, nodes, removed);
            var cost := if node in nodes && node in g.handleOf then {g.handleOf[node]} else {};
            Covered(g, node) - cost <= Covered(g', node)
    ensures |Covered(Released(g, nodes, removed), node)| >= |Covered(g, node)| - (if node in nodes then 1 else 0)
  {
    DropShape(g, nodes);
    var g' := Released(g, nodes, removed);
    var cost := if node in nodes && node in g.handleOf then {g.handleOf[node]} else {};
    forall h | h in Covered(g, node) && h !in cost ensures h in Covered(g', node) {
      var i :| i in g.live && g.live[i] == h;
      UnmonitorShape(g.itemOf, nodes, i);
      assert i in g'.live && g'.live[i] == h;
    }
    var kept := Covered(g, node) - cost;
    assert |kept| >= |Covered(g, node)| - |cost|;
    Fewer(kept, Covered(g', node));
  }

  lemma ReleaseKeeps(g: Group, nodes: seq<NodeId>, removed: set<ItemId>)
    requires GroupOk(g) && g.refCount >= 1
    ensures GroupOk(Released(g, nodes, removed))
    ensures forall h | h in Released(g, nodes, removed).route ::
            h in g.route && Released(g, nodes, removed).route[h] == g.route[h]
  {
    DropShape(g, nodes);
    var g' := Released(g, nodes, removed);
    forall n | n in g'.handleOf ensures g'.itemOf[n] in g'.live {
      UnmonitorShape(g.itemOf, nodes, g.itemOf[n]);
    }
  }

  // ---- Each critical section keeps the invariant ------------------------------

  lemma NoRecordsNoNodes(m: Manager, interval: int, node: NodeId)
    requires Records(m, interval) == 0
    ensures Occurrences(m, interval, node) == 0
  {
    SumZero(m.subs, HoldsNode(interval, node), AtInterval(interval));
  }

  lemma ResetKeeps(m: Manager)
    requires Inv(m)
    ensures Inv(Reset(m))
  {
  }

  /** Opening a group and handing out handles. */
  lemma AskKeeps(m: Manager, interval: int, next: Handle, issued: map<Handle, NodeId>)
    requires Inv(m) && m.nextHandle <= next
    requires forall h | h in m.issued :: h in issued && issued[h] == m.issued[h]
    requires forall h | h in issued :: h <= next
    ensures Inv(m.(groups := m.groups[interval := OpenGroup(m, interval)], nextHandle := next, issued := issued))
  {
    var m' := m.(groups := m.groups[interval := OpenGroup(m, interval)], nextHandle := next, issued := issued);
    OpenKeepsCounts(m, m', interval);
  }

  lemma OpenKeepsCounts(m: Manager, m': Manager, interval: int)
    requires CountsOk(m) && m'.subs == m.subs && m'.groups == m.groups[interval := OpenGroup(m, interval)]
    ensures CountsOk(m')
  {
    forall i ensures Records(m', i) <= RefCount(m', i) { assert Records(m, i) <= RefCount(m, i); }
    forall i, n | i in m'.groups ensures Occurrences(m', i, n) <= |Covered(m'.groups[i], n)| {
      if i in m.groups { assert m'.groups[i] == m.groups[i]; } else { NoRecordsNoNodes(m, i, n); }
    }
  }

  /** A group that has taken in exactly record's nodes, under handles no group
      routes yet. */
  ghost predicate TookIn(m: Manager, g: Group, record: Record) {
    && record.interval in m.groups
    && var g0 := m.groups[record.interval];
    && GroupOk(g) && g.refCount == g0.refCount
    && (forall h | h in g.route :: h in m.issued && m.issued[h] == g.route[h])
    && (forall i, h | i in m.groups && h in g.route && h in m.groups[i].route :: i == record.interval)
    && (forall n :: |Covered(g, n)| == |Covered(g0, n)| + multiset(record.nodes)[n])
  }

  lemma CommitCounts(m: Manager, g: Group, record: Record, putOk: bool)
    requires CountsOk(m) && TookIn(m, g, record)
    ensures CountsOk(Commit(m, g, record, putOk).0)
  {
    var m' := Commit(m, g, record, putOk).0;
    var rest := m.subs - {record.id};
    forall i ensures Records(m', i) <= RefCount(m', i) {
      var w := AtInterval(i);
      SumUpdate(m.subs, record.id, record, w);
      if record.id in m.subs { SumSplit(m.subs, record.id, w); }
      assert Records(m, i) <= RefCount(m, i);
    }
    forall i, n | i in m'.groups ensures Occurrences(m', i, n) <= |Covered(m'.groups[i], n)| {
      var w := HoldsNode(i, n);
      SumUpdate(m.subs, record.id, record, w);
      if record.id in m.subs { SumSplit(m.subs, record.id, w); }
      assert Occurrences(m, i, n) <= |Covered(m.groups[i], n)|;
    }
  }

  lemma CommitGroups(m: Manager, g: Group, record: Record, putOk: bool)
    ensures var m' := Commit(m, g, record, putOk).0;
            && m'.issued == m.issued && m'.nextHandle == m.nextHandle
            && forall i | i in m'.groups ::
                 if i != record.interval then i in m.groups && m'.groups[i] == m.groups[i]
                 else m'.groups[i].route == g.route
  {
  }

  lemma CommitRouting(m: Manager, g: Group, record: Record, putOk: bool)
    requires RoutingOk(m) && TookIn(m, g, record)
    ensures RoutingOk(Commit(m, g, record, putOk).0)
  {
    CommitGroups(m, g, record, putOk);
    RoutingFrame(m, Commit(m, g, record, putOk).0, g, record.interval);
  }

  lemma RoutingFrame(m: Manager, m': Manager, g: Group, interval: int)
    requires RoutingOk(m) && m'.issued == m.issued && m'.nextHandle == m.nextHandle
    requires forall i | i in m'.groups ::
             if i != interval then i in m.groups && m'.groups[i] == m.groups[i] else m'.groups[i].route == g.route
    requires forall h | h in g.route :: h in m.issued && m.issued[h] == g.route[h]
    requires forall i, h | i in m.groups && h in g.route && h in m.groups[i].route :: i == interval
    ensures RoutingOk(m')
  {
  }

  lemma CommitRecords(m: Manager, g: Group, record: Record, putOk: bool)
    requires KeyedOk(m.subs) && StoreOk(m.intents) && Parse(record.nodes)
    ensures KeyedOk(Commit(m, g, record, putOk).0.subs) && StoreOk(Commit(m, g, record, putOk).0.intents)
  {
  }

  lemma CommitKeeps(m: Manager, g: Group, record: Record, putOk: bool)
    requires Inv(m) && TookIn(m, g, record) && Parse(record.nodes)
    ensures Inv(Commit(m, g, record, putOk).0)
  {
    var m' := Commit(m, g, record, putOk).0;
    CommitCounts(m, g, record, putOk);
    CommitRouting(m, g, record, putOk);
    CommitRecords(m, g, record, putOk);
    forall i | i in m'.groups ensures GroupOk(m'.groups[i]) {
      if i != record.interval { assert m'.groups[i] == m.groups[i]; }
    }
  }

  lemma {:induction false} AllParsed(nodes: seq<NodeId>)
    requires ParsedPrefix(nodes) == |nodes|
    ensures Parse(nodes)
  {
    if nodes != [] {
      AllParsed(nodes[1..]);
      assert forall i | 0 < i < |nodes| :: nodes[i] == nodes[1..][i - 1];
    }
  }

  lemma {:induction false} AcceptedParse(nodes: seq<NodeId>, results: seq<ItemResult>)
    requires |results| <= |nodes| && Parse(nodes)
    ensures Parse(AcceptedNodes(nodes, results))
    decreases |results|
  {
    if results != [] {
      AcceptedParse(nodes[1..], results[1..]);
    }
  }

  lemma RoutedAreOld(m: Manager, interval: int)
    requires RoutingOk(m)
    ensures forall h | h in OpenGroup(m, interval).route :: h <= m.nextHandle
  {
    if interval in m.groups {
      assert forall h | h in m.groups[interval].route :: h in m.issued;
    }
  }

  lemma AskedKeeps(m: Manager, nodes: seq<NodeId>, interval: int)
    requires Inv(m)
    ensures Inv(Asked(m, nodes, interval))
  {
    IssueAll(m.issued, m.nextHandle, nodes);
    AskKeeps(m, interval, m.nextHandle + ParsedPrefix(nodes), Issue(m.issued, m.nextHandle, nodes));
  }

  lemma AdmitTakesIn(m: Manager, id: SubscriptionId, nodes: seq<NodeId>, interval: int, createdAt: int, r: Reply)
    requires Inv(m) && Serves(m, nodes, interval, r) && ParsedPrefix(nodes) == |nodes|
    ensures TookIn(Asked(m, nodes, interval), Admit(OpenGroup(m, interval), nodes, m.nextHandle, r.results),
                   Record(id, AcceptedNodes(nodes, r.results), interval, createdAt))
  {
    var g0 := OpenGroup(m, interval);
    var g := Admit(g0, nodes, m.nextHandle, r.results);
    RoutedAreOld(m, interval);
    AdmitKeeps(g0, nodes, m.nextHandle, r.results);
    forall n ensures |Covered(g, n)| == |Covered(g0, n)| + multiset(AcceptedNodes(nodes, r.results))[n] {
      AdmitCovers(g0, nodes, m.nextHandle, r.results, n);
    }
    AdmitRoutesIssued(m, nodes, interval, r);
  }

  lemma AdmitRoutesIssued(m: Manager, nodes: seq<NodeId>, interval: int, r: Reply)
    requires RoutingOk(m) && (interval in m.groups ==> GroupOk(m.groups[interval]))
    requires Serves(m, nodes, interval, r) && ParsedPrefix(nodes) == |nodes|
    ensures var asked := Asked(m, nodes, interval);
            var g := Admit(OpenGroup(m, interval), nodes, m.nextHandle, r.results);
            && (forall h | h in g.route :: h in asked.issued && asked.issued[h] == g.route[h])
            && (forall i, h | i in asked.groups && h in g.route && h in asked.groups[i].route :: i == interval)
  {
    var asked := Asked(m, nodes, interval);
    var g0 := OpenGroup(m, interval);
    var g := Admit(g0, nodes, m.nextHandle, r.results);
    RoutedAreOld(m, interval);
    IssueAll(m.issued, m.nextHandle, nodes);
    AdmitKeeps(g0, nodes, m.nextHandle, r.results);
    forall h | h in g.route ensures h in asked.issued && asked.issued[h] == g.route[h] {
      if h in g0.route { assert h in m.issued && m.issued[h] == g0.route[h]; }
    }
  }

  lemma SubscribeKeeps(m: Manager, id: SubscriptionId, nodes: seq<NodeId>, interval: int, createdAt: int, r: Reply)
    requires Inv(m) && Serves(m, nodes, interval, r)
    ensures Inv(Subscribe(m, id, nodes, interval, createdAt, r).0)
  {
    if interval in m.groups || r.subscribeOk {
      AskedKeeps(m, nodes, interval);
      if ParsedPrefix(nodes) == |nodes| && r.monitorOk {
        AllParsed(nodes);
        AcceptedParse(nodes, r.results);
        AdmitTakesIn(m, id, nodes, interval, createdAt, r);
        CommitKeeps(Asked(m, nodes, interval), Admit(OpenGroup(m, interval), nodes, m.nextHandle, r.results),
                    Record(id, AcceptedNodes(nodes, r.results), interval, createdAt), r.putOk);
      }
    }
  }

  lemma UnsubscribeCounts(m: Manager, id: SubscriptionId, removed: set<ItemId>, deleteOk: bool)
    requires Inv(m) && id in m.subs
    ensures CountsOk(Unsubscribe(m, id, removed, deleteOk).value)
  {
    var m' := Unsubscribe(m, id, removed, deleteOk).value;
    var record := m.subs[id];
    forall i ensures Records(m', i) <= RefCount(m', i) {
      SumSplit(m.subs, id, AtInterval(i));
      assert Records(m, i) <= RefCount(m, i);
      if i == record.interval && i in m.groups { DropShape(m.groups[i], record.nodes); }
    }
    forall i, n | i in m'.groups ensures Occurrences(m', i, n) <= |Covered(m'.groups[i], n)| {
      SumSplit(m.subs, id, HoldsNode(i, n));
      assert Occurrences(m, i, n) <= |Covered(m.groups[i], n)|;
      if i == record.interval { ReleaseCosts(m.groups[i], record.nodes, removed, n); }
    }
  }

  lemma UnsubscribeKeeps(m: Manager, id: SubscriptionId, removed: set<ItemId>, deleteOk: bool)
    requires Inv(m) && id in m.subs
    ensures Inv(Unsubscribe(m, id, removed, deleteOk).value)
  {
    var record := m.subs[id];
    UnsubscribeCounts(m, id, removed, deleteOk);
    SumSplit(m.subs, id, AtInterval(record.interval));
    assert Records(m, record.interval) <= RefCount(m, record.interval);
    ReleaseKeeps(m.groups[record.interval], record.nodes, removed);
  }
}
