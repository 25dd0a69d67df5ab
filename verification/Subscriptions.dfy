/** The state of internal/opcua/subscription.go as a value, and what each of its
    critical sections does to it. The class SubscriptionManager is proved to
    compute these functions in place; the lemmas about them are in
    SubscriptionProofs. */
module Subscriptions {
  import opened Wrappers

  type Handle = nat      // a client handle
  type ItemId = nat      // a server-assigned monitored item id
  type SubscriptionId = nat  // only equality matters

  /** Client handles are 32-bit. */
  const HANDLE_LIMIT := 0x1_0000_0000

  /** A node id (as far as equality goes), and whether gopcua's parser accepts it. */
  datatype NodeId = NodeId(name: nat, parses: bool)

  /** A logical subscription, in memory or as persisted intent. */
  datatype Record = Record(id: SubscriptionId, nodes: seq<NodeId>, interval: int, createdAt: int)

  /** One gopcua subscription, with the server's side of it: live maps each of its
      monitored items to the client handle the item reports under. */
  datatype Group = Group(
    refCount: int, route: map<Handle, NodeId>, handleOf: map<NodeId, Handle>, itemOf: map<NodeId, ItemId>,
    live: map<ItemId, Handle>)

  const EmptyGroup := Group(0, map[], map[], map[], map[])

  /** subs and groups are the manager's maps; intents is the store's bucket of
      persisted subscriptions; issued is the history of handles given out. */
  datatype Manager = Manager(
    subs: map<SubscriptionId, Record>, groups: map<int, Group>, nextHandle: Handle,
    intents: map<SubscriptionId, Record>, issued: map<Handle, NodeId>)

  /** The server's verdict on one requested item. */
  datatype ItemResult = Accepted(item: ItemId) | Rejected(status: string)

  /** What the server and the store answer during one subscribeInternal. */
  datatype Reply = Reply(subscribeOk: bool, monitorOk: bool, results: seq<ItemResult>, putOk: bool)

  datatype Outcome = Done | PersistFailed | NotCreated | BadNode(index: nat) | MonitorFailed | NoneAccepted

  // ---- subscribeInternal ------------------------------------------------------

  /** How many leading nodes parse. */
  function ParsedPrefix(nodes: seq<NodeId>): (n: nat)
    ensures n <= |nodes|
  {
    if nodes == [] || !nodes[0].parses then 0 else 1 + ParsedPrefix(nodes[1..])
  }

  /** One handle per node, counting up from last. */
  function Issue(issued: map<Handle, NodeId>, last: Handle, nodes: seq<NodeId>): map<Handle, NodeId>
    decreases |nodes|
  {
    if nodes == [] || !nodes[0].parses then issued else Issue(issued[last + 1 := nodes[0]], last + 1, nodes[1..])
  }

  function AdmitOne(g: Group, node: NodeId, handle: Handle, result: ItemResult): Group {
    match result
    case Rejected(_) => g
    case Accepted(item) =>
      g.(route := g.route[handle := node], handleOf := g.handleOf[node := handle],
         itemOf := g.itemOf[node := item], live := g.live[item := handle])
  }

  /** The result loop: node i was requested under handle last + 1 + i. */
  function Admit(g: Group, nodes: seq<NodeId>, last: Handle, results: seq<ItemResult>): Group
    requires |results| <= |nodes|
    decreases |results|
  {
    if results == [] then g
    else Admit(AdmitOne(g, nodes[0], last + 1, results[0]), nodes[1..], last + 1, results[1..])
  }

  function AcceptedNodes(nodes: seq<NodeId>, results: seq<ItemResult>): seq<NodeId>
    requires |results| <= |nodes|
    decreases |results|
  {
    if results == [] then []
    else (if results[0].Accepted? then [nodes[0]] else []) + AcceptedNodes(nodes[1..], results[1..])
  }

  function RejectedNodes(nodes: seq<NodeId>, results: seq<ItemResult>): seq<(NodeId, string)>
    requires |results| <= |nodes|
    decreases |results|
  {
    if results == [] then []
    else
      (if results[0].Rejected? then [(nodes[0], results[0].status)] else []) + RejectedNodes(nodes[1..], results[1..])
  }

  /** The group subscribeInternal works on, opened if there is none yet. */
  function OpenGroup(m: Manager, interval: int): Group {
    if interval in m.groups then m.groups[interval] else EmptyGroup
  }

  /** Monitored item ids are unique within one subscription (OPC 10000-4,
      section 5.12.2): new ones differ from each other and from the live ones. */
  predicate FreshItems(live: map<ItemId, Handle>, results: seq<ItemResult>) {
    && (forall i | 0 <= i < |results| :: results[i].Accepted? ==> results[i].item !in live)
    && (forall i, j | 0 <= i < j < |results| ::
          results[i].Accepted? && results[j].Accepted? ==> results[i].item != results[j].item)
  }

  /** What the environment owes one call: no more results than requests, fresh
      item ids, and handles left to give out. */
  predicate Serves(m: Manager, nodes: seq<NodeId>, interval: int, r: Reply) {
    && |r.results| <= |nodes|
    && FreshItems(OpenGroup(m, interval).live, r.results)
    && m.nextHandle + |nodes| < HANDLE_LIMIT
  }

  /** The manager once the requests are built: a group is open, and every node that
      parses up to the first that does not has used a handle. */
  function Asked(m: Manager, nodes: seq<NodeId>, interval: int): Manager {
    m.(groups := m.groups[interval := OpenGroup(m, interval)],
       nextHandle := m.nextHandle + ParsedPrefix(nodes), issued := Issue(m.issued, m.nextHandle, nodes))
  }

  function Subscribe(m: Manager, id: SubscriptionId, nodes: seq<NodeId>, interval: int, createdAt: int, r: Reply)
    : (Manager, Outcome)
    requires Serves(m, nodes, interval, r)
  {
    if interval !in m.groups && !r.subscribeOk then (m, NotCreated)
    else
      var asked := Asked(m, nodes, interval);
      if ParsedPrefix(nodes) < |nodes| then (asked, BadNode(ParsedPrefix(nodes)))
      else if !r.monitorOk then (asked, MonitorFailed)
      else Commit(asked, Admit(OpenGroup(m, interval), nodes, m.nextHandle, r.results),
                  Record(id, AcceptedNodes(nodes, r.results), interval, createdAt), r.putOk)
  }

  /** The tail of subscribeInternal, for a group that has taken in the items. */
  function Commit(m: Manager, g: Group, record: Record, putOk: bool): (Manager, Outcome) {
    if record.nodes == [] then
      (m.(groups := if g.refCount == 0 then m.groups - {record.interval} else m.groups[record.interval := g]),
       NoneAccepted)
    else
      (m.(groups := m.groups[record.interval := g.(refCount := g.refCount + 1)],
          subs := m.subs[record.id := record],
          intents := if putOk then m.intents[record.id := record] else m.intents),
       if putOk then Done else PersistFailed)
  }

  // ---- Unsubscribe ------------------------------------------------------------

  function DropOne(g: Group, node: NodeId): Group {
    g.(route := if node in g.handleOf then g.route - {g.handleOf[node]} else g.route,
       handleOf := g.handleOf - {node}, itemOf := g.itemOf - {node})
  }

  function Drop(g: Group, nodes: seq<NodeId>): Group
    decreases |nodes|
  {
    if nodes == [] then g else Drop(DropOne(g, nodes[0]), nodes[1..])
  }

  /** The items handed to Unmonitor while dropping nodes. */
  function ToUnmonitor(itemOf: map<NodeId, ItemId>, nodes: seq<NodeId>): seq<ItemId> {
    if nodes == [] then []
    else (if nodes[0] in itemOf then [itemOf[nodes[0]]] else []) + ToUnmonitor(itemOf - {nodes[0]}, nodes[1..])
  }

  /** The group after Unsubscribe; the server may remove any of the items it was
      asked to, for instance none when the request fails. */
  function Released(g: Group, nodes: seq<NodeId>, removed: set<ItemId>): Group {
    var asked := set i | i in ToUnmonitor(g.itemOf, nodes);
    var d := Drop(g, nodes);
    d.(live := d.live - (removed * asked), refCount := d.refCount - 1)
  }

  /** None when id is unknown. deleteOk: the store deleted the intent. */
  function Unsubscribe(m: Manager, id: SubscriptionId, removed: set<ItemId>, deleteOk: bool): Option<Manager> {
    if id !in m.subs then None
    else
      var record := m.subs[id];
      var groups :=
        if record.interval !in m.groups then m.groups
        else
          var g := Released(m.groups[record.interval], record.nodes, removed);
          if g.refCount <= 0 then m.groups - {record.interval} else m.groups[record.interval := g];
      Some(m.(subs := m.subs - {id}, groups := groups, intents := if deleteOk then m.intents - {id} else m.intents))
  }

  // ---- restoreFromIntent ------------------------------------------------------

  function Reset(m: Manager): Manager { m.(subs := map[], groups := map[]) }

  /** The persisted intents in the order the store lists them. */
  predicate Lists(order: seq<Record>, intents: map<SubscriptionId, Record>) {
    && (forall i | 0 <= i < |order| :: order[i].id in intents && intents[order[i].id] == order[i])
    && (forall i, j | 0 <= i < j < |order| :: order[i].id != order[j].id)
    && (forall id | id in intents :: intents[id] in order)
  }

  predicate ServesAll(m: Manager, order: seq<Record>, replies: seq<Reply>)
    requires |replies| == |order|
    decreases |order|
  {
    order == [] ||
    (Serves(m, order[0].nodes, order[0].interval, replies[0]) &&
     ServesAll(Restored(m, order[0], replies[0]), order[1..], replies[1..]))
  }

  function Restored(m: Manager, intent: Record, r: Reply): Manager
    requires Serves(m, intent.nodes, intent.interval, r)
  {
    Subscribe(m, intent.id, intent.nodes, intent.interval, intent.createdAt, r).0
  }

  /** warmStart's loop; a failing intent is skipped. */
  function RestoreAll(m: Manager, order: seq<Record>, replies: seq<Reply>): Manager
    requires |replies| == |order| && ServesAll(m, order, replies)
    decreases |order|
  {
    if order == [] then m else RestoreAll(Restored(m, order[0], replies[0]), order[1..], replies[1..])
  }

  // ---- Routing ----------------------------------------------------------------

  /** lookupNodeIDLocked: n is what some group routes the handle to. */
  ghost predicate RoutesTo(m: Manager, handle: Handle, node: NodeId) {
    exists i | i in m.groups :: handle in m.groups[i].route && m.groups[i].route[handle] == node
  }

  predicate Unrouted(m: Manager, handle: Handle) { forall i | i in m.groups :: handle !in m.groups[i].route }
}
