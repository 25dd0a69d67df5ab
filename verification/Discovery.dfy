/** The discovery walk of internal/opcua/discovery.go as a function of what the
    server answers: a depth-limited search of a graph that may have cycles, the
    sweep after it, and the index kept in step. The class DiscoveryService is
    proved to compute these functions in place. */
module Discovery {
  import opened Wrappers

  type NodeId = nat  // only equality matters

  /** One reference of a browse answer; names stands for the names and classes. */
  datatype Ref = Ref(node: NodeId, names: nat)

  /** parent is None where the code stores the empty string. */
  datatype NodeInfo = NodeInfo(names: nat, parent: Option<NodeId>, depth: nat, seenInGen: nat)

  /** What Browse answers during one walk, the first time and when retried; a node
      without an entry fails. Only critical Server nodes are retried. */
  datatype Server = Server(first: map<NodeId, seq<Ref>>, retry: map<NodeId, seq<Ref>>, critical: set<NodeId>)

  /** One walk's surroundings. */
  datatype Env = Env(server: Server, maxDepth: int, maxNodes: int, gen: nat)

  /** nodeCache, the visited set, and the log of Browse requests. */
  datatype Walk = Walk(cache: map<NodeId, NodeInfo>, visited: set<NodeId>, browses: seq<NodeId>)

  predicate Retries(s: Server, node: NodeId) { node !in s.first && node in s.critical }

  /** The Browse requests made for a node. */
  function Requests(s: Server, node: NodeId): seq<NodeId> {
    if Retries(s, node) then [node, node] else [node]
  }

  function References(s: Server, node: NodeId): seq<Ref> {
    if node in s.first then s.first[node]
    else if node in s.critical && node in s.retry then s.retry[node]
    else []
  }

  /** The references that are followed: no more than maxNodes of them. */
  function Taken(env: Env, node: NodeId): seq<Ref> {
    var refs := References(env.server, node);
    if env.maxNodes <= 0 then [] else if |refs| <= env.maxNodes then refs else refs[..env.maxNodes]
  }

  function Fuel(env: Env, depth: nat): nat { if depth > env.maxDepth then 0 else env.maxDepth - depth + 1 }

  function Upsert(w: Walk, env: Env, ref: Ref, parent: Option<NodeId>, depth: nat): Walk {
    w.(cache := w.cache[ref.node := NodeInfo(ref.names, parent, depth, env.gen)])
  }

  function Visit(w: Walk, env: Env, node: NodeId): Walk {
    w.(visited := w.visited + {node}, browses := w.browses + Requests(env.server, node))
  }

  /** discoverNodeRecursive, with the number of nodes it reports. */
  function WalkNode(w: Walk, env: Env, node: NodeId, parent: Option<NodeId>, depth: nat): (Walk, nat)
    decreases Fuel(env, depth), 1, 0
  {
    if depth > env.maxDepth || node in w.visited then (w, 0)
    else WalkRefs(Visit(w, env, node), env, Taken(env, node), parent, depth)
  }

  /** Its loop over the references still to be followed. */
  function WalkRefs(w: Walk, env: Env, refs: seq<Ref>, parent: Option<NodeId>, depth: nat): (Walk, nat)
    requires depth <= env.maxDepth
    decreases Fuel(env, depth), 0, |refs|
  {
    if refs == [] then (w, 0)
    else
      var u := Upsert(w, env, refs[0], parent, depth);
      var (w1, below) := WalkNode(u, env, refs[0].node, Some(refs[0].node), depth + 1);
      var (w2, others) := WalkRefs(w1, env, refs[1..], parent, depth);
      (w2, 1 + below + others)
  }

  // ---- One discoverNodes ------------------------------------------------------

  /** The document the index holds for a node: SeenInGen is not part of it. */
  function Document(info: NodeInfo): NodeInfo { info.(seenInGen := 0) }

  function Documents(cache: map<NodeId, NodeInfo>): map<NodeId, NodeInfo> {
    map id | id in cache :: Document(cache[id])
  }

  datatype Service = Service(cache: map<NodeId, NodeInfo>, walkGen: nat, index: map<NodeId, NodeInfo>)

  /** What one discoverNodes meets: rejected are the nodes batch.Index refuses,
      batchOk says whether the batch is executed. */
  datatype Round = Round(connected: bool, server: Server, rejected: set<NodeId>, batchOk: bool)

  datatype Config = Config(root: NodeId, maxDepth: int, maxNodes: int, enableSearch: bool)

  function WalkEnv(c: Config, s: Service, r: Round): Env {
    Env(r.server, c.maxDepth, c.maxNodes, s.walkGen + 1)
  }

  /** The cache when the walk is over and nothing has been swept. */
  function Walked(c: Config, s: Service, r: Round): Walk {
    WalkNode(Walk(s.cache, {}, []), WalkEnv(c, s, r), c.root, None, 0).0
  }

  function Fresh(cache: map<NodeId, NodeInfo>, gen: nat): map<NodeId, NodeInfo> {
    map id | id in cache && cache[id].seenInGen == gen :: cache[id]
  }

  function Discover(c: Config, s: Service, r: Round): Service {
    if !r.connected then s
    else
      var walked := Walked(c, s, r).cache;
      var kept := Fresh(walked, s.walkGen + 1);
      var swept := walked.Keys - kept.Keys;
      Service(kept, s.walkGen + 1,
              if c.enableSearch && r.batchOk then s.index + Documents(kept - r.rejected) - swept else s.index)
  }

  /** A history of discoverNodes calls. */
  function Rounds(c: Config, s: Service, rounds: seq<Round>): Service
    decreases |rounds|
  {
    if rounds == [] then s else Rounds(c, Discover(c, s, rounds[0]), rounds[1..])
  }
}
