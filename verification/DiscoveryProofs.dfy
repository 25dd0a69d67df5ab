/** What a walk finds, how it asks, and what stays in step over many walks. */
module DiscoveryProofs {
  import opened Wrappers
  import opened Sums
  import opened Discovery

  // ---- Paths ------------------------------------------------------------------

  /** The walk follows this reference when it browses a: it is among the first
      maxNodes of the server's answer. */
  predicate Follows(env: Env, a: NodeId, ref: Ref) {
    exists i | 0 <= i < |References(env.server, a)| && i < env.maxNodes :: References(env.server, a)[i] == ref
  }

  predicate Edge(env: Env, a: NodeId, b: NodeId) {
    exists i | 0 <= i < |References(env.server, a)| && i < env.maxNodes :: References(env.server, a)[i].node == b
  }

  lemma FollowsTaken(env: Env, a: NodeId)
    ensures forall i | 0 <= i < |Taken(env, a)| ::
            Follows(env, a, Taken(env, a)[i]) && Edge(env, a, Taken(env, a)[i].node)
    ensures forall b :: Edge(env, a, b) ==> exists i | 0 <= i < |Taken(env, a)| :: Taken(env, a)[i].node == b
  {
    var refs := References(env.server, a);
    assert forall i | 0 <= i < |Taken(env, a)| :: Taken(env, a)[i] == refs[i];
    forall b | Edge(env, a, b) ensures exists i | 0 <= i < |Taken(env, a)| :: Taken(env, a)[i].node == b {
      var i :| 0 <= i < |refs| && i < env.maxNodes && refs[i].node == b;
      assert Taken(env, a)[i].node == b;
    }
  }

  /** The server's answer to the browse of a that counts: the first, or for a
      critical node whose first fails the one to the retry. */
  predicate Gives(s: Server, a: NodeId, refs: seq<Ref>) {
    || (a in s.first && refs == s.first[a])
    || (a !in s.first && a in s.critical && a in s.retry && refs == s.retry[a])
  }

  lemma GivesIsReferences(s: Server, a: NodeId, refs: seq<Ref>)
    ensures Gives(s, a, refs) ==> References(s, a) == refs
    ensures (forall other :: !Gives(s, a, other)) ==> References(s, a) == []
  {
    if a in s.first { assert Gives(s, a, s.first[a]); }
    if a !in s.first && a in s.critical && a in s.retry { assert Gives(s, a, s.retry[a]); }
  }

  predicate IsPath(env: Env, p: seq<NodeId>) {
    forall i | 0 <= i < |p| - 1 :: Edge(env, p[i], p[i + 1])
  }

  /** p leads from root to node through browsed nodes. */
  predicate Leads(env: Env, p: seq<NodeId>, root: NodeId, node: NodeId, browsed: set<NodeId>) {
    && p != [] && p[0] == root && p[|p| - 1] == node && IsPath(env, p)
    && forall i | 0 <= i < |p| - 1 :: p[i] in browsed
  }

  /** The entry's depth and parent are those of a path the walk has browsed, and its
      names those of the reference it was found by. */
  ghost predicate Witnessed(env: Env, root: NodeId, browsed: set<NodeId>, node: NodeId, info: NodeInfo) {
    && info.depth <= env.maxDepth
    && exists p: seq<NodeId> ::
         && |p| == info.depth + 2 && Leads(env, p, root, node, browsed)
         && info.parent == (if info.depth == 0 then None else Some(p[|p| - 2]))
         && Follows(env, p[|p| - 2], Ref(node, info.names))
  }

  ghost predicate Sound(env: Env, root: NodeId, w: Walk) {
    forall n | n in w.cache && w.cache[n].seenInGen == env.gen :: Witnessed(env, root, w.visited, n, w.cache[n])
  }

  lemma WitnessedLater(env: Env, root: NodeId, browsed: set<NodeId>, more: set<NodeId>, node: NodeId, info: NodeInfo)
    requires Witnessed(env, root, browsed, node, info) && browsed <= more
    ensures Witnessed(env, root, more, node, info)
  {
    var p: seq<NodeId> :| |p| == info.depth + 2 && Leads(env, p, root, node, browsed)
                          && info.parent == (if info.depth == 0 then None else Some(p[|p| - 2]))
                          && Follows(env, p[|p| - 2], Ref(node, info.names));
    assert Leads(env, p, root, node, more);
  }

  /** n was seen in this walk. */
  predicate Current(env: Env, w: Walk, n: NodeId) { n in w.cache && w.cache[n].seenInGen == env.gen }

  /** Nothing is lost on the way: keys stay, entries of this walk stay entries of
      this walk, visited nodes stay visited. */
  lemma {:induction false} WalkGrows(w: Walk, env: Env, node: NodeId, parent: Option<NodeId>, depth: nat)
    ensures var w' := WalkNode(w, env, node, parent, depth).0;
            w.cache.Keys <= w'.cache.Keys && w.visited <= w'.visited
            && forall n | Current(env, w, n) :: Current(env, w', n)
    decreases Fuel(env, depth), 1, 0
  {
    if depth <= env.maxDepth && node !in w.visited {
      WalkRefsGrow(Visit(w, env, node), env, Taken(env, node), parent, depth);
    }
  }

  lemma {:induction false} WalkRefsGrow(w: Walk, env: Env, refs: seq<Ref>, parent: Option<NodeId>, depth: nat)
    requires depth <= env.maxDepth
    ensures var w' := WalkRefs(w, env, refs, parent, depth).0;
            w.cache.Keys <= w'.cache.Keys && w.visited <= w'.visited
            && forall n | Current(env, w, n) :: Current(env, w', n)
    decreases Fuel(env, depth), 0, |refs|
  {
    if refs != [] {
      var u := Upsert(w, env, refs[0], parent, depth);
      WalkGrows(u, env, refs[0].node, Some(refs[0].node), depth + 1);
      WalkRefsGrow(WalkNode(u, env, refs[0].node, Some(refs[0].node), depth + 1).0, env, refs[1..], parent, depth);
    }
  }

  /** p is how the walk came to node. */
  predicate CameBy(env: Env, root: NodeId, w: Walk, p: seq<NodeId>, node: NodeId, parent: Option<NodeId>, depth: nat) {
    && |p| == depth + 1 && Leads(env, p, root, node, w.visited)
    && parent == (if depth == 0 then None else Some(node))
  }

  lemma {:induction false} WalkSound(w: Walk, env: Env, root: NodeId, node: NodeId, parent: Option<NodeId>,
                                     depth: nat, p: seq<NodeId>)
    requires Sound(env, root, w) && CameBy(env, root, w, p, node, parent, depth)
    ensures Sound(env, root, WalkNode(w, env, node, parent, depth).0)
    decreases Fuel(env, depth), 1, 0
  {
    if depth <= env.maxDepth && node !in w.visited {
      var v := Visit(w, env, node);
      forall n | n in v.cache && v.cache[n].seenInGen == env.gen
        ensures Witnessed(env, root, v.visited, n, v.cache[n])
      {
        WitnessedLater(env, root, w.visited, v.visited, n, v.cache[n]);
      }
      FollowsTaken(env, node);
      WalkRefsSound(v, env, root, Taken(env, node), node, parent, depth, p);
    }
  }

  lemma UpsertSound(w: Walk, env: Env, root: NodeId, ref: Ref, node: NodeId, parent: Option<NodeId>, depth: nat,
                    p: seq<NodeId>)
    requires depth <= env.maxDepth && Sound(env, root, w)
    requires CameBy(env, root, w, p, node, parent, depth) && node in w.visited && Follows(env, node, ref)
    ensures Sound(env, root, Upsert(w, env, ref, parent, depth))
    ensures Leads(env, p + [ref.node], root, ref.node, w.visited)
  {
    var q := p + [ref.node];
    assert Edge(env, node, ref.node);
    assert ref == Ref(ref.node, ref.names);
    assert forall i | 0 <= i < |q| - 1 :: Edge(env, q[i], q[i + 1]) && q[i] in w.visited;
    assert q[|q| - 2] == node;
  }

  lemma {:induction false} WalkRefsSound(w: Walk, env: Env, root: NodeId, refs: seq<Ref>, node: NodeId,
                                         parent: Option<NodeId>, depth: nat, p: seq<NodeId>)
    requires depth <= env.maxDepth && Sound(env, root, w)
    requires CameBy(env, root, w, p, node, parent, depth) && node in w.visited
    requires forall i | 0 <= i < |refs| :: Follows(env, node, refs[i])
    ensures Sound(env, root, WalkRefs(w, env, refs, parent, depth).0)
    decreases Fuel(env, depth), 0, |refs|
  {
    if refs != [] {
      var u := Upsert(w, env, refs[0], parent, depth);
      var child := refs[0].node;
      UpsertSound(w, env, root, refs[0], node, parent, depth, p);
      WalkSound(u, env, root, child, Some(child), depth + 1, p + [child]);
      WalkGrows(u, env, child, Some(child), depth + 1);
      WalkRefsSound(WalkNode(u, env, child, Some(child), depth + 1).0, env, root, refs[1..], node, parent, depth, p);
    }
  }

  // ---- Requests and counts ----------------------------------------------------

  /** Each visited node has been browsed once, or twice if its first browse failed
      and it is critical; no other node has been browsed. */
  ghost predicate BrowsedOnce(env: Env, w: Walk) {
    forall n :: multiset(w.browses)[n] == if n !in w.visited then 0 else if Retries(env.server, n) then 2 else 1
  }

  function OutDegree(s: Server, n: NodeId): nat { |References(s, n)| }

  /** How many references of a node are followed: its out-degree, or maxNodes if that
      is less. */
  ghost function Followed(env: Env): NodeId -> nat {
    (n: NodeId) => if env.maxNodes <= 0 then 0
                   else if OutDegree(env.server, n) <= env.maxNodes then OutDegree(env.server, n) else env.maxNodes
  }

  /** How many references the given nodes have that are followed. */
  ghost function Load(env: Env, nodes: set<NodeId>): nat {
    Sum<NodeId, NodeId>(map n: NodeId | n in nodes :: n, Followed(env))
  }

  lemma LoadOneMore(env: Env, nodes: set<NodeId>, node: NodeId)
    requires node !in nodes
    ensures Load(env, nodes + {node}) == Load(env, nodes) + |Taken(env, node)|
  {
    var m := map n: NodeId | n in nodes :: n;
    assert (map n: NodeId | n in nodes + {node} :: n) == m[node := node];
    SumUpdate<NodeId, NodeId>(m, node, node, Followed(env));
  }

  lemma {:induction false} WalkCounts(w: Walk, env: Env, node: NodeId, parent: Option<NodeId>, depth: nat)
    requires BrowsedOnce(env, w)
    ensures var (w', discovered) := WalkNode(w, env, node, parent, depth);
            BrowsedOnce(env, w') && Load(env, w.visited) + discovered == Load(env, w'.visited)
    decreases Fuel(env, depth), 1, 0
  {
    if depth <= env.maxDepth && node !in w.visited {
      LoadOneMore(env, w.visited, node);
      WalkRefsCount(Visit(w, env, node), env, Taken(env, node), parent, depth);
    }
  }

  lemma {:induction false} WalkRefsCount(w: Walk, env: Env, refs: seq<Ref>, parent: Option<NodeId>, depth: nat)
    requires depth <= env.maxDepth && BrowsedOnce(env, w)
    ensures var (w', discovered) := WalkRefs(w, env, refs, parent, depth);
            BrowsedOnce(env, w') && Load(env, w.visited) + discovered == Load(env, w'.visited) + |refs|
    decreases Fuel(env, depth), 0, |refs|
  {
    if refs != [] {
      var u := Upsert(w, env, refs[0], parent, depth);
      WalkCounts(u, env, refs[0].node, Some(refs[0].node), depth + 1);
      WalkRefsCount(WalkNode(u, env, refs[0].node, Some(refs[0].node), depth + 1).0, env, refs[1..], parent, depth);
    }
  }

  // ---- Exactness --------------------------------------------------------------

  /** Everything a node in done refers to has been visited and seen. */
  ghost predicate Explored(env: Env, w: Walk, done: set<NodeId>) {
    forall a, b | a in done && Edge(env, a, b) :: b in w.visited && Current(env, w, b)
  }

  /** nodes holds everything it refers to, and the depth limit is no smaller than
      a path through all of it. */
  ghost predicate Spans(env: Env, nodes: set<NodeId>) {
    && (forall a, b | a in nodes && Edge(env, a, b) :: b in nodes)
    && |nodes| - 1 <= env.maxDepth
  }

  /** Every node above one on the stack has been visited, so there are at least
      depth of them: the depth limit never stops the walk short of a node it has
      not visited. */
  lemma {:induction false} WalkExplores(w: Walk, env: Env, nodes: set<NodeId>, node: NodeId, parent: Option<NodeId>,
                                        depth: nat)
    requires Spans(env, nodes) && node in nodes && w.visited <= nodes && depth <= |w.visited|
    ensures var w' := WalkNode(w, env, node, parent, depth).0;
            && node in w'.visited && w.visited <= w'.visited <= nodes
            && Explored(env, w', w'.visited - w.visited)
    decreases Fuel(env, depth), 1, 0
  {
    if node !in w.visited {
      Fewer(w.visited + {node}, nodes);
      var v := Visit(w, env, node);
      FollowsTaken(env, node);
      WalkRefsExplore(v, env, nodes, Taken(env, node), parent, depth);
      WalkRefsGrow(v, env, Taken(env, node), parent, depth);
      var w' := WalkNode(w, env, node, parent, depth).0;
      assert w'.visited - w.visited == (w'.visited - v.visited) + {node};
    }
  }

  lemma {:induction false} WalkRefsExplore(w: Walk, env: Env, nodes: set<NodeId>, refs: seq<Ref>,
                                           parent: Option<NodeId>, depth: nat)
    requires Spans(env, nodes) && w.visited <= nodes && depth + 1 <= |w.visited| && depth <= env.maxDepth
    requires forall i | 0 <= i < |refs| :: refs[i].node in nodes
    ensures var w' := WalkRefs(w, env, refs, parent, depth).0;
            && w.visited <= w'.visited <= nodes
            && (forall i | 0 <= i < |refs| :: refs[i].node in w'.visited && Current(env, w', refs[i].node))
            && Explored(env, w', w'.visited - w.visited)
    decreases Fuel(env, depth), 0, |refs|
  {
    if refs != [] {
      var u := Upsert(w, env, refs[0], parent, depth);
      var child := refs[0].node;
      var w1 := WalkNode(u, env, child, Some(child), depth + 1).0;
      WalkExplores(u, env, nodes, child, Some(child), depth + 1);
      WalkGrows(u, env, child, Some(child), depth + 1);
      Fewer(w.visited, w1.visited);
      WalkRefsExplore(w1, env, nodes, refs[1..], parent, depth);
      WalkRefsGrow(w1, env, refs[1..], parent, depth);
      var w' := WalkRefs(w, env, refs, parent, depth).0;
      assert forall i | 0 < i < |refs| :: refs[i] == refs[1..][i - 1];
      assert w'.visited - w.visited == (w'.visited - w1.visited) + (w1.visited - w.visited);
    }
  }

  /** The references of the graph itself. */
  predicate Refers(s: Server, a: NodeId, b: NodeId) {
    a in s.first && exists i | 0 <= i < |s.first[a]| :: s.first[a][i].node == b
  }

  /** node can be reached from root along one or more references. */
  ghost predicate Reaches(s: Server, root: NodeId, node: NodeId) {
    exists p: seq<NodeId> ::
      && |p| >= 2 && p[0] == root && p[|p| - 1] == node
      && forall i | 0 <= i < |p| - 1 :: Refers(s, p[i], p[i + 1])
  }

  /** A finite graph around root that browses without failure and within limits. */
  ghost predicate Answers(c: Config, s: Server, nodes: set<NodeId>) {
    && c.root in nodes
    && (forall a | a in nodes :: a in s.first && |s.first[a]| <= c.maxNodes)
    && (forall a, b | a in nodes && Refers(s, a, b) :: b in nodes)
    && |nodes| - 1 <= c.maxDepth
  }

  /** Between walks. */
  ghost predicate Swept(s: Service) { forall id | id in s.cache :: s.cache[id].seenInGen == s.walkGen }

  lemma EdgesAreReferences(c: Config, env: Env, nodes: set<NodeId>)
    requires Answers(c, env.server, nodes) && env.maxNodes == c.maxNodes && env.maxDepth == c.maxDepth
    ensures forall a, b | a in nodes :: Edge(env, a, b) <==> Refers(env.server, a, b)
    ensures Spans(env, nodes)
  {
    forall a | a in nodes ensures Taken(env, a) == env.server.first[a] { }
  }

  lemma StartIsSound(c: Config, s: Service, r: Round)
    requires Swept(s)
    ensures var env := WalkEnv(c, s, r);
            Sound(env, c.root, Walked(c, s, r))
  {
    var env := WalkEnv(c, s, r);
    var w0 := Walk(s.cache, {}, []);
    assert CameBy(env, c.root, w0, [c.root], c.root, None, 0);
    WalkSound(w0, env, c.root, c.root, None, 0, [c.root]);
  }

  lemma {:induction false} PathIsExplored(s: Server, env: Env, w: Walk, p: seq<NodeId>, nodes: set<NodeId>, k: nat)
    requires Explored(env, w, w.visited) && w.visited <= nodes
    requires forall a, b | a in nodes :: Edge(env, a, b) <==> Refers(s, a, b)
    requires p != [] && p[0] in w.visited && forall i | 0 <= i < |p| - 1 :: Refers(s, p[i], p[i + 1])
    requires k < |p|
    ensures p[k] in w.visited && (k > 0 ==> Current(env, w, p[k]))
  {
    if k > 0 {
      PathIsExplored(s, env, w, p, nodes, k - 1);
      assert Edge(env, p[k - 1], p[k]);
    }
  }

  /** The cache after a walk of a finite graph, cycles and all, with no failures
      and room enough, holds exactly the nodes reachable from the root. */
  lemma WalkIsExact(c: Config, s: Service, r: Round, nodes: set<NodeId>, node: NodeId)
    requires Swept(s) && r.connected && Answers(c, r.server, nodes)
    ensures node in Discover(c, s, r).cache <==> Reaches(r.server, c.root, node)
  {
    var env := WalkEnv(c, s, r);
    var w := Walked(c, s, r);
    EdgesAreReferences(c, env, nodes);
    WalkExplores(Walk(s.cache, {}, []), env, nodes, c.root, None, 0);
    assert w.visited - {} == w.visited;
    if Reaches(r.server, c.root, node) {
      var p: seq<NodeId> :| |p| >= 2 && p[0] == c.root && p[|p| - 1] == node
                            && forall i | 0 <= i < |p| - 1 :: Refers(r.server, p[i], p[i + 1]);
      PathIsExplored(r.server, env, w, p, nodes, |p| - 1);
    }
    if Current(env, w, node) {
      StartIsSound(c, s, r);
      var info := w.cache[node];
      var p: seq<NodeId> :| |p| == info.depth + 2 && Leads(env, p, c.root, node, w.visited)
                            && info.parent == (if info.depth == 0 then None else Some(p[|p| - 2]))
                          && Follows(env, p[|p| - 2], Ref(node, info.names));
      assert forall i | 0 <= i < |p| - 1 :: Edge(env, p[i], p[i + 1]) && p[i] in nodes;
    }
  }

  /** Under any limits and failures: what is cached after a walk was found along a
      browsed path of its depth, below its parent; each node was browsed once; and
      the walk reports as many nodes as it followed references. */
  lemma WalkIsSound(c: Config, s: Service, r: Round)
    requires Swept(s)
    ensures var env := WalkEnv(c, s, r);
            var (w, discovered) := WalkNode(Walk(s.cache, {}, []), env, c.root, None, 0);
            && (forall n | n in Fresh(w.cache, env.gen) :: Witnessed(env, c.root, w.visited, n, w.cache[n]))
            && BrowsedOnce(env, w)
            && discovered == Load(env, w.visited)
            && s.cache.Keys <= w.cache.Keys
  {
    var env := WalkEnv(c, s, r);
    var w0 := Walk(s.cache, {}, []);
    StartIsSound(c, s, r);
    assert (map n: NodeId | n in w0.visited :: n) == map[];
    assert Load(env, w0.visited) == 0;
    WalkCounts(w0, env, c.root, None, 0);
    WalkGrows(w0, env, c.root, None, 0);
  }

  // ---- Mark, sweep and index --------------------------------------------------

  lemma DiscoverSweeps(c: Config, s: Service, r: Round)
    requires Swept(s)
    ensures Swept(Discover(c, s, r))
  {
  }

  /** The sweep removes the nodes cached before the walk that it did not see. */
  lemma SweptNodes(c: Config, s: Service, r: Round)
    ensures var walked := Walked(c, s, r).cache;
            var kept := Fresh(walked, s.walkGen + 1);
            walked.Keys - kept.Keys == s.cache.Keys - kept.Keys
  {
    WalkGrows(Walk(s.cache, {}, []), WalkEnv(c, s, r), c.root, None, 0);
    WalkTouches(Walk(s.cache, {}, []), WalkEnv(c, s, r), c.root, None, 0);
  }

  /** A document tells a node's names, parent and depth, and nothing of the walk. */
  lemma DocumentsTell(a: NodeInfo, b: NodeInfo)
    ensures Document(a).names == a.names && Document(a).parent == a.parent && Document(a).depth == a.depth
    ensures Document(a) == Document(b) <==> a.names == b.names && a.parent == b.parent && a.depth == b.depth
  {
  }

  /** What a walk leaves in the index, exactly: the nodes now cached, and whatever
      was indexed without having been cached before the walk. */
  lemma IndexAfterWalk(c: Config, s: Service, r: Round)
    requires r.connected && c.enableSearch && r.batchOk && r.rejected == {}
    ensures var s' := Discover(c, s, r);
            && s'.index.Keys == s'.cache.Keys + (s.index.Keys - s.cache.Keys)
            && forall id | id in s'.cache :: s'.index[id] == Document(s'.cache[id])
  {
    SweptNodes(c, s, r);
    var kept := Fresh(Walked(c, s, r).cache, s.walkGen + 1);
    assert kept - {} == kept;
    assert Discover(c, s, r).cache == kept;
    IndexOf(s.index, kept, s.cache.Keys - kept.Keys);
    assert s.index.Keys - (s.cache.Keys - kept.Keys) + kept.Keys == kept.Keys + (s.index.Keys - s.cache.Keys);
  }

  lemma IndexOf(index: map<NodeId, NodeInfo>, kept: map<NodeId, NodeInfo>, swept: set<NodeId>)
    requires swept !! kept.Keys
    ensures var index' := index + Documents(kept) - swept;
            && index'.Keys == kept.Keys + (index.Keys - swept)
            && forall id | id in kept :: index'[id] == Document(kept[id])
  {
  }

  /** What any walk leaves in the index: with searching on and a batch that goes
      through, each cached node the batch takes, as it is cached, and whatever was
      indexed and has not been swept; otherwise what was there. Unconnected, nothing
      changes at all. */
  lemma IndexAfterAnyWalk(c: Config, s: Service, r: Round, id: NodeId)
    ensures var s' := Discover(c, s, r);
            var added := id in s'.cache && id !in r.rejected;
            var swept := id in s.cache && id !in s'.cache;
            && (!r.connected ==> s' == s)
            && (r.connected ==> s'.walkGen == s.walkGen + 1)
            && (r.connected && (!c.enableSearch || !r.batchOk) ==> s'.index == s.index)
            && (r.connected && c.enableSearch && r.batchOk ==>
                  && (id in s'.index <==> added || (id in s.index && !swept))
                  && (id in s'.index ==> s'.index[id] == if added then Document(s'.cache[id]) else s.index[id]))
  {
    if r.connected {
      SweptNodes(c, s, r);
      var walked := Walked(c, s, r).cache;
      var kept := Fresh(walked, s.walkGen + 1);
      assert id in walked.Keys - kept.Keys <==> id in s.cache.Keys - kept.Keys;
    }
  }

  /** Keys a walk adds are entries of that walk. */
  lemma {:induction false} WalkTouches(w: Walk, env: Env, node: NodeId, parent: Option<NodeId>, depth: nat)
    ensures var w' := WalkNode(w, env, node, parent, depth).0;
            forall n | n in w'.cache :: n in w.cache || Current(env, w', n)
    decreases Fuel(env, depth), 1, 0
  {
    if depth <= env.maxDepth && node !in w.visited {
      WalkRefsTouch(Visit(w, env, node), env, Taken(env, node), parent, depth);
    }
  }

  lemma {:induction false} WalkRefsTouch(w: Walk, env: Env, refs: seq<Ref>, parent: Option<NodeId>, depth: nat)
    requires depth <= env.maxDepth
    ensures var w' := WalkRefs(w, env, refs, parent, depth).0;
            forall n | n in w'.cache :: n in w.cache || Current(env, w', n)
    decreases Fuel(env, depth), 0, |refs|
  {
    if refs != [] {
      var u := Upsert(w, env, refs[0], parent, depth);
      var w1 := WalkNode(u, env, refs[0].node, Some(refs[0].node), depth + 1).0;
      WalkTouches(u, env, refs[0].node, Some(refs[0].node), depth + 1);
      WalkGrows(u, env, refs[0].node, Some(refs[0].node), depth + 1);
      WalkRefsTouch(w1, env, refs[1..], parent, depth);
      WalkRefsGrow(w1, env, refs[1..], parent, depth);
    }
  }

  /** Nothing goes wrong with the round's batch. */
  predicate Works(r: Round) { r.connected && r.batchOk && r.rejected == {} }

  /** The index holds the cached nodes, as they are cached, and nothing else. */
  predicate InStep(s: Service) { s.index == Documents(s.cache) }

  /** One walk whose batch works brings the index in step exactly when nothing is
      indexed but what was cached before it or is now. */
  lemma InStepAfterWalkIff(c: Config, s: Service, r: Round)
    requires c.enableSearch && Works(r)
    ensures InStep(Discover(c, s, r)) <==> s.index.Keys <= s.cache.Keys + Discover(c, s, r).cache.Keys
  {
    IndexAfterWalk(c, s, r);
    var s' := Discover(c, s, r);
    assert Documents(s'.cache).Keys == s'.cache.Keys;
  }

  /** A round on a server that answers no browse at all. */
  const Silent := Round(true, Server(map[], map[], {}), {}, true)

  lemma LeafFindsNothing(w: Walk, env: Env, node: NodeId, parent: Option<NodeId>, depth: nat)
    requires Taken(env, node) == []
    ensures WalkNode(w, env, node, parent, depth).0.cache == w.cache
  {
    if depth <= env.maxDepth && node !in w.visited {
      assert WalkRefs(Visit(w, env, node), env, [], parent, depth).0 == Visit(w, env, node);
    }
  }

  lemma SilentSweepsAll(c: Config, s: Service, r: Round)
    requires Swept(s) && r.connected && r.server == Silent.server
    ensures Discover(c, s, r).cache == map[]
  {
    assert Taken(WalkEnv(c, s, r), c.root) == [];
    LeafFindsNothing(Walk(s.cache, {}, []), WalkEnv(c, s, r), c.root, None, 0);
  }

  /** The next walk whose batch works brings the index in step, whatever it finds. */
  ghost predicate IsRepaired(c: Config, s: Service) { forall r | Works(r) :: InStep(Discover(c, s, r)) }

  /** That is so exactly when nothing is indexed that is not cached. */
  lemma IndexInStepIff(c: Config, s: Service)
    requires c.enableSearch && Swept(s)
    ensures IsRepaired(c, s) <==> s.index.Keys <= s.cache.Keys
  {
    if s.index.Keys <= s.cache.Keys {
      forall r | Works(r) ensures InStep(Discover(c, s, r)) { InStepAfterWalkIff(c, s, r); }
    } else {
      SilentSweepsAll(c, s, Silent);
      InStepAfterWalkIff(c, s, Silent);
      assert Works(Silent);
    }
  }

  /** A batch that fails leaves the index as it was, whatever was swept: so from an
      index in step, the next walk repairs it exactly when this one swept nothing. */
  lemma FailedBatchIff(c: Config, s: Service, failed: Round)
    requires c.enableSearch && Swept(s) && InStep(s) && failed.connected && !failed.batchOk
    ensures var s' := Discover(c, s, failed);
            && s'.index == s.index
            && (IsRepaired(c, s') <==> s.cache.Keys <= s'.cache.Keys)
  {
    DiscoverSweeps(c, s, failed);
    IndexInStepIff(c, Discover(c, s, failed));
    assert Documents(s.cache).Keys == s.cache.Keys;
  }

  ghost predicate Fails(r: Round) { r.connected && !r.batchOk }

  /** No failing batch does lasting harm exactly while there is nothing to sweep. */
  lemma FailuresAreHarmlessIff(c: Config, s: Service)
    requires c.enableSearch && Swept(s) && InStep(s)
    ensures (forall r | Fails(r) :: IsRepaired(c, Discover(c, s, r))) <==> s.cache == map[]
  {
    forall r | Fails(r) ensures IsRepaired(c, Discover(c, s, r)) <==> s.cache.Keys <= Discover(c, s, r).cache.Keys {
      FailedBatchIff(c, s, r);
    }
    var failed := Silent.(batchOk := false);
    SilentSweepsAll(c, s, failed);
    assert Fails(failed);
  }

  /** A server on which node 1 is all there is below the root, node 0. */
  const OneNode := Server(map[0 := [Ref(1, 7)]], map[], {})

  lemma WalkOneNode(c: Config, s: Service)
    requires c.root == 0 && c.maxDepth >= 0 && c.maxNodes >= 1 && s.cache == map[]
    ensures Discover(c, s, Round(true, OneNode, {}, true)).cache == map[1 := NodeInfo(7, None, 0, s.walkGen + 1)]
  {
    var env := WalkEnv(c, s, Round(true, OneNode, {}, true));
    var w := Visit(Walk(s.cache, {}, []), env, 0);
    var refs := [Ref(1, 7)];
    var u := Upsert(w, env, refs[0], None, 0);
    var below := WalkNode(u, env, 1, Some(1), 1).0;
    assert Taken(env, 0) == refs && Taken(env, 1) == [];
    LeafFindsNothing(u, env, 1, Some(1), 1);
    assert refs[1..] == [] && WalkRefs(below, env, [], None, 0).0 == below;
    assert WalkRefs(w, env, refs, None, 0).0 == below;
    assert Walked(c, s, Round(true, OneNode, {}, true)) == WalkRefs(w, env, Taken(env, 0), None, 0).0;
  }

  /** Node 1 is found and indexed; it is swept while the batch fails; and the walk
      after that, in which nothing goes wrong, leaves it indexed. */
  lemma SweptButIndexed(c: Config)
    requires c.root == 0 && c.maxDepth >= 0 && c.maxNodes >= 1 && c.enableSearch
    ensures var rounds := [Round(true, OneNode, {}, true), Silent.(batchOk := false), Silent];
            var s := Rounds(c, Service(map[], 0, map[]), rounds);
            1 in s.index && s.cache == map[]
  {
    var (r0, r1) := (Round(true, OneNode, {}, true), Silent.(batchOk := false));
    var s0 := Service(map[], 0, map[]);
    var s1 := Discover(c, s0, r0);
    var s2 := Discover(c, s1, r1);
    var s3 := Discover(c, s2, Silent);
    WalkOneNode(c, s0);
    IndexAfterWalk(c, s0, r0);
    DiscoverSweeps(c, s0, r0);
    SilentSweepsAll(c, s1, r1);
    SilentSweepsAll(c, s2, Silent);
    IndexAfterWalk(c, s2, Silent);
    assert [r0, r1, Silent][1..] == [r1, Silent] && [r1, Silent][1..] == [Silent] && [Silent][1..] == [];
    assert Rounds(c, s2, [Silent]) == Rounds(c, s3, []) == s3;
    assert Rounds(c, s0, [r0, r1, Silent]) == Rounds(c, s1, [r1, Silent]) == Rounds(c, s2, [Silent]);
  }

  predicate Good(r: Round) { r.connected ==> r.batchOk && r.rejected == {} }

  /** Over any sequence of walks every entry carries the current generation, and
      an index that starts in step stays in step as long as its batches succeed. */
  lemma {:induction false} RoundsKeepIndexInStep(c: Config, s: Service, rounds: seq<Round>)
    requires Swept(s)
    ensures Swept(Rounds(c, s, rounds))
    ensures c.enableSearch && s.index == Documents(s.cache) && (forall i | 0 <= i < |rounds| :: Good(rounds[i]))
            ==> var t := Rounds(c, s, rounds); t.index == Documents(t.cache)
    decreases |rounds|
  {
    if rounds != [] {
      var s1 := Discover(c, s, rounds[0]);
      DiscoverSweeps(c, s, rounds[0]);
      if c.enableSearch && rounds[0].connected && Good(rounds[0]) { IndexAfterWalk(c, s, rounds[0]); }
      RoundsKeepIndexInStep(c, s1, rounds[1..]);
    }
  }

  /** A node that is swept while its batch fails is indexed for good, until some
      walk finds it again. */
  lemma {:induction false} OrphansStay(c: Config, s: Service, rounds: seq<Round>, id: NodeId)
    requires Swept(s) && id in s.index && id !in s.cache
    requires forall k | 0 < k <= |rounds| :: id !in Rounds(c, s, rounds[..k]).cache
    ensures id in Rounds(c, s, rounds).index
    decreases |rounds|
  {
    if rounds != [] {
      var s1 := Discover(c, s, rounds[0]);
      assert Rounds(c, s1, []) == s1 && rounds[..1][1..] == [];
      assert id !in Rounds(c, s, rounds[..1]).cache;
      DiscoverSweeps(c, s, rounds[0]);
      if rounds[0].connected {
        WalkTouches(Walk(s.cache, {}, []), WalkEnv(c, s, rounds[0]), c.root, None, 0);
      }
      forall k | 0 < k <= |rounds[1..]| ensures id !in Rounds(c, s1, rounds[1..][..k]).cache {
        assert rounds[..k + 1][1..] == rounds[1..][..k];
        assert id !in Rounds(c, s, rounds[..k + 1]).cache;
      }
      OrphansStay(c, s1, rounds[1..], id);
    }
  }
}
