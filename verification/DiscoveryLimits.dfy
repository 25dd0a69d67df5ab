/** What a walk does within its limits, whatever fails: which references it follows
    and which nodes it goes on to browse. */
module DiscoveryLimits {
  import opened Wrappers
  import opened Discovery
  import opened DiscoveryProofs

  /** Everything a node in done refers to, within the limit, has been seen. */
  ghost predicate AllFollowed(env: Env, w: Walk, done: set<NodeId>) {
    forall a, b | a in done && Edge(env, a, b) :: Current(env, w, b)
  }

  lemma {:induction false} WalkFollows(w: Walk, env: Env, node: NodeId, parent: Option<NodeId>, depth: nat)
    ensures var w' := WalkNode(w, env, node, parent, depth).0; AllFollowed(env, w', w'.visited - w.visited)
    decreases Fuel(env, depth), 1, 0
  {
    if depth <= env.maxDepth && node !in w.visited {
      var v := Visit(w, env, node);
      FollowsTaken(env, node);
      WalkRefsFollow(v, env, Taken(env, node), parent, depth);
      var w' := WalkNode(w, env, node, parent, depth).0;
      assert w'.visited - w.visited <= (w'.visited - v.visited) + {node};
    }
  }

  lemma {:induction false} WalkRefsFollow(w: Walk, env: Env, refs: seq<Ref>, parent: Option<NodeId>, depth: nat)
    requires depth <= env.maxDepth
    ensures var w' := WalkRefs(w, env, refs, parent, depth).0;
            && (forall i | 0 <= i < |refs| :: Current(env, w', refs[i].node))
            && AllFollowed(env, w', w'.visited - w.visited)
    decreases Fuel(env, depth), 0, |refs|
  {
    if refs != [] {
      var u := Upsert(w, env, refs[0], parent, depth);
      var child := refs[0].node;
      var w1 := WalkNode(u, env, child, Some(child), depth + 1).0;
      WalkFollows(u, env, child, Some(child), depth + 1);
      WalkGrows(u, env, child, Some(child), depth + 1);
      WalkRefsFollow(w1, env, refs[1..], parent, depth);
      WalkRefsGrow(w1, env, refs[1..], parent, depth);
      var w' := WalkRefs(w, env, refs, parent, depth).0;
      assert forall i | 0 < i < |refs| :: refs[i] == refs[1..][i - 1];
      assert w'.visited - w.visited == (w'.visited - w1.visited) + (w1.visited - w.visited);
    }
  }

  /** Every node seen above the depth limit has been browsed, but for one. */
  ghost predicate DeepBut(env: Env, w: Walk, but: set<NodeId>) {
    forall n | Current(env, w, n) && w.cache[n].depth < env.maxDepth && n !in but :: n in w.visited
  }

  lemma {:induction false} WalkGoesDown(w: Walk, env: Env, node: NodeId, parent: Option<NodeId>, depth: nat)
    requires DeepBut(env, w, if depth <= env.maxDepth then {node} else {})
    ensures DeepBut(env, WalkNode(w, env, node, parent, depth).0, {})
    decreases Fuel(env, depth), 1, 0
  {
    if depth <= env.maxDepth && node !in w.visited {
      WalkRefsGoDown(Visit(w, env, node), env, Taken(env, node), parent, depth);
    }
  }

  lemma {:induction false} WalkRefsGoDown(w: Walk, env: Env, refs: seq<Ref>, parent: Option<NodeId>, depth: nat)
    requires depth <= env.maxDepth && DeepBut(env, w, {})
    ensures DeepBut(env, WalkRefs(w, env, refs, parent, depth).0, {})
    decreases Fuel(env, depth), 0, |refs|
  {
    if refs != [] {
      var u := Upsert(w, env, refs[0], parent, depth);
      var child := refs[0].node;
      WalkGoesDown(u, env, child, Some(child), depth + 1);
      WalkRefsGoDown(WalkNode(u, env, child, Some(child), depth + 1).0, env, refs[1..], parent, depth);
    }
  }

  /** Nothing is browsed but the root and what the walk has seen. */
  predicate OnlySeen(env: Env, root: NodeId, w: Walk) { forall n | n in w.visited :: n == root || Current(env, w, n) }

  lemma {:induction false} WalkBrowsesSeen(w: Walk, env: Env, root: NodeId, node: NodeId, parent: Option<NodeId>,
                                           depth: nat)
    requires OnlySeen(env, root, w) && (node == root || Current(env, w, node))
    ensures OnlySeen(env, root, WalkNode(w, env, node, parent, depth).0)
    decreases Fuel(env, depth), 1, 0
  {
    if depth <= env.maxDepth && node !in w.visited {
      WalkRefsBrowseSeen(Visit(w, env, node), env, root, Taken(env, node), parent, depth);
    }
  }

  lemma {:induction false} WalkRefsBrowseSeen(w: Walk, env: Env, root: NodeId, refs: seq<Ref>,
                                              parent: Option<NodeId>, depth: nat)
    requires depth <= env.maxDepth && OnlySeen(env, root, w)
    ensures OnlySeen(env, root, WalkRefs(w, env, refs, parent, depth).0)
    decreases Fuel(env, depth), 0, |refs|
  {
    if refs != [] {
      var u := Upsert(w, env, refs[0], parent, depth);
      var child := refs[0].node;
      WalkBrowsesSeen(u, env, root, child, Some(child), depth + 1);
      WalkRefsBrowseSeen(WalkNode(u, env, child, Some(child), depth + 1).0, env, root, refs[1..], parent, depth);
    }
  }

  /** Of every node a walk browses, the first maxNodes references the server answers
      with are cached afterwards. */
  lemma FirstReferencesAreFollowed(c: Config, s: Service, r: Round, a: NodeId, refs: seq<Ref>, i: nat)
    requires r.connected && a in Walked(c, s, r).visited && Gives(r.server, a, refs) && i < |refs| && i < c.maxNodes
    ensures refs[i].node in Discover(c, s, r).cache
  {
    var (env, w) := (WalkEnv(c, s, r), Walked(c, s, r));
    GivesIsReferences(r.server, a, refs);
    WalkFollows(Walk(s.cache, {}, []), env, c.root, None, 0);
    assert a in w.visited - {} && Edge(env, a, refs[i].node);
  }

  /** And it browses, unless the depth limit forbids even that, the root and exactly
      those nodes: every one found above the depth limit, and none it has not found. */
  lemma FoundNodesAreBrowsed(c: Config, s: Service, r: Round, n: NodeId)
    requires Swept(s) && r.connected
    ensures c.maxDepth >= 0 ==> c.root in Walked(c, s, r).visited
    ensures n in Discover(c, s, r).cache && Discover(c, s, r).cache[n].depth < c.maxDepth
            ==> n in Walked(c, s, r).visited
    ensures n in Walked(c, s, r).visited ==> n == c.root || n in Discover(c, s, r).cache
  {
    var (env, w0) := (WalkEnv(c, s, r), Walk(s.cache, {}, []));
    WalkGoesDown(w0, env, c.root, None, 0);
    WalkBrowsesSeen(w0, env, c.root, c.root, None, 0);
    if c.maxDepth >= 0 {
      WalkRefsGrow(Visit(w0, env, c.root), env, Taken(env, c.root), None, 0);
    }
  }

  /** The number a walk reports: over the nodes it browsed, their out-degrees cut off
      at maxNodes. */
  lemma ReportsWhatItFollows(c: Config, s: Service, r: Round)
    requires Swept(s)
    ensures var (w, discovered) := WalkNode(Walk(s.cache, {}, []), WalkEnv(c, s, r), c.root, None, 0);
            discovered == Load(WalkEnv(c, s, r), w.visited)
    ensures forall a, refs | Gives(r.server, a, refs) ::
              Followed(WalkEnv(c, s, r))(a)
              == if c.maxNodes <= 0 then 0 else if |refs| <= c.maxNodes then |refs| else c.maxNodes
    ensures forall a | (forall refs :: !Gives(r.server, a, refs)) :: Followed(WalkEnv(c, s, r))(a) == 0
  {
    WalkIsSound(c, s, r);
    forall a, refs | Gives(r.server, a, refs) ensures References(r.server, a) == refs {
      GivesIsReferences(r.server, a, refs);
    }
    forall a | forall refs :: !Gives(r.server, a, refs) ensures References(r.server, a) == [] {
      GivesIsReferences(r.server, a, []);
    }
  }

  /** One node over the limit of one: its first reference is cached, and reported. */
  lemma LimitOfOne(c: Config, s: Service)
    requires Swept(s) && c.root == 0 && c.maxDepth >= 0 && c.maxNodes == 1
    ensures var r := Round(true, Server(map[0 := [Ref(1, 7), Ref(2, 8)]], map[], {}), {}, true);
            1 in Discover(c, s, r).cache
  {
    var r := Round(true, Server(map[0 := [Ref(1, 7), Ref(2, 8)]], map[], {}), {}, true);
    FoundNodesAreBrowsed(c, s, r, 0);
    FirstReferencesAreFollowed(c, s, r, 0, [Ref(1, 7), Ref(2, 8)], 0);
  }
}
