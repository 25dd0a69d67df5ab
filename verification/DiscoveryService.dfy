/** internal/opcua/discovery.go as it is written: the walk updates nodeCache and
    the visited set in place while it recurses, the sweep deletes in place. */
module DiscoveryService {
  import opened Wrappers
  import opened Discovery

  /** The visited map one walk passes down, with a record of its requests. */
  class Visited {
    var nodes: set<NodeId>
    ghost var browses: seq<NodeId>

    constructor ()
      ensures nodes == {} && browses == []
    {
      nodes, browses := {}, [];
    }
  }

  datatype Result = Success | NotConnected | IndexFailed

  class DiscoveryService {
    const config: Config
    var nodeCache: map<NodeId, NodeInfo>
    var walkGen: nat
    var index: map<NodeId, NodeInfo>

    ghost function View(): Service
      reads this
    {
      Service(nodeCache, walkGen, index)
    }

    ghost function WalkView(visited: Visited): Walk
      reads this, visited
    {
      Walk(nodeCache, visited.nodes, visited.browses)
    }

    constructor (config: Config, persistedIndex: map<NodeId, NodeInfo>)
      ensures this.config == config && View() == Service(map[], 0, persistedIndex)
    {
      this.config := config;
      nodeCache, walkGen, index := map[], 0, persistedIndex;
    }

    method DiscoverNodeRecursive(env: Env, node: NodeId, parent: Option<NodeId>, depth: nat, visited: Visited)
      returns (discovered: nat)
      modifies this`nodeCache, visited
      ensures (WalkView(visited), discovered) == WalkNode(old(WalkView(visited)), env, node, parent, depth)
      decreases Fuel(env, depth)
    {
      if depth > env.maxDepth {
        return 0;
      }
      if node in visited.nodes {
        return 0;
      }
      visited.nodes := visited.nodes + {node};
      var references := [];
      visited.browses := visited.browses + [node];
      if node in env.server.first {
        references := env.server.first[node];
      } else if node in env.server.critical {
        visited.browses := visited.browses + [node];
        assert visited.browses == old(visited.browses) + Requests(env.server, node);
        if node !in env.server.retry {
          return 0;
        }
        references := env.server.retry[node];
      } else {
        return 0;
      }
      ghost var taken := Taken(env, node);
      ghost var start := WalkView(visited);
      assert start.browses == old(visited.browses) + Requests(env.server, node);
      discovered := 0;
      var i := 0;
      while i < |references|
        invariant i <= |taken| <= |references|
        invariant var (w, n) := WalkRefs(start, env, taken, parent, depth);
                  var (w', n') := WalkRefs(WalkView(visited), env, taken[i..], parent, depth);
                  w' == w && discovered + n' == n
      {
        if i >= env.maxNodes {
          break;
        }
        assert taken[i] == references[i] && taken[i..][1..] == taken[i + 1..];
        var ref := references[i];
        nodeCache := nodeCache[ref.node := NodeInfo(ref.names, parent, depth, env.gen)];
        var below := DiscoverNodeRecursive(env, ref.node, Some(ref.node), depth + 1, visited);
        discovered := discovered + 1 + below;
        i := i + 1;
      }
      assert taken[i..] == [];
    }

    /** The sweep: whatever this walk has not seen goes. */
    method Sweep(gen: nat) returns (swept: set<NodeId>)
      modifies this`nodeCache
      ensures nodeCache == Fresh(old(nodeCache), gen)
      ensures swept == old(nodeCache).Keys - nodeCache.Keys
    {
      swept := {};
      var todo := nodeCache.Keys;
      while exists id :: id in todo
        invariant todo <= old(nodeCache).Keys
        invariant forall id :: id in nodeCache <==>
                  id in old(nodeCache) && (id in todo || old(nodeCache)[id].seenInGen == gen)
        invariant forall id | id in nodeCache :: nodeCache[id] == old(nodeCache)[id]
        invariant swept == old(nodeCache).Keys - nodeCache.Keys
        decreases todo
      {
        var id :| id in todo;
        if nodeCache[id].seenInGen != gen {
          swept := swept + {id};
          nodeCache := nodeCache - {id};
        }
        todo := todo - {id};
      }
    }

    /** updateSearchIndex: one batch of additions and deletions. */
    method UpdateSearchIndex(swept: set<NodeId>, rejected: set<NodeId>, batchOk: bool) returns (ok: bool)
      modifies this`index
      ensures ok == batchOk
      ensures index == if batchOk then old(index) + Documents(nodeCache - rejected) - swept else old(index)
    {
      var batch: map<NodeId, NodeInfo> := map[];
      var todo := nodeCache.Keys;
      while exists id :: id in todo
        invariant todo <= nodeCache.Keys
        invariant batch.Keys == nodeCache.Keys - todo - rejected
        invariant forall id | id in batch :: batch[id] == Document(nodeCache[id])
        decreases todo
      {
        var id :| id in todo;
        if id !in rejected {
          batch := batch[id := Document(nodeCache[id])];
        }
        todo := todo - {id};
      }
      assert batch == Documents(nodeCache - rejected);
      if batchOk {
        index := index + batch - swept;
      }
      return batchOk;
    }

    /** discoverNodes, in the round it meets. */
    method DiscoverNodes(r: Round) returns (result: Result)
      modifies this
      ensures View() == Discover(config, old(View()), r)
      ensures result == if !r.connected then NotConnected
                        else if config.enableSearch && !r.batchOk then IndexFailed else Success
    {
      if !r.connected {
        return NotConnected;
      }
      walkGen := walkGen + 1;
      var visited := new Visited();
      var env := Env(r.server, config.maxDepth, config.maxNodes, walkGen);
      var _ := DiscoverNodeRecursive(env, config.root, None, 0, visited);
      var swept := Sweep(walkGen);
      if config.enableSearch {
        var ok := UpdateSearchIndex(swept, r.rejected, r.batchOk);
        if !ok {
          return IndexFailed;
        }
      }
      return Success;
    }

    /** convertSearchResults: a hit counts only if its node is cached, whatever the
        index holds. */
    method ConvertSearchResults(hits: seq<NodeId>) returns (nodes: seq<NodeInfo>)
      ensures nodes == Cached(nodeCache, hits)
    {
      nodes := [];
      for i := 0 to |hits|
        invariant nodes == Cached(nodeCache, hits[..i])
      {
        assert hits[..i + 1][..i] == hits[..i];
        if hits[i] in nodeCache {
          nodes := nodes + [nodeCache[hits[i]]];
        }
      }
      assert hits[..|hits|] == hits;
    }
  }

  /** Every cached hit, and no other, has its place among the results, in the order of
      the hits. */
  lemma {:induction false} CachedKeepsOrder(cache: map<NodeId, NodeInfo>, hits: seq<NodeId>) returns (at: seq<nat>)
    ensures |Cached(cache, hits)| == |at|
    ensures forall i :: i in at <==> 0 <= i < |hits| && hits[i] in cache
    ensures forall j, k | 0 <= j < k < |at| :: at[j] < at[k]
    ensures forall k | 0 <= k < |at| :: at[k] in at && Cached(cache, hits)[k] == cache[hits[at[k]]]
  {
    if hits == [] {
      at := [];
    } else {
      var n := |hits| - 1;
      var rest := CachedKeepsOrder(cache, hits[..n]);
      at := rest + (if hits[n] in cache then [n] else []);
      assert forall k | 0 <= k < |rest| :: rest[k] in rest && hits[..n][rest[k]] == hits[rest[k]];
      assert forall i | 0 <= i < n :: hits[..n][i] == hits[i];
      forall i ensures i in at <==> 0 <= i < |hits| && hits[i] in cache { }
    }
  }

  /** The cached nodes among the hits, in their order. */
  function Cached(cache: map<NodeId, NodeInfo>, hits: seq<NodeId>): (nodes: seq<NodeInfo>)
    ensures forall n :: n in nodes <==> exists i | 0 <= i < |hits| :: hits[i] in cache && cache[hits[i]] == n
  {
    if hits == [] then []
    else
      var last := hits[|hits| - 1];
      Cached(cache, hits[..|hits| - 1]) + (if last in cache then [cache[last]] else [])
  }
}
