/** What a Subscribe tells its caller, exactly. */
module SubscriptionReports {
  import opened Subscriptions
  import opened SubscriptionProofs
  import opened SubscriptionRuns
  import opened SubscriptionRestore

  /** Each outcome, and when it is the one; there is no other. */
  lemma OutcomesIff(m: Manager, id: SubscriptionId, nodes: seq<NodeId>, interval: int, createdAt: int, r: Reply)
    requires Serves(m, nodes, interval, r)
    ensures var o := Subscribe(m, id, nodes, interval, createdAt, r).1;
            var open := interval in m.groups || r.subscribeOk;
            var all := Parse(nodes);
            var some := exists k | 0 <= k < |r.results| :: r.results[k].Accepted?;
            && (o.NotCreated? <==> !open)
            && (o.BadNode? <==> open && !all)
            && (o.BadNode? ==> FirstBad(nodes, o.index))
            && (o.MonitorFailed? <==> open && all && !r.monitorOk)
            && (o.NoneAccepted? <==> open && all && r.monitorOk && !some)
            && (o.PersistFailed? <==> open && all && r.monitorOk && some && !r.putOk)
            && (o.Done? <==> open && all && r.monitorOk && some && r.putOk)
  {
    ParsedPrefixIs(nodes);
    AcceptedSome(nodes, r.results);
  }

  /** The i-th node is the first that does not parse. */
  predicate FirstBad(nodes: seq<NodeId>, i: nat) {
    i < |nodes| && !nodes[i].parses && forall k | 0 <= k < i :: nodes[k].parses
  }

  lemma {:induction false} ParsedPrefixIs(nodes: seq<NodeId>)
    ensures ParsedPrefix(nodes) == |nodes| <==> Parse(nodes)
    ensures ParsedPrefix(nodes) < |nodes| ==> FirstBad(nodes, ParsedPrefix(nodes))
  {
    if nodes != [] && nodes[0].parses {
      ParsedPrefixIs(nodes[1..]);
      assert forall i | 0 < i < |nodes| :: nodes[i] == nodes[1..][i - 1];
      assert forall i | 0 <= i < |nodes[1..]| :: nodes[1..][i] == nodes[i + 1];
    }
  }

  /** A call that gets a group uses up one handle for each node before the first bad
      one, any other none; and its group is there afterwards unless the server took
      none of the nodes and nothing else holds it. */
  lemma WhatIsLeft(m: Manager, id: SubscriptionId, nodes: seq<NodeId>, interval: int, createdAt: int, r: Reply)
    requires Serves(m, nodes, interval, r)
    ensures var (m', o) := Subscribe(m, id, nodes, interval, createdAt, r);
            && m'.nextHandle == m.nextHandle + (if o.NotCreated? then 0 else if o.BadNode? then o.index else |nodes|)
            && (interval in m'.groups <==>
                !o.NotCreated? && !(o.NoneAccepted? && (interval in m.groups ==> m.groups[interval].refCount == 0)))
            && (forall i | i != interval :: i in m'.groups <==> i in m.groups)
            && (forall i | i != interval && i in m.groups :: m'.groups[i] == m.groups[i])
  {
    ParsedPrefixIs(nodes);
    AdmitRefCount(OpenGroup(m, interval), nodes, m.nextHandle, r.results);
  }

  /** How many of the first k results are accepted, or are not. */
  function Count(results: seq<ItemResult>, k: nat, accepted: bool): nat
    requires k <= |results|
  {
    if k == 0 then 0
    else Count(results, k - 1, accepted) + if results[k - 1].Accepted? == accepted then 1 else 0
  }

  lemma {:induction false} CountTail(results: seq<ItemResult>, k: nat, accepted: bool)
    requires 0 < k <= |results|
    ensures Count(results, k, accepted)
            == (if results[0].Accepted? == accepted then 1 else 0) + Count(results[1..], k - 1, accepted)
  {
    if k > 1 {
      CountTail(results, k - 1, accepted);
      assert results[1..][k - 2] == results[k - 1];
    }
  }

  /** The i-th of a sequence is behind what comes before it. */
  lemma Behind<T>(head: seq<T>, tail: seq<T>, i: nat)
    requires i < |tail|
    ensures (head + tail)[|head| + i] == tail[i]
  {
  }

  /** The accepted nodes are as many as the accepted results. */
  lemma {:induction false} AcceptedAreCounted(nodes: seq<NodeId>, results: seq<ItemResult>)
    requires |results| <= |nodes|
    ensures |AcceptedNodes(nodes, results)| == Count(results, |results|, true)
    decreases |results|
  {
    if results != [] {
      AcceptedAreCounted(nodes[1..], results[1..]);
      CountTail(results, |results|, true);
    }
  }

  /** The node of the k-th request, if accepted, comes after those accepted before. */
  lemma {:induction false} AcceptedInPlace(nodes: seq<NodeId>, results: seq<ItemResult>, k: nat)
    requires k < |results| <= |nodes| && results[k].Accepted?
    ensures var i := Count(results, k, true);
            i < |AcceptedNodes(nodes, results)| && AcceptedNodes(nodes, results)[i] == nodes[k]
    decreases |results|
  {
    if k > 0 {
      AcceptedInPlace(nodes[1..], results[1..], k - 1);
      CountTail(results, k, true);
      var head := if results[0].Accepted? then [nodes[0]] else [];
      Behind(head, AcceptedNodes(nodes[1..], results[1..]), Count(results[1..], k - 1, true));
    }
  }

  /** The same of the rejected nodes, each with its status. */
  lemma {:induction false} RejectedAreCounted(nodes: seq<NodeId>, results: seq<ItemResult>)
    requires |results| <= |nodes|
    ensures |RejectedNodes(nodes, results)| == Count(results, |results|, false)
    decreases |results|
  {
    if results != [] {
      RejectedAreCounted(nodes[1..], results[1..]);
      CountTail(results, |results|, false);
    }
  }

  lemma {:induction false} RejectedInPlace(nodes: seq<NodeId>, results: seq<ItemResult>, k: nat)
    requires k < |results| <= |nodes| && results[k].Rejected?
    ensures var i := Count(results, k, false);
            i < |RejectedNodes(nodes, results)| && RejectedNodes(nodes, results)[i] == (nodes[k], results[k].status)
    decreases |results|
  {
    if k > 0 {
      RejectedInPlace(nodes[1..], results[1..], k - 1);
      CountTail(results, k, false);
      var head := if results[0].Rejected? then [(nodes[0], results[0].status)] else [];
      Behind(head, RejectedNodes(nodes[1..], results[1..]), Count(results[1..], k - 1, false));
    }
  }
}
