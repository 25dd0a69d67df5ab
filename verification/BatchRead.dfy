/** read and readIndividually of internal/opcua/client.go: one request for all
    nodes, and one for each when the server's answer to it cannot be decoded. */
module BatchRead {

  /** A node id, and whether gopcua's parser accepts it. */
  datatype NodeId = NodeId(name: nat, parses: bool)

  /** What one request comes back with: values, a stale session, or some other
      error. */
  datatype Answer<V> = Values(values: seq<V>) | StaleSession | Undecodable

  /** One node's result; Bad is the made-up bad-decoding status. */
  datatype Result<V> = Got(value: V) | Bad

  datatype Failure = NotConnected | InvalidNode(index: nat) | RequestStale | RequestFailed

  datatype Outcome<V> = Read(results: seq<Result<V>>) | Failed(why: Failure)

  /** What reading a node alone makes of it. */
  function Alone<V>(a: Answer<V>): Result<V> {
    if a.Values? && a.values != [] then Got(a.values[0]) else Bad
  }

  /** Before which nodes the client pauses: the first, and any that follows one
      that failed. */
  predicate Pauses<V(==)>(alone: seq<Answer<V>>, i: nat)
    requires i < |alone|
  {
    i == 0 || Alone(alone[i - 1]) == Bad
  }

  /** Whether the nodes are read one by one. */
  predicate FallsBack<V(==)>(nodes: seq<NodeId>, batch: Answer<V>) { batch.Undecodable? && |nodes| > 1 }

  predicate AllParse(nodes: seq<NodeId>) { forall i | 0 <= i < |nodes| :: nodes[i].parses }

  /** alone[i] is what the server answers when node i is read by itself. */
  method ReadIndividually<V(==)>(alone: seq<Answer<V>>) returns (results: seq<Result<V>>, pausedAt: seq<nat>)
    ensures |results| == |alone| && forall i | 0 <= i < |alone| :: results[i] == Alone(alone[i])
    ensures forall i :: i in pausedAt <==> 0 <= i < |alone| && Pauses(alone, i)
  {
    results, pausedAt := [], [];
    var needsPause := true;
    for i := 0 to |alone|
      invariant |results| == i && forall k | 0 <= k < i :: results[k] == Alone(alone[k])
      invariant needsPause <==> i == 0 || Alone(alone[i - 1]) == Bad
      invariant forall k :: k in pausedAt <==> 0 <= k < i && Pauses(alone, k)
    {
      if needsPause {
        pausedAt := pausedAt + [i];
        needsPause := false;
      }
      if !alone[i].Values? || alone[i].values == [] {
        needsPause := true;
        results := results + [Bad];
      } else {
        results := results + [Got(alone[i].values[0])];
      }
    }
  }

  /** The whole of read, as its caller sees it. */
  function ReadOutcome<V>(connected: bool, nodes: seq<NodeId>, batch: Answer<V>, alone: seq<Answer<V>>): Outcome<V>
    requires |alone| == |nodes|
  {
    if !connected then Failed(NotConnected)
    else if FirstInvalid(nodes) < |nodes| then Failed(InvalidNode(FirstInvalid(nodes)))
    else
      match batch
      case Values(values) => Read(seq(|values|, i requires 0 <= i < |values| => Got(values[i])))
      case StaleSession => Failed(RequestStale)
      case Undecodable =>
        if |nodes| <= 1 then Failed(RequestFailed)
        else Read(seq(|alone|, i requires 0 <= i < |alone| => Alone(alone[i])))
  }

  function FirstInvalid(nodes: seq<NodeId>): (i: nat)
    ensures i <= |nodes| && (i < |nodes| ==> !nodes[i].parses) && forall k | 0 <= k < i :: nodes[k].parses
  {
    if nodes == [] || !nodes[0].parses then 0 else 1 + FirstInvalid(nodes[1..])
  }

  /** Each failure, and when it is reported; there is no other. */
  lemma FailuresIff<V>(connected: bool, nodes: seq<NodeId>, batch: Answer<V>, alone: seq<Answer<V>>)
    requires |alone| == |nodes|
    ensures var o := ReadOutcome(connected, nodes, batch, alone);
            && (o == Failed(NotConnected) <==> !connected)
            && (forall i: nat :: o == Failed(InvalidNode(i)) <==>
                  connected && i < |nodes| && !nodes[i].parses && forall k | 0 <= k < i :: nodes[k].parses)
            && (o == Failed(RequestStale) <==> connected && AllParse(nodes) && batch.StaleSession?)
            && (o == Failed(RequestFailed) <==> connected && AllParse(nodes) && batch.Undecodable? && |nodes| <= 1)
            && (o.Read? <==> connected && AllParse(nodes) && (batch.Values? || FallsBack(nodes, batch)))
  {
  }

  /** A batch the server answers is passed on as it is, in its order. */
  lemma GoodBatchesPass<V>(nodes: seq<NodeId>, values: seq<V>, alone: seq<Answer<V>>)
    requires |alone| == |nodes| && AllParse(nodes)
    ensures var o := ReadOutcome(true, nodes, Values(values), alone);
            o.Read? && |o.results| == |values| && forall i | 0 <= i < |values| :: o.results[i] == Got(values[i])
  {
  }

  /** A node the server cannot send costs its own result and no other's. */
  lemma BadNodesCostThemselves<V>(connected: bool, nodes: seq<NodeId>, batch: Answer<V>, alone: seq<Answer<V>>, i: nat)
    requires |alone| == |nodes| && i < |nodes| && FallsBack(nodes, batch)
    requires ReadOutcome(connected, nodes, batch, alone).Read?
    ensures var results := ReadOutcome(connected, nodes, batch, alone).results;
            && |results| == |nodes| && (results[i] == Bad <==> !(alone[i].Values? && alone[i].values != []))
            && (alone[i].Values? && alone[i].values != [] ==> results[i] == Got(alone[i].values[0]))
  {
  }

  /** The server says, to a request that is made, that the session is stale. */
  predicate GetsStale<V(==)>(nodes: seq<NodeId>, batch: Answer<V>, alone: seq<Answer<V>>) {
    batch.StaleSession? || (FallsBack(nodes, batch) && exists i | 0 <= i < |alone| :: alone[i].StaleSession?)
  }

  /** A stale session is to reach the caller, so that the connection can be
      recovered. It does exactly when the batch request is the one it is reported
      to. */
  lemma StaleIsReportedIff<V>(nodes: seq<NodeId>, batch: Answer<V>, alone: seq<Answer<V>>)
    requires |alone| == |nodes| && AllParse(nodes) && GetsStale(nodes, batch, alone)
    ensures ReadOutcome(true, nodes, batch, alone) == Failed(RequestStale) <==> batch.StaleSession?
    ensures forall i | 0 <= i < |nodes| && !batch.StaleSession? && alone[i].StaleSession? ::
              ReadOutcome(true, nodes, batch, alone).Read? && ReadOutcome(true, nodes, batch, alone).results[i] == Bad
  {
  }

  /** The session goes stale after the batch: both nodes look bad, and the read
      succeeds. */
  lemma StaleIsHidden<V>(a: NodeId, b: NodeId)
    requires a.parses && b.parses
    ensures var alone := [StaleSession, StaleSession];
            && GetsStale<V>([a, b], Undecodable, alone)
            && ReadOutcome<V>(true, [a, b], Undecodable, alone) == Read([Bad, Bad])
  {
    var alone: seq<Answer<V>> := [StaleSession, StaleSession];
    assert alone[0].StaleSession?;
    assert ReadOutcome<V>(true, [a, b], Undecodable, alone).results == [Bad, Bad];
  }

  /** read, with the number of requests it makes. */
  method ReadNodes<V(==)>(connected: bool, nodes: seq<NodeId>, batch: Answer<V>, alone: seq<Answer<V>>)
    returns (outcome: Outcome<V>, requests: nat)
    requires |alone| == |nodes|
    ensures outcome == ReadOutcome(connected, nodes, batch, alone)
    ensures requests == if !connected || !AllParse(nodes) then 0 else if FallsBack(nodes, batch) then 1 + |nodes| else 1
  {
    if !connected {
      return Failed(NotConnected), 0;
    }
    for i := 0 to |nodes|
      invariant forall k | 0 <= k < i :: nodes[k].parses
    {
      if !nodes[i].parses {
        return Failed(InvalidNode(i)), 0;
      }
    }
    match batch
    case Values(values) =>
      return Read(seq(|values|, i requires 0 <= i < |values| => Got(values[i]))), 1;
    case StaleSession =>
      return Failed(RequestStale), 1;
    case Undecodable =>
      if |nodes| > 1 {
        var results, _ := ReadIndividually(alone);
        assert results == seq(|alone|, i requires 0 <= i < |alone| => Alone(alone[i]));
        return Read(results), 1 + |nodes|;
      }
      return Failed(RequestFailed), 1;
  }
}
