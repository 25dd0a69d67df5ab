/** A batched read inside the session recovery that is to look after it: what the
    read says of a stale session decides whether the connection is replaced. */
module ReadRecovery {
  import Connection
  import ConnectionProofs
  import BatchRead

  /** The outcome of one attempt, as withSessionRecovery sees it. */
  function Seen<V>(o: BatchRead.Outcome<V>): Connection.Outcome {
    match o
    case Read(_) => Connection.Ok
    case Failed(RequestStale) => Connection.Stale
    case Failed(_) => Connection.Failed
  }

  /** The call's state once its read has come back so. */
  function After<V>(s: Connection.State, id: Connection.CallId, o: BatchRead.Outcome<V>): Connection.State
    requires Connection.StepEnabled(s, id, Connection.Answer(Seen(o)))
  {
    Connection.StepCall(s, id, Connection.Answer(Seen(o)))
  }

  /** Told by the server that the session is stale, a read on its first attempt goes
      on to replace the connection exactly when it was the batch request that was
      told. Otherwise it is over, and counts as a success. */
  lemma StaleIsRecoveredIff<V>(s: Connection.State, id: Connection.CallId, nodes: seq<BatchRead.NodeId>,
                               batch: BatchRead.Answer<V>, alone: seq<BatchRead.Answer<V>>)
    requires id in s.calls && s.calls[id].op.Read? && s.calls[id].pc.Rpc? && s.calls[id].attempts == []
    requires |alone| == |nodes| && BatchRead.AllParse(nodes) && BatchRead.GetsStale(nodes, batch, alone)
    ensures var k := After(s, id, BatchRead.ReadOutcome(true, nodes, batch, alone)).calls[id];
            && (k.recovering && k.pc.Lock? <==> batch.StaleSession?)
            && (!batch.StaleSession? ==> k.pc == Connection.Finished(true))
  {
    BatchRead.StaleIsReportedIff(nodes, batch, alone);
  }

  /** A call that is over stays so: it dials no more. */
  lemma {:induction false} OverStaysOver(s: Connection.State, ls: seq<Connection.Label>, t: Connection.State,
                                         id: Connection.CallId)
    requires Connection.Inv(s) && id in s.calls && s.calls[id].pc.Finished? && Connection.Runs(s, ls, t)
    ensures id in t.calls && t.calls[id] == s.calls[id]
    decreases |ls|
  {
    if ls != [] {
      ConnectionProofs.ApplyPreserves(s, ls[0]);
      OverMeansDisabled(s, ls[0], id);
      OverStaysOver(Connection.Apply(s, ls[0]), ls[1..], t, id);
    }
  }

  lemma OverMeansDisabled(s: Connection.State, l: Connection.Label, id: Connection.CallId)
    requires Connection.Inv(s) && id in s.calls && s.calls[id].pc.Finished? && Connection.Enabled(s, l)
    ensures var t := Connection.Apply(s, l); id in t.calls && t.calls[id] == s.calls[id]
  {
    if l.Step? {
      assert ConnectionProofs.Base(s, l.id);
      ConnectionProofs.StepIsGentle(s, l.id, l.choice);
    }
  }

  /** So a session that goes stale while the nodes are read one by one is recovered
      by no later step of that call, in any interleaving. */
  lemma HiddenStaleIsNeverRecovered<V>(s: Connection.State, id: Connection.CallId, nodes: seq<BatchRead.NodeId>,
                                       alone: seq<BatchRead.Answer<V>>, ls: seq<Connection.Label>, t: Connection.State)
    requires ConnectionProofs.Reachable(s)
    requires id in s.calls && s.calls[id].op.Read? && s.calls[id].pc.Rpc? && s.calls[id].attempts == []
    requires |alone| == |nodes| && BatchRead.AllParse(nodes) && BatchRead.GetsStale(nodes, BatchRead.Undecodable, alone)
    requires Connection.Runs(After(s, id, BatchRead.ReadOutcome(true, nodes, BatchRead.Undecodable, alone)), ls, t)
    ensures id in t.calls && t.calls[id].pc == Connection.Finished(true)
    ensures !t.calls[id].recovering
  {
    ConnectionProofs.ReachableInv(s);
    assert Connection.CallOk(s, id);
    var o := BatchRead.ReadOutcome(true, nodes, BatchRead.Undecodable, alone);
    StaleIsRecoveredIff(s, id, nodes, BatchRead.Undecodable, alone);
    ConnectionProofs.StepPreserves(s, id, Connection.Answer(Seen(o)));
    OverStaysOver(After(s, id, o), ls, t, id);
  }
}
