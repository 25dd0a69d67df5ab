/** The methods of Client as the code writes them, one call at a time: each
    updates the real fields, and shadows every critical section by the step of the
    protocol it is. So a call that runs without interference is one of the
    protocol's runs, and everything proved of runs holds of it. */
module Client {
  import opened Wrappers
  import opened Sums
  import opened Connection
  import opened ConnectionProofs
  import opened Watcher

  /** What a caller may rely on about the published connection. */
  lemma LiveFacts(s: State)
    requires Reachable(s)
    ensures s.connected ==> s.client.Some? && s.client.value !in s.closed
    ensures s.connectMu.None? && !s.connected && s.client.Some? ==> s.client.value in s.closed
  {
    ReachableInv(s);
  }

  datatype ConnectOutcome = AlreadyHealthy | NewlyConnected | Reconnected

  class Client {
    var client: Option<Conn>
    var connected: bool
    var clientGen: Gen
    var connGen: Gen
    ghost var sys: State  // the protocol state this object is in

    ghost predicate Valid()
      reads this
    {
      && Reachable(sys)
      && sys.client == client && sys.connected == connected
      && sys.clientGen == clientGen && sys.connGen == connGen
    }

    /** Call id is at pc, in the shape a fresh call of that kind has there. */
    ghost predicate At(id: CallId, pc: Pc)
      reads this
    {
      id in sys.calls && sys.calls[id].pc == pc
    }

    /** From s to t only call id moved. */
    static ghost predicate Moved(s: State, t: State, id: CallId) {
      && id in s.calls && id in t.calls
      && t.calls == s.calls[id := s.calls[id].(pc := t.calls[id].pc)]
    }

    static ghost predicate Others(s: State, t: State, id: CallId) {
      Moved(s, t, id) && t.connectMu == s.connectMu
    }

    constructor ()
      ensures Valid() && !connected && client.None? && sys == Init
    {
      client, connected, clientGen, connGen := None, false, 0, 0;
      sys := Init;
      new;
      assert Runs(Init, [], Init);
    }

    ghost method Enter(op: Op) returns (id: CallId)
      requires Valid() && !op.Rebuild?
      modifies this`sys
      ensures Valid() && id !in old(sys).calls && sys == old(sys).(calls := old(sys).calls[id := NewCall(op)])
    {
      id := UnusedId(sys.calls.Keys);
      sys := Reach(sys, Start(id, op));
    }

    method Snapshot() returns (current: Option<Conn>, up: bool)
      requires Valid()
      ensures current == client && up == connected
      ensures up ==> current.Some? && current.value !in sys.closed
    {
      current, up := client, connected;
      LiveFacts(sys);
    }

    // The sections of connectLocked.

    method StartDial(ghost id: CallId)
      requires Valid() && At(id, Bump)
      modifies this`connGen, this`sys
      ensures Valid() && At(id, Dial(connGen)) && connGen == old(connGen) + 1
      ensures Others(old(sys), sys, id) && sys.closed == old(sys).closed && sys.dialedAt == old(sys).dialedAt
    {
      connGen := connGen + 1;
      sys := Reach(sys, Step(id, Tau));
    }

    ghost method EndDial(id: CallId, dialed: Option<Conn>)
      requires Valid() && At(id, Dial(connGen))
      requires dialed.Some? ==> dialed.value !in sys.dialedAt
      modifies this`sys
      ensures Valid() && At(id, Swap(connGen, dialed))
      ensures Others(old(sys), sys, id) && sys.closed == old(sys).closed
      ensures sys.dialedAt == if dialed.Some? then old(sys).dialedAt[dialed.value := connGen] else old(sys).dialedAt
    {
      sys := Reach(sys, Step(id, if dialed.Some? then DialOk(dialed.value) else DialErr));
    }

    /** Everything connectLocked does before its mu section. */
    method DialNext(ghost id: CallId, dialed: Option<Conn>)
      requires Valid() && At(id, Bump)
      requires dialed.Some? ==> dialed.value !in sys.dialedAt
      modifies this`connGen, this`sys
      ensures Valid() && At(id, Swap(connGen, dialed)) && connGen == old(connGen) + 1
      ensures Others(old(sys), sys, id) && sys.closed == old(sys).closed
      ensures sys.dialedAt == if dialed.Some? then old(sys).dialedAt[dialed.value := connGen] else old(sys).dialedAt
    {
      StartDial(id);
      EndDial(id, dialed);
    }

    method Publish(ghost id: CallId, dialed: Option<Conn>) returns (retired: Option<Conn>)
      requires Valid() && At(id, Swap(connGen, dialed))
      modifies this`client, this`connected, this`clientGen, this`sys
      ensures Valid() && retired == old(client)
      ensures At(id, if retired.Some? then Close(retired.value, dialed.Some?) else Unlock(dialed.Some?))
      ensures client == dialed && connected == dialed.Some? && clientGen == connGen
      ensures Others(old(sys), sys, id) && sys.closed == old(sys).closed && sys.dialedAt == old(sys).dialedAt
    {
      retired := client;
      clientGen := connGen;
      client := dialed;
      connected := dialed.Some?;
      sys := Reach(sys, Step(id, Tau));
    }

    ghost method CloseRetired(id: CallId, retired: Conn, ok: bool)
      requires Valid() && At(id, Close(retired, ok))
      modifies this`sys
      ensures Valid() && At(id, Unlock(ok))
      ensures Others(old(sys), sys, id) && sys.closed == old(sys).closed + {retired}
      ensures sys.dialedAt == old(sys).dialedAt
    {
      sys := Reach(sys, Step(id, Tau));
    }

    ghost method AcquireLock(id: CallId, pc: Pc)
      requires Valid() && At(id, Pc.Lock) && sys.connectMu.None?
      requires pc == if sys.calls[id].recovering then CheckGen
                     else if sys.calls[id].op.Disconnect? then Retire else Bump
      modifies this`sys
      ensures Valid() && At(id, pc)
      ensures Moved(old(sys), sys, id) && sys.connectMu == Some(id) && sys.closed == old(sys).closed
      ensures sys.dialedAt == old(sys).dialedAt
    {
      sys := Reach(sys, Step(id, Tau));
    }

    /** One of the two tests recoverConnection makes under connectMu. */
    ghost method Check(id: CallId)
      requires Valid() && (At(id, CheckGen) || At(id, CheckConnected))
      modifies this`sys
      ensures Valid() && Others(old(sys), sys, id) && sys.closed == old(sys).closed && sys.dialedAt == old(sys).dialedAt
      ensures At(id, if old(sys).calls[id].pc.CheckGen? then
                       (if clientGen != sys.calls[id].gen then Unlock(true) else CheckConnected)
                     else if connected && client.Some? then Bump else Unlock(false))
    {
      sys := Reach(sys, Step(id, Tau));
    }

    /** Everything recoverConnection does under connectMu before it dials. */
    ghost method Recheck(id: CallId)
      requires Valid() && At(id, Pc.Lock) && sys.connectMu.None? && sys.calls[id].recovering
      modifies this`sys
      ensures Valid() && Moved(old(sys), sys, id) && sys.closed == old(sys).closed && sys.dialedAt == old(sys).dialedAt
      ensures At(id, if clientGen != sys.calls[id].gen then Unlock(true) else if connected then Bump else Unlock(false))
    {
      LiveFacts(sys);
      AcquireLock(id, CheckGen);
      Check(id);
      if sys.calls[id].pc.CheckConnected? {
        Check(id);
      }
    }

    ghost method ReleaseLock(id: CallId, ok: bool)
      requires Valid() && At(id, Unlock(ok))
      modifies this`sys
      ensures Valid() && sys.connectMu.None?
      ensures Moved(old(sys), sys, id)
      ensures At(id, if sys.calls[id].op.Read? && ok then Pc.Snapshot else Finished(ok && !sys.calls[id].op.Write?))
      ensures sys.closed == old(sys).closed && sys.dialedAt == old(sys).dialedAt
    {
      sys := Reach(sys, Step(id, Tau));
    }

    /** Everything connectLocked does once the dial is over. */
    method Replace(ghost id: CallId, dialed: Option<Conn>)
      requires Valid() && At(id, Swap(connGen, dialed))
      modifies this`client, this`connected, this`clientGen, this`sys
      ensures Valid() && At(id, Unlock(dialed.Some?))
      ensures client == dialed && connected == dialed.Some? && clientGen == connGen
      ensures sys.closed == old(sys).closed + (if old(client).Some? then {old(client).value} else {})
      ensures sys.dialedAt == old(sys).dialedAt && Others(old(sys), sys, id)
    {
      var retired := Publish(id, dialed);
      if retired.Some? {
        CloseRetired(id, retired.value, dialed.Some?);
      }
    }

    /** client.go, connectLocked: `dialed` is what the dialer comes back with. */
    method ConnectLocked(ghost id: CallId, dialed: Option<Conn>) returns (ok: bool)
      requires Valid() && At(id, Bump)
      requires dialed.Some? ==> dialed.value !in sys.dialedAt
      modifies this
      ensures Valid() && At(id, Unlock(ok))
      ensures ok == dialed.Some?
      ensures client == dialed && connected == ok && clientGen == connGen == old(connGen) + 1
      ensures sys.closed == old(sys).closed + (if old(client).Some? then {old(client).value} else {})
      ensures sys.dialedAt == if ok then old(sys).dialedAt[dialed.value := clientGen] else old(sys).dialedAt
      ensures Others(old(sys), sys, id)
    {
      DialNext(id, dialed);
      Replace(id, dialed);
      ok := dialed.Some?;
    }

    method Connect(dialed: Option<Conn>) returns (ok: bool)
      requires Valid() && sys.connectMu.None?
      requires dialed.Some? ==> dialed.value !in sys.dialedAt
      modifies this
      ensures Valid() && sys.connectMu.None?
      ensures ok == connected == dialed.Some? && client == dialed && clientGen == connGen == old(connGen) + 1
      ensures sys.closed == old(sys).closed + (if old(client).Some? then {old(client).value} else {})
    {
      ghost var id := Enter(Op.Connect);
      AcquireLock(id, Bump);
      ok := ConnectLocked(id, dialed);
      ReleaseLock(id, ok);
    }

    method RetireLive(ghost id: CallId) returns (live: bool)
      requires Valid() && At(id, Retire)
      modifies this`connGen, this`clientGen, this`connected, this`sys
      ensures Valid() && live == (client.Some? && old(connected))
      ensures At(id, if live then Close(client.value, true) else Unlock(true))
      ensures clientGen == connGen == old(connGen) + 1 && !connected
      ensures Others(old(sys), sys, id) && sys.closed == old(sys).closed && sys.dialedAt == old(sys).dialedAt
      ensures sys.dialGens == old(sys).dialGens
    {
      live := client.Some? && connected;
      connGen := connGen + 1;
      clientGen := connGen;
      connected := false;
      sys := Reach(sys, Step(id, Tau));
    }

    /** client.go, Disconnect: the connection is retired, then closed if it was
        live; client keeps pointing at it. */
    method Disconnect() returns (closedLive: bool)
      requires Valid() && sys.connectMu.None?
      modifies this
      ensures Valid() && sys.connectMu.None?
      ensures !connected && client == old(client) && clientGen == connGen == old(connGen) + 1
      ensures closedLive == old(connected)
      ensures client.Some? ==> client.value in sys.closed
    {
      LiveFacts(sys);
      ghost var id := Enter(Op.Disconnect);
      AcquireLock(id, Retire);
      closedLive := RetireLive(id);
      if closedLive {
        CloseRetired(id, client.value, true);
      }
      ReleaseLock(id, true);
      LiveFacts(sys);
    }

    /** session_recovery.go, recoverConnection, for the generation call id read. */
    method RecoverConnection(ghost id: CallId, gen: Gen, dialed: Option<Conn>) returns (ok: bool, dialedNow: bool)
      requires Valid() && At(id, Pc.Lock) && sys.connectMu.None? && sys.calls[id].recovering && gen == sys.calls[id].gen
      requires dialed.Some? ==> dialed.value !in sys.dialedAt
      modifies this
      ensures Valid() && sys.connectMu.None?
      ensures dialedNow == (old(clientGen) == gen && old(connected))
      ensures ok == if old(clientGen) != gen then true else old(connected) && dialed.Some?
      ensures dialedNow ==> client == dialed && connected == dialed.Some? && clientGen == connGen == old(connGen) + 1
      ensures !dialedNow ==> client == old(client) && connected == old(connected)
      ensures !dialedNow ==> clientGen == old(clientGen) && connGen == old(connGen)
      ensures sys.closed == old(sys).closed + (if dialedNow && old(client).Some? then {old(client).value} else {})
      ensures Moved(old(sys), sys, id)
      ensures At(id, if sys.calls[id].op.Read? && ok then Pc.Snapshot else Finished(ok && !sys.calls[id].op.Write?))
    {
      Recheck(id);
      dialedNow := clientGen == gen && connected;
      if clientGen != gen {
        ok := true;
      } else if !connected {
        ok := false;
      } else {
        ok := ConnectLocked(id, dialed);
      }
      ReleaseLock(id, ok);
    }

    /** One attempt on the published connection: false when there is none. */
    method Attempt(ghost id: CallId, outcome: Outcome) returns (up: bool)
      requires Valid() && At(id, Pc.Snapshot)
      modifies this`sys
      ensures Valid() && up == connected
      ensures id in sys.calls && sys == old(sys).(calls := old(sys).calls[id := sys.calls[id]])
      ensures var next := if old(sys).calls[id].op.Ensure? then Pc.Lock else Finished(false);
              !up ==> sys.calls[id] == old(sys).calls[id].(pc := next)
      ensures up ==> client.Some? && var k := old(sys).calls[id];
                     var tried := k.(attempts := k.attempts + [Connection.Attempt(client.value, outcome)]);
                     sys.calls[id] == if NeedsRecovery(k, outcome) then tried.(pc := Pc.Lock, recovering := true)
                                      else tried.(pc := Finished(outcome.Ok?))
    {
      LiveFacts(sys);
      up := connected && client.Some?;
      sys := Reach(sys, Step(id, Tau));
      if up {
        sys := Reach(sys, Step(id, Answer(outcome)));
      }
    }

    ghost method ReadGeneration(id: CallId)
      requires Valid() && At(id, ReadGen)
      modifies this`sys
      ensures Valid()
      ensures sys == old(sys).(calls := old(sys).calls[id := old(sys).calls[id].(pc := Pc.Snapshot, gen := clientGen)])
    {
      sys := Reach(sys, Step(id, Tau));
    }

    /** session_recovery.go, withSessionRecovery: first and second are what the
        server answers to the two attempts, if they are made. */
    method WithSessionRecovery(first: Outcome, dialed: Option<Conn>, second: Outcome) returns (ok: bool, attempts: nat)
      requires Valid() && sys.connectMu.None?
      requires dialed.Some? ==> dialed.value !in sys.dialedAt
      modifies this
      ensures Valid() && sys.connectMu.None?
      ensures attempts == if !old(connected) then 0 else if first.Stale? && dialed.Some? then 2 else 1
      ensures ok == (old(connected) && (first.Ok? || (first.Stale? && dialed.Some? && second.Ok?)))
      ensures if old(connected) && first.Stale? then
                client == dialed && connected == dialed.Some? && old(client).Some? && old(client).value in sys.closed
              else client == old(client) && connected == old(connected) && clientGen == old(clientGen)
    {
      LiveFacts(sys);
      ghost var id := Enter(Op.Read);
      ReadGeneration(id);
      var gen := clientGen;
      var up := Attempt(id, first);
      if !up || !first.Stale? {
        return up && first.Ok?, if up then 1 else 0;
      }
      var recovered, _ := RecoverConnection(id, gen, dialed);
      if !recovered {
        return false, 1;
      }
      var again := Attempt(id, second);
      return again && second.Ok?, 2;
    }

    /** session_recovery.go, sendWrite: a stale write reconnects but is not sent
        again; applied says the server took it. */
    method SendWrite(answer: Outcome, dialed: Option<Conn>) returns (applied: bool, requests: nat)
      requires Valid() && sys.connectMu.None?
      requires dialed.Some? ==> dialed.value !in sys.dialedAt
      modifies this
      ensures Valid() && sys.connectMu.None?
      ensures requests == (if old(connected) then 1 else 0) && applied == (old(connected) && answer.Ok?)
      ensures if old(connected) && answer.Stale? then
                client == dialed && connected == dialed.Some? && old(client).Some? && old(client).value in sys.closed
              else client == old(client) && connected == old(connected) && clientGen == old(clientGen)
    {
      LiveFacts(sys);
      ghost var id := Enter(Op.Write);
      ReadGeneration(id);
      var gen := clientGen;
      var up := Attempt(id, answer);
      if up && answer.Stale? {
        var _, _ := RecoverConnection(id, gen, dialed);
      }
      return up && answer.Ok?, if up then 1 else 0;
    }

    /** session_recovery.go, EnsureConnected: probe is what the health check of an
        existing connection comes back with. */
    method EnsureConnected(probe: Outcome, dialed: Option<Conn>) returns (outcome: ConnectOutcome, ok: bool)
      requires Valid() && sys.connectMu.None?
      requires dialed.Some? ==> dialed.value !in sys.dialedAt
      modifies this
      ensures Valid() && sys.connectMu.None?
      ensures outcome == if !old(connected) then NewlyConnected else if probe.Ok? then AlreadyHealthy else Reconnected
      ensures ok == connected
      ensures if outcome.AlreadyHealthy? then
                client == old(client) && clientGen == old(clientGen) && sys.closed == old(sys).closed
              else client == dialed && clientGen == connGen == old(connGen) + 1
                   && (old(client).Some? ==> old(client).value in sys.closed)
    {
      LiveFacts(sys);
      ghost var id := Enter(Op.Ensure);
      ReadGeneration(id);
      var gen := clientGen;
      var up := Attempt(id, probe);
      if !up {
        AcquireLock(id, Bump);
        ok := ConnectLocked(id, dialed);
        ReleaseLock(id, ok);
        return NewlyConnected, ok;
      }
      if probe.Ok? {
        return AlreadyHealthy, true;
      }
      var recovered, _ := RecoverConnection(id, gen, dialed);
      return Reconnected, recovered;
    }
  }
}
