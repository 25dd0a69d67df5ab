/** What the protocol promises in every interleaving of any number of calls. */
module ConnectionSafety {
  import opened Connection
  import opened ConnectionProofs

  // ---- Recovery ---------------------------------------------------------------

  /** Recovery only ever dials over the connection the caller failed on: that
      connection is still the published one, and still open. */
  lemma RecoveryHitsFailedConnection(s: State, id: CallId)
    requires Reachable(s)
    requires id in s.calls && s.calls[id].recovering && s.calls[id].pc.Bump?
    ensures s.calls[id].attempts != []
    ensures Live(s, s.calls[id].attempts[|s.calls[id].attempts| - 1].conn)
    ensures s.calls[id].attempts[|s.calls[id].attempts| - 1].conn !in s.closed
  {
    ReachableInv(s);
    assert CallOk(s, id);
  }

  /** However many calls fail on one generation, recovery dials for it once,
      whether or not that dial succeeds. */
  lemma OneRecoveryDialPerGeneration(s: State, gen: Gen)
    requires Reachable(s)
    ensures s.recoveryDials[gen] <= 1
  {
    ReachableInv(s);
  }

  /** A read makes at most two attempts, the second only after a stale first; a
      write or a probe makes at most one, a connect or disconnect none. */
  lemma AttemptsAreBounded(s: State, id: CallId)
    requires Reachable(s) && id in s.calls
    ensures var k := s.calls[id];
            && (|k.attempts| <= match k.op case Read => 2 case Write => 1 case Ensure => 1 case _ => 0)
            && (|k.attempts| == 2 ==> k.attempts[0].outcome.Stale?)
  {
    ReachableInv(s);
    assert CallOk(s, id);
  }

  // ---- Ownership of connections -----------------------------------------------

  /** A connected client's connection was never closed, and with connectMu free
      every other connection ever dialed has been. */
  lemma EveryRetiredConnectionIsClosed(s: State, conn: Conn)
    requires Reachable(s) && conn in s.dialedAt
    ensures Live(s, conn) ==> conn !in s.closed
    ensures s.connectMu.None? ==> (conn in s.closed <==> !Live(s, conn))
  {
    ReachableInv(s);
  }

  /** The steps that can take the connection away. */
  predicate LosesConnection(s: State, l: Label) {
    && l.Step? && l.id in s.calls
    && (s.calls[l.id].pc.Retire? || (s.calls[l.id].pc.Swap? && s.calls[l.id].pc.dialed.None?))
  }

  /** A dial started by Connect, by EnsureConnected on an unconnected client, or
      by the watcher's callback. */
  predicate DialsOutsideRecovery(s: State, l: Label) {
    l.Step? && l.id in s.calls && s.calls[l.id].pc.Bump? && !s.calls[l.id].recovering
  }

  ghost predicate NoLoss(s: State, ls: seq<Label>)
    decreases |ls|
  {
    ls == [] || (Enabled(s, ls[0]) && !LosesConnection(s, ls[0]) && NoLoss(Apply(s, ls[0]), ls[1..]))
  }

  /** While nobody disconnects and no dial fails, no snapshot ever finds the
      client unconnected, however many reconnects go on. */
  lemma {:induction false} NoTransientDisconnect(s: State, ls: seq<Label>, t: State)
    requires Inv(s) && s.connected && Runs(s, ls, t) && NoLoss(s, ls)
    ensures t.connected && t.client.Some?
    decreases |ls|
  {
    if ls != [] {
      ApplyPreserves(s, ls[0]);
      StaysConnected(s, ls[0]);
      NoTransientDisconnect(Apply(s, ls[0]), ls[1..], t);
    }
  }

  lemma StaysConnected(s: State, l: Label)
    requires s.connected && Enabled(s, l) && !LosesConnection(s, l)
    ensures Apply(s, l).connected
  {
  }

  // ---- Disconnect -------------------------------------------------------------

  /** Not connected, and nobody is about to change that. */
  predicate Quiet(s: State) { !s.connected && !InDial(s) }

  /** The labels lead from s to t, and only recovery may dial on the way. */
  ghost predicate Calm(s: State, ls: seq<Label>, t: State)
    decreases |ls|
  {
    if ls == [] then s == t
    else Enabled(s, ls[0]) && !DialsOutsideRecovery(s, ls[0]) && Calm(Apply(s, ls[0]), ls[1..], t)
  }

  /** One step while disconnected: no dial is recorded, and a generation that no
      dial was started for stays so. */
  ghost predicate NothingDialed(s: State, t: State) {
    && Quiet(t) && t.dialGens == s.dialGens && t.recoveryDials == s.recoveryDials && t.dialedAt == s.dialedAt
    && (s.connGen !in s.dialGens ==> t.connGen !in t.dialGens)
  }

  lemma QuietCall(s: State, id: CallId, choice: Choice)
    requires Base(s, id) && Quiet(s) && StepEnabled(s, id, choice) && !DialsOutsideRecovery(s, Step(id, choice))
    requires forall g | g in s.dialGens :: g <= s.connGen
    ensures NothingDialed(s, StepCall(s, id, choice))
  {
    var pc := s.calls[id].pc;
    if pc.Retire? || !HoldsLock(pc) {
      assert !Dialing(StepCall(s, id, choice).calls[id].pc);
    }
  }

  lemma QuietSignal(s: State, l: Label)
    requires Quiet(s) && Enabled(s, l) && !l.Step?
    requires s.connectMu.Some? ==> s.connectMu.value in s.calls
    ensures NothingDialed(s, Apply(s, l))
  {
    var t := Apply(s, l);
    assert forall id | id in s.calls :: id in t.calls && t.calls[id] == s.calls[id];
  }

  lemma QuietStep(s: State, l: Label)
    requires Inv(s) && Quiet(s) && Enabled(s, l) && !DialsOutsideRecovery(s, l)
    ensures NothingDialed(s, Apply(s, l))
  {
    if l.Step? {
      assert Base(s, l.id);
      QuietCall(s, l.id, l.choice);
    } else {
      QuietSignal(s, l);
    }
  }

  lemma {:induction false} QuietRun(s: State, ls: seq<Label>, t: State)
    requires Inv(s) && Quiet(s) && Calm(s, ls, t)
    ensures Inv(t) && Quiet(t)
    ensures t.dialGens == s.dialGens && t.recoveryDials == s.recoveryDials && t.dialedAt == s.dialedAt
    decreases |ls|
  {
    if ls != [] {
      QuietStep(s, ls[0]);
      ApplyPreserves(s, ls[0]);
      QuietRun(Apply(s, ls[0]), ls[1..], t);
    }
  }

  /** Recovery never undoes a Disconnect. From the moment one retires the
      connection, as long as neither a Connect nor an EnsureConnected nor the
      watcher's callback starts a dial, nothing is dialed, whatever generations
      recovery has read before or reads after. */
  lemma DisconnectIsNotRecovered(s: State, id: CallId, ls: seq<Label>, t: State)
    requires Reachable(s) && id in s.calls && s.calls[id].pc.Retire?
    requires Calm(StepCall(s, id, Tau), ls, t)
    ensures !t.connected && t.dialGens == s.dialGens && t.recoveryDials == s.recoveryDials && t.dialedAt == s.dialedAt
  {
    ReachableInv(s);
    assert CallOk(s, id);
    StepPreserves(s, id, Tau);
    QuietRun(StepCall(s, id, Tau), ls, t);
  }

  // ---- State forwarding -------------------------------------------------------

  lemma StepGrows(s: State, l: Label)
    requires Inv(s) && Enabled(s, l)
    ensures s.connGen <= Apply(s, l).connGen
    ensures forall c | c in s.dialedAt :: c in Apply(s, l).dialedAt && Apply(s, l).dialedAt[c] == s.dialedAt[c]
  {
    if l.Step? {
      assert Base(s, l.id);
      StepIsGentle(s, l.id, l.choice);
    }
  }

  lemma {:induction false} GenerationsOnlyGrow(s: State, ls: seq<Label>, t: State)
    requires Inv(s) && Runs(s, ls, t)
    ensures s.connGen <= t.connGen
    ensures forall c | c in s.dialedAt :: c in t.dialedAt && t.dialedAt[c] == s.dialedAt[c]
    decreases |ls|
  {
    if ls != [] {
      ApplyPreserves(s, ls[0]);
      StepGrows(s, ls[0]);
      GenerationsOnlyGrow(Apply(s, ls[0]), ls[1..], t);
    }
  }

  predicate BeingClosed(s: State, conn: Conn) {
    exists id | id in s.calls :: s.calls[id].pc.Close? && s.calls[id].pc.retired == conn
  }

  /** Once a connection is being closed or has been, no state it reports is ever
      forwarded again: the Closed of a deliberate close never looks like death. */
  lemma RetiredStatesAreDropped(s: State, conn: Conn, ls: seq<Label>, t: State, state: ConnState)
    requires Reachable(s) && (conn in s.closed || BeingClosed(s, conn)) && Runs(s, ls, t)
    ensures conn in t.dialedAt && t.connGen > t.dialedAt[conn]
    ensures ForwardState(t, t.dialedAt[conn], state) == t
  {
    ReachableInv(s);
    assert conn in s.dialedAt && s.dialedAt[conn] < s.connGen by {
      if conn !in s.closed {
        var id :| id in s.calls && s.calls[id].pc.Close? && s.calls[id].pc.retired == conn;
        assert CallOk(s, id);
      }
    }
    GenerationsOnlyGrow(s, ls, t);
  }
}
