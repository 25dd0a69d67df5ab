/** Whether a Disconnect stays disconnected while the user does nothing about it:
    the protocol and the watcher, its callback included, run on their own. */
module WatcherUndo {
  import opened Wrappers
  import opened Sums
  import opened Connection
  import opened ConnectionProofs
  import opened ConnectionSafety
  import opened Watcher

  /** A dial a user asked for: by Connect, or by EnsureConnected on an unconnected
      client. */
  predicate UserDials(s: State, l: Label) {
    DialsOutsideRecovery(s, l) && !s.calls[l.id].op.Rebuild?
  }

  /** The labels lead from s to t without a dial a user asked for. */
  ghost predicate Unattended(s: State, ls: seq<Label>, t: State)
    decreases |ls|
  {
    if ls == [] then s == t
    else Enabled(s, ls[0]) && !UserDials(s, ls[0]) && Unattended(Apply(s, ls[0]), ls[1..], t)
  }

  ghost predicate ComesBack(s: State) { exists ls, t :: Unattended(s, ls, t) && t.connected }

  /** The watcher's callback has been started and has not dialed yet. */
  predicate RebuildWaits(s: State) {
    exists id | id in s.calls :: s.calls[id].op.Rebuild? && (s.calls[id].pc.Lock? || s.calls[id].pc.Bump?)
  }

  /** A user's call has connectMu and is about to dial. */
  predicate UserConnects(s: State) {
    && s.connectMu.Some? && s.connectMu.value in s.calls
    && var k := s.calls[s.connectMu.value]; k.pc.Bump? && !k.recovering && !k.op.Rebuild?
  }

  lemma {:induction false} StaysRetired(s: State, ls: seq<Label>, t: State)
    requires Reachable(s) && Retired(s) && Calm(s, ls, t)
    ensures Reachable(t) && Retired(t)
    decreases |ls|
  {
    if ls != [] {
      ReachableInv(s);
      QuietStep(s, ls[0]);
      var m := Reach(s, ls[0]);
      StaysRetired(m, ls[1..], t);
    }
  }

  /** From the step of a Disconnect that retires the connection up to the next
      dial that is not recovery's, every state is retired. */
  lemma DisconnectRetires(s: State, id: CallId, ls: seq<Label>, t: State)
    requires Reachable(s) && id in s.calls && s.calls[id].pc.Retire?
    requires Calm(StepCall(s, id, Tau), ls, t)
    ensures Reachable(t) && Retired(t)
  {
    ReachableInv(s);
    assert CallOk(s, id);
    var m := Reach(s, Step(id, Tau));
    StaysRetired(m, ls, t);
  }

  // ---- The watcher's callback -------------------------------------------------

  /** What rebuild names is a callback's call. */
  predicate WatcherOk(s: State) {
    s.rebuild.Some? ==> s.rebuild.value in s.calls && s.calls[s.rebuild.value].op.Rebuild?
  }

  lemma CallsKeepOps(s: State, id: CallId, choice: Choice)
    requires Base(s, id) && StepEnabled(s, id, choice)
    ensures StepCall(s, id, choice).calls[id].op == s.calls[id].op
  {
  }

  lemma CallKeepsWatcher(s: State, id: CallId, choice: Choice)
    requires WatcherOk(s) && Base(s, id) && StepEnabled(s, id, choice)
    ensures WatcherOk(StepCall(s, id, choice))
  {
    StepIsGentle(s, id, choice);
    CallsKeepOps(s, id, choice);
    CallsLeaveSignals(s, id, choice);
  }

  lemma SignalKeepsWatcher(s: State, l: Label)
    requires WatcherOk(s) && Enabled(s, l) && !l.Step?
    ensures WatcherOk(Apply(s, l))
  {
  }

  lemma StepKeepsWatcher(s: State, l: Label)
    requires Inv(s) && WatcherOk(s) && Enabled(s, l)
    ensures WatcherOk(Apply(s, l))
  {
    if l.Step? {
      assert Base(s, l.id);
      CallKeepsWatcher(s, l.id, l.choice);
    } else {
      SignalKeepsWatcher(s, l);
    }
  }

  lemma {:induction false} WatcherOverRuns(s: State, ls: seq<Label>, t: State)
    requires Inv(s) && WatcherOk(s) && Runs(s, ls, t)
    ensures WatcherOk(t)
    decreases |ls|
  {
    if ls != [] {
      ApplyPreserves(s, ls[0]);
      StepKeepsWatcher(s, ls[0]);
      WatcherOverRuns(Apply(s, ls[0]), ls[1..], t);
    }
  }

  /** With connectMu free, an unfinished callback waits for it. */
  lemma BusyMeansWaiting(s: State)
    requires Inv(s) && WatcherOk(s) && s.connectMu.None? && !RebuildWaits(s)
    ensures WatcherIdle(s)
  {
    if s.rebuild.Some? { assert CallOk(s, s.rebuild.value); }
  }

  // ---- Coming back ------------------------------------------------------------

  lemma FirstStep(s: State, l: Label)
    requires Enabled(s, l) && !UserDials(s, l) && ComesBack(Apply(s, l))
    ensures ComesBack(s)
  {
    var ls, t :| Unattended(Apply(s, l), ls, t) && t.connected;
    assert ([l] + ls)[1..] == ls;
    assert Unattended(s, [l] + ls, t);
  }

  lemma {:induction false} CalmStart(s: State, ls: seq<Label>, m: State)
    requires Calm(s, ls, m) && ComesBack(m)
    ensures ComesBack(s)
    decreases |ls|
  {
    if ls != [] {
      CalmStart(Apply(s, ls[0]), ls[1..], m);
      FirstStep(s, ls[0]);
    }
  }

  lemma AlreadyBack(s: State)
    requires s.connected
    ensures ComesBack(s)
  {
    assert Unattended(s, [], s);
  }

  /** A callback that has connectMu can dial, and connects if the dial succeeds. */
  lemma RebuildDials(s: State, id: CallId)
    requires id in s.calls && s.calls[id].op.Rebuild? && s.calls[id].pc.Bump?
    ensures ComesBack(s)
  {
    var conn := UnusedId(s.dialedAt.Keys);
    var s1 := Apply(s, Step(id, Tau));
    var s2 := Apply(s1, Step(id, DialOk(conn)));
    var s3 := Apply(s2, Step(id, Tau));
    AlreadyBack(s3);
    FirstStep(s2, Step(id, Tau));
    FirstStep(s1, Step(id, DialOk(conn)));
    FirstStep(s, Step(id, Tau));
  }

  lemma RebuildLocks(s: State, id: CallId)
    requires s.connectMu.None? && id in s.calls && s.calls[id].op.Rebuild? && s.calls[id].pc.Lock?
    requires !s.calls[id].recovering
    ensures ComesBack(s)
  {
    RebuildDials(Apply(s, Step(id, Tau)), id);
    FirstStep(s, Step(id, Tau));
  }

  /** With connectMu free. */
  lemma BackWhenFree(s: State)
    requires Inv(s) && WatcherOk(s) && Retired(s) && s.connectMu.None?
    requires MayFire(s) || RebuildWaits(s)
    ensures ComesBack(s)
  {
    if RebuildWaits(s) {
      var id :| id in s.calls && s.calls[id].op.Rebuild? && (s.calls[id].pc.Lock? || s.calls[id].pc.Bump?);
      assert CallOk(s, id);
      RebuildLocks(s, id);
    } else {
      BusyMeansWaiting(s);
      var ls, t := CanFire(s);
      RebuildLocks(t, t.rebuild.value);
      CalmStart(s, ls, t);
    }
  }

  /** How many steps the holder of connectMu is from leaving it or dialing. */
  function ToGo(pc: Pc): nat {
    match pc
    case CheckGen => 4
    case CheckConnected => 3
    case Retire => 3
    case Close(_, _) => 2
    case Unlock(_) => 1
    case _ => 0
  }

  function HolderToGo(s: State): nat {
    if s.connectMu.Some? && s.connectMu.value in s.calls then ToGo(s.calls[s.connectMu.value].pc) else 0
  }

  lemma HolderSteps(s: State, id: CallId)
    requires Base(s, id) && Quiet(s) && s.connectMu == Some(id) && !s.calls[id].pc.Bump?
    ensures StepEnabled(s, id, Tau) && !UserDials(s, Step(id, Tau))
    ensures var t := StepCall(s, id, Tau); HolderToGo(t) < HolderToGo(s) && !UserConnects(t)
  {
  }

  lemma OthersWait(s: State, id: CallId)
    requires Inv(s) && RebuildWaits(s) && s.connectMu == Some(id) && StepEnabled(s, id, Tau) && !s.calls[id].pc.Bump?
    ensures RebuildWaits(StepCall(s, id, Tau))
  {
    var k :| k in s.calls && s.calls[k].op.Rebuild? && (s.calls[k].pc.Lock? || s.calls[k].pc.Bump?);
    assert CallOk(s, k) && CallOk(s, id);
    StepIsGentle(s, id, Tau);
    assert StepCall(s, id, Tau).calls[k] == s.calls[k];
  }

  /** On a retired connection the holder of connectMu moves on towards leaving it,
      and takes nothing away from the watcher. */
  lemma HolderMoves(s: State, id: CallId)
    requires Inv(s) && WatcherOk(s) && Retired(s) && s.connectMu == Some(id) && !s.calls[id].pc.Bump?
    ensures StepEnabled(s, id, Tau) && !UserDials(s, Step(id, Tau))
    ensures var t := StepCall(s, id, Tau);
            && Inv(t) && WatcherOk(t) && Retired(t) && !UserConnects(t)
            && HolderToGo(t) < HolderToGo(s)
            && (MayFire(s) ==> MayFire(t)) && (RebuildWaits(s) ==> RebuildWaits(t))
  {
    assert Base(s, id);
    HolderSteps(s, id);
    QuietStep(s, Step(id, Tau));
    StepPreserves(s, id, Tau);
    CallKeepsWatcher(s, id, Tau);
    CallsLeaveSignals(s, id, Tau);
    if RebuildWaits(s) { OthersWait(s, id); }
  }

  lemma {:induction false} Back(s: State)
    requires Inv(s) && WatcherOk(s) && Retired(s) && !UserConnects(s)
    requires MayFire(s) || RebuildWaits(s)
    ensures ComesBack(s)
    decreases HolderToGo(s)
  {
    if s.connectMu.None? {
      BackWhenFree(s);
    } else {
      var id := s.connectMu.value;
      assert Base(s, id);
      if s.calls[id].pc.Bump? {
        RebuildDials(s, id);
      } else {
        HolderMoves(s, id);
        Back(StepCall(s, id, Tau));
        FirstStep(s, Step(id, Tau));
      }
    }
  }

  // ---- Staying away -----------------------------------------------------------

  lemma RebuildGoesOn(s: State, id: CallId, choice: Choice)
    requires Base(s, id) && StepEnabled(s, id, choice)
    requires s.calls[id].op.Rebuild? && !s.calls[id].pc.Lock? && !s.calls[id].pc.Bump?
    ensures var k := StepCall(s, id, choice).calls[id]; !k.pc.Lock? && !k.pc.Bump?
  {
  }

  lemma OnlyFiringCallsBack(s: State, l: Label)
    requires Enabled(s, l) && !l.Step? && Apply(s, l).firings == s.firings && !RebuildWaits(s)
    ensures !RebuildWaits(Apply(s, l))
  {
  }

  lemma NoNewRebuild(s: State, l: Label)
    requires Inv(s) && Retired(s) && !MayFire(s) && !RebuildWaits(s) && Enabled(s, l)
    ensures !RebuildWaits(Apply(s, l))
  {
    if l.Step? {
      assert Base(s, l.id);
      StepIsGentle(s, l.id, l.choice);
      CallsKeepOps(s, l.id, l.choice);
      if s.calls[l.id].op.Rebuild? { RebuildGoesOn(s, l.id, l.choice); }
    } else {
      MayFireShrinks(s, l);
      OnlyFiringCallsBack(s, l);
    }
  }

  lemma {:induction false} StaysAway(s: State, ls: seq<Label>, t: State)
    requires Inv(s) && Retired(s) && !MayFire(s) && !RebuildWaits(s) && Unattended(s, ls, t)
    ensures !t.connected
    decreases |ls|
  {
    if ls != [] {
      QuietStep(s, ls[0]);
      ApplyPreserves(s, ls[0]);
      MayFireShrinks(s, ls[0]);
      NoNewRebuild(s, ls[0]);
      StaysAway(Apply(s, ls[0]), ls[1..], t);
    }
  }

  lemma HolderStays(s: State, l: Label)
    requires Inv(s) && UserConnects(s) && Enabled(s, l) && !UserDials(s, l)
    ensures UserConnects(Apply(s, l)) && Apply(s, l).connected == s.connected
  {
    if l.Step? {
      assert Base(s, l.id);
      StepIsGentle(s, l.id, l.choice);
    }
  }

  lemma {:induction false} StaysHeld(s: State, ls: seq<Label>, t: State)
    requires Inv(s) && UserConnects(s) && Unattended(s, ls, t)
    ensures t.connected == s.connected
    decreases |ls|
  {
    if ls != [] {
      ApplyPreserves(s, ls[0]);
      HolderStays(s, ls[0]);
      StaysHeld(Apply(s, ls[0]), ls[1..], t);
    }
  }

  /** The documentation has a Disconnect stay disconnected. In any state after
      one, the connection can come back without a user's dial exactly when the
      states past the generation check are enough to make the watcher fire, or its
      callback was already waiting; unless a user's connect has connectMu, so that
      nobody else can get past it. */
  lemma WatcherUndoesDisconnectIff(s: State)
    requires Reachable(s) && Retired(s)
    ensures ComesBack(s) <==> (MayFire(s) || RebuildWaits(s)) && !UserConnects(s)
  {
    ReachableInv(s);
    var run :| Runs(Init, run, s);
    WatcherOverRuns(Init, run, s);
    if UserConnects(s) {
      if ComesBack(s) {
        var ls, t :| Unattended(s, ls, t) && t.connected;
        StaysHeld(s, ls, t);
      }
    } else if MayFire(s) || RebuildWaits(s) {
      Back(s);
    } else if ComesBack(s) {
      var ls, t :| Unattended(s, ls, t) && t.connected;
      StaysAway(s, ls, t);
    }
  }

  // ---- Both ways it happens ---------------------------------------------------

  /** A Closed that passes the generation check just before the Disconnect retires
      the connection is still delivered. */
  lemma DisconnectRace() returns (s: State)
    ensures Reachable(s) && Retired(s) && WatcherIdle(s) && MayFire(s) && ComesBack(s)
  {
    s := ConnectionDies();
    s := Reach(s, Start(1, Disconnect));
    assert s.calls[1] == Call(Disconnect, Lock, 0, false, []);
    s := Reach(s, Step(1, Tau));
    assert s.calls[1] == Call(Disconnect, Retire, 0, false, []) && s.connectMu == Some(1);
    s := Reach(s, Step(1, Tau));
    WatcherUndoesDisconnectIff(s);
  }

  /** The watcher has received the Connected. */
  lemma WatcherArmed() returns (s: State)
    ensures Reachable(s)
    ensures s == Init.(client := Some(0), connected := true, clientGen := 1, connGen := 1, dialGens := {1},
                       dialedAt := map[0 := 1], calls := map[0 := Call(Connect, Finished(true), 0, false, [])],
                       inflight := multiset{Closed}, everConnected := true)
  {
    s := ConnectionDies();
    s := Reach(s, Send(Connected));
    assert s.inflight == multiset{Closed} && s.stateCh == [Connected];
    s := Reach(s, Receive(2));
  }

  /** It has received the Closed and called back. */
  lemma WatcherFires() returns (s: State)
    ensures Reachable(s)
    ensures s == Init.(client := Some(0), connected := true, clientGen := 1, connGen := 1, dialGens := {1},
                       dialedAt := map[0 := 1],
                       calls := map[0 := Call(Connect, Finished(true), 0, false, []), 2 := NewCall(Rebuild)],
                       rebuild := Some(2), firings := 1)
  {
    s := WatcherArmed();
    s := Reach(s, Send(Closed));
    assert s.inflight == multiset{} && s.stateCh == [Closed];
    s := Reach(s, Receive(2));
  }

  lemma DisconnectLocks() returns (s: State)
    ensures Reachable(s)
    ensures s == Init.(client := Some(0), connected := true, clientGen := 1, connGen := 1, dialGens := {1},
                       dialedAt := map[0 := 1], connectMu := Some(1),
                       calls := map[0 := Call(Connect, Finished(true), 0, false, []),
                                    1 := Call(Disconnect, Retire, 0, false, []),
                                    2 := NewCall(Rebuild)],
                       rebuild := Some(2), firings := 1)
  {
    s := WatcherFires();
    s := Reach(s, Start(1, Disconnect));
    assert s.calls[1] == Call(Disconnect, Lock, 0, false, []);
    s := Reach(s, Step(1, Tau));
  }

  /** A Disconnect that gets connectMu before the callback does. */
  lemma DisconnectComesFirst() returns (s: State)
    ensures Reachable(s)
    ensures s == Init.(client := Some(0), clientGen := 2, connGen := 2, dialGens := {1}, dialedAt := map[0 := 1],
                       connectMu := Some(1),
                       calls := map[0 := Call(Connect, Finished(true), 0, false, []),
                                    1 := Call(Disconnect, Close(0, true), 0, false, []),
                                    2 := NewCall(Rebuild)],
                       rebuild := Some(2), firings := 1)
  {
    s := DisconnectLocks();
    s := Reach(s, Step(1, Tau));
  }

  /** It completes, no state is left to deliver, and still the callback connects
      after it. */
  lemma RebuildRace() returns (s: State)
    ensures Reachable(s) && Retired(s) && s.connectMu.None? && !MayFire(s) && ComesBack(s)
  {
    s := DisconnectComesFirst();
    s := Reach(s, Step(1, Tau));
    s := Reach(s, Step(1, Tau));
    assert s.calls[2] == NewCall(Rebuild);
    WatcherUndoesDisconnectIff(s);
  }
}
