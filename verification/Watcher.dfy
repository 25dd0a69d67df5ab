/** internal/opcua/reconnect_watcher.go: which delivered states make the watcher
    fire, and when a Disconnect can still be undone by it. */
module Watcher {
  import opened Wrappers
  import opened Sums
  import opened Connection
  import opened ConnectionProofs
  import opened ConnectionSafety

  /** A permanent death: a Closed with a Connected before it and no other Closed
      in between, which would have fired itself. */
  ghost predicate FiresAt(states: seq<ConnState>, i: nat)
    requires i < |states|
  {
    states[i].Closed? && ConnectedSince(states, i)
  }

  ghost predicate ConnectedSince(states: seq<ConnState>, i: nat)
    requires i <= |states|
  {
    exists j | 0 <= j < i :: states[j].Connected? && NoClosedBetween(states, j, i)
  }

  predicate NoClosedBetween(states: seq<ConnState>, j: nat, i: nat)
    requires i <= |states|
  {
    forall k | j < k < i :: !states[k].Closed?
  }

  /** The watch loop over the states it receives; fired lists the positions at
      which it calls its callback. */
  method Watch(states: seq<ConnState>) returns (fired: seq<nat>)
    ensures forall i :: i in fired <==> 0 <= i < |states| && FiresAt(states, i)
    ensures forall a, b | 0 <= a < b < |fired| :: fired[a] < fired[b]
  {
    fired := [];
    var everConnected := false;
    for n := 0 to |states|
      invariant everConnected <==> ConnectedSince(states, n)
      invariant forall i :: i in fired <==> 0 <= i < n && FiresAt(states, i)
      invariant forall a | 0 <= a < |fired| :: fired[a] < n
      invariant forall a, b | 0 <= a < b < |fired| :: fired[a] < fired[b]
    {
      if states[n].Connected? {
        everConnected := true;
        assert NoClosedBetween(states, n, n + 1);
      } else if states[n].Closed? && everConnected {
        fired := fired + [n];
        everConnected := false;
      } else {
        assert forall j: nat | j < n && NoClosedBetween(states, j, n) && !states[n].Closed? ::
                 NoClosedBetween(states, j, n + 1);
      }
    }
  }

  // ---- Can the watcher undo a Disconnect? -------------------------------------

  /** Reading queue from everConnected, some Closed comes after a Connected. */
  ghost predicate Armed(everConnected: bool, queue: seq<ConnState>) {
    exists i | 0 <= i < |queue| :: queue[i].Closed? && (everConnected || Connected in queue[..i])
  }

  /** The states already past the generation check are enough to fire. */
  ghost predicate MayFire(s: State) {
    || Armed(s.everConnected, s.stateCh)
    || (Closed in s.inflight && (s.everConnected || Connected in s.stateCh || Connected in s.inflight))
  }

  /** Disconnected, with a generation no dial was ever started for. */
  predicate Retired(s: State) { Quiet(s) && s.connGen !in s.dialGens }

  lemma ReceivingShrinks(s: State, l: Label)
    requires l.Receive? && Retired(s) && Enabled(s, l) && !MayFire(s)
    ensures !MayFire(Apply(s, l)) && Apply(s, l).firings == s.firings
  {
    var (q, t) := (s.stateCh, Apply(s, l));
    assert !(q[0].Closed? && s.everConnected);
    forall i | 0 <= i < |t.stateCh| && t.stateCh[i].Closed? ensures !(t.everConnected || Connected in t.stateCh[..i]) {
      assert q[i + 1].Closed?;
      assert q[..i + 1] == [q[0]] + t.stateCh[..i];
    }
    assert q == [q[0]] + t.stateCh;
  }

  lemma SendingShrinks(s: State, l: Label)
    requires l.Send? && Retired(s) && Enabled(s, l) && !MayFire(s)
    ensures !MayFire(Apply(s, l)) && Apply(s, l).firings == s.firings
  {
    var (q, t) := (s.stateCh, Apply(s, l));
    forall i | 0 <= i < |t.stateCh| && t.stateCh[i].Closed? ensures !(t.everConnected || Connected in t.stateCh[..i]) {
      if i < |q| {
        assert q[i].Closed? && t.stateCh[..i] == q[..i];
      } else {
        assert l.state.Closed? && t.stateCh[..i] == q;
      }
    }
  }

  lemma CallsLeaveSignals(s: State, id: CallId, choice: Choice)
    requires StepEnabled(s, id, choice)
    ensures var t := StepCall(s, id, choice);
            && t.inflight == s.inflight && t.stateCh == s.stateCh && t.everConnected == s.everConnected
            && t.firings == s.firings && t.rebuild == s.rebuild
  {
  }

  lemma MayFireShrinks(s: State, l: Label)
    requires Retired(s) && Enabled(s, l) && !MayFire(s)
    ensures !MayFire(Apply(s, l)) && Apply(s, l).firings == s.firings
  {
    var t := Apply(s, l);
    match l
    case Receive(_) => ReceivingShrinks(s, l);
    case Send(_) => SendingShrinks(s, l);
    case Step(id, choice) => CallsLeaveSignals(s, id, choice);
    case Start(_, _) => assert t.inflight == s.inflight && t.stateCh == s.stateCh && t.everConnected == s.everConnected;
    case Forward(_, _) => assert t == s;
  }

  lemma {:induction false} NeverFires(s: State, ls: seq<Label>, t: State)
    requires Inv(s) && Retired(s) && !MayFire(s) && Calm(s, ls, t)
    ensures t.firings == s.firings
    decreases |ls|
  {
    if ls != [] {
      QuietStep(s, ls[0]);
      ApplyPreserves(s, ls[0]);
      MayFireShrinks(s, ls[0]);
      NeverFires(Apply(s, ls[0]), ls[1..], t);
    }
  }

  // The converse: when MayFire holds, a schedule exists.

  lemma {:induction false} CalmJoin(s: State, a: seq<Label>, m: State, b: seq<Label>, t: State)
    requires Calm(s, a, m) && Calm(m, b, t)
    ensures Calm(s, a + b, t)
    decreases |a|
  {
    if a == [] {
      assert a + b == b;
    } else {
      assert (a + b)[1..] == a[1..] + b;
      CalmJoin(Apply(s, a[0]), a[1..], m, b, t);
    }
  }

  lemma CalmOne(s: State, l: Label)
    requires Enabled(s, l) && !l.Step?
    ensures Calm(s, [l], Apply(s, l))
  {
    assert Calm(Apply(s, l), [l][1..], Apply(s, l));
  }

  lemma ArmedTail(everConnected: bool, q: seq<ConnState>)
    requires q != [] && Armed(everConnected, q) && !(q[0].Closed? && everConnected)
    ensures Armed(everConnected || q[0].Connected?, q[1..])
  {
    var i :| 0 <= i < |q| && q[i].Closed? && (everConnected || Connected in q[..i]);
    assert i > 0;
    assert q[..i] == [q[0]] + q[1..][..i - 1];
    assert q[1..][i - 1].Closed?;
  }

  /** The watcher's callback has been started and has not done anything yet. */
  predicate CallsBack(t: State) {
    t.rebuild.Some? && t.rebuild.value in t.calls && t.calls[t.rebuild.value] == NewCall(Rebuild)
  }

  /** What one receive does when it does not fire. */
  lemma ReceiveOne(s: State, id: CallId)
    requires WatcherIdle(s) && s.stateCh != [] && id !in s.calls && forall i | i in s.calls :: i < id
    ensures Calm(s, [Receive(id)], Apply(s, Receive(id)))
    ensures var m := Apply(s, Receive(id));
            (m.firings > s.firings && CallsBack(m) && m.connectMu == s.connectMu) ||
            (m == s.(stateCh := s.stateCh[1..], everConnected := s.everConnected || s.stateCh[0].Connected?) &&
             WatcherIdle(m) && !(s.stateCh[0].Closed? && s.everConnected))
  {
    CalmOne(s, Receive(id));
  }

  /** Receiving until the watcher fires or the queue is empty. */
  lemma {:induction false} Drain(s: State) returns (ls: seq<Label>, t: State)
    requires WatcherIdle(s)
    ensures Calm(s, ls, t) && t.connectMu == s.connectMu
    ensures (t.firings > s.firings && CallsBack(t)) ||
            (WatcherIdle(t) && t.firings == s.firings && t.stateCh == [] && t.inflight == s.inflight &&
             t.everConnected == (s.everConnected || Connected in s.stateCh) && !Armed(s.everConnected, s.stateCh))
    decreases |s.stateCh|
  {
    if s.stateCh == [] {
      return [], s;
    }
    var id := UnusedId(s.calls.Keys);
    var m := Apply(s, Receive(id));
    ReceiveOne(s, id);
    if m.firings > s.firings {
      return [Receive(id)], m;
    }
    assert s.stateCh == [s.stateCh[0]] + m.stateCh;
    ls, t := Drain(m);
    CalmJoin(s, [Receive(id)], m, ls, t);
    if Armed(s.everConnected, s.stateCh) { ArmedTail(s.everConnected, s.stateCh); }
    ls := [Receive(id)] + ls;
  }

  /** With the queue empty, one state in flight can be sent and received. */
  lemma Hand(s: State, state: ConnState) returns (ls: seq<Label>, t: State)
    requires WatcherIdle(s) && s.stateCh == [] && state in s.inflight
    ensures Calm(s, ls, t) && t.connectMu == s.connectMu
    ensures state.Closed? && s.everConnected ==> t.firings > s.firings && CallsBack(t)
    ensures state.Connected? ==> WatcherIdle(t) && t.stateCh == [] && t.everConnected && t.firings == s.firings
                                 && t.inflight == s.inflight - multiset{state}
  {
    var m := Apply(s, Send(state));
    var id := UnusedId(s.calls.Keys);
    assert m.stateCh == [state];
    CalmOne(s, Send(state));
    CalmOne(m, Receive(id));
    t := Apply(m, Receive(id));
    CalmJoin(s, [Send(state)], m, [Receive(id)], t);
    ls := [Send(state)] + [Receive(id)];
  }

  lemma CanFire(s: State) returns (ls: seq<Label>, t: State)
    requires WatcherIdle(s) && MayFire(s)
    ensures Calm(s, ls, t) && t.firings > s.firings && CallsBack(t) && t.connectMu == s.connectMu
  {
    ls, t := Drain(s);
    if t.firings == s.firings {
      if !t.everConnected {
        var more, u := Hand(t, Connected);
        CalmJoin(s, ls, t, more, u);
        ls, t := ls + more, u;
      }
      var last, w := Hand(t, Closed);
      CalmJoin(s, ls, t, last, w);
      ls, t := ls + last, w;
    }
  }

  ghost predicate CanReachFiring(s: State) {
    exists ls, t :: Calm(s, ls, t) && t.firings > s.firings
  }

  /** After a Disconnect an idle watcher can fire exactly when the states that
      passed the generation check before it are enough for that: a Closed with a
      Connected at hand. */
  lemma WatcherFiresIff(s: State)
    requires Reachable(s) && Retired(s) && WatcherIdle(s)
    ensures CanReachFiring(s) <==> MayFire(s)
  {
    ReachableInv(s);
    if MayFire(s) {
      var ls, t := CanFire(s);
    } else if CanReachFiring(s) {
      var ls, t :| Calm(s, ls, t) && t.firings > s.firings;
      NeverFires(s, ls, t);
    }
  }

  lemma {:induction false} ExtendRun(s: State, ls: seq<Label>, m: State, l: Label)
    requires Runs(s, ls, m) && Enabled(m, l)
    ensures Runs(s, ls + [l], Apply(m, l))
    decreases |ls|
  {
    if ls == [] {
      assert Runs(Apply(m, l), [l][1..], Apply(m, l));
      assert ls + [l] == [l];
    } else {
      assert (ls + [l])[1..] == ls[1..] + [l];
      ExtendRun(Apply(s, ls[0]), ls[1..], m, l);
    }
  }

  lemma Reach(s: State, l: Label) returns (t: State)
    requires Reachable(s) && Enabled(s, l)
    ensures Reachable(t) && t == Apply(s, l)
  {
    var ls :| Runs(Init, ls, s);
    ExtendRun(Init, ls, s, l);
    t := Apply(s, l);
  }

  /** A first Connect, about to dial. */
  lemma FirstDial() returns (s: State)
    ensures Reachable(s)
    ensures s == Init.(connGen := 1, dialGens := {1}, connectMu := Some(0),
                       calls := map[0 := Call(Connect, Dial(1), 0, false, [])])
  {
    assert Runs(Init, [], Init);
    s := Reach(Init, Start(0, Connect));
    s := Reach(s, Step(0, Tau));
    s := Reach(s, Step(0, Tau));
  }

  /** Its dial done, the client having reported Connected meanwhile. */
  lemma FirstDialDone() returns (s: State)
    ensures Reachable(s)
    ensures s == Init.(connGen := 1, dialGens := {1}, connectMu := Some(0), dialedAt := map[0 := 1],
                       inflight := multiset{Connected},
                       calls := map[0 := Call(Connect, Swap(1, Some(0)), 0, false, [])])
  {
    s := FirstDial();
    s := Reach(s, Forward(1, Connected));
    s := Reach(s, Step(0, DialOk(0)));
  }

  /** Published, after which the client reports Closed. */
  lemma ConnectionDies() returns (s: State)
    ensures Reachable(s)
    ensures s == Init.(client := Some(0), connected := true, clientGen := 1, connGen := 1, dialGens := {1},
                       dialedAt := map[0 := 1], calls := map[0 := Call(Connect, Finished(true), 0, false, [])],
                       inflight := multiset{Connected, Closed})
  {
    s := FirstDialDone();
    s := Reach(s, Step(0, Tau));
    assert s.calls == map[0 := Call(Connect, Unlock(true), 0, false, [])];
    s := Reach(s, Step(0, Tau));
    assert s.calls == map[0 := Call(Connect, Finished(true), 0, false, [])];
    s := Reach(s, Forward(1, Closed));
  }
}
