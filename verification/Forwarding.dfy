/** What becomes of the states connections report: none is lost on the way to the
    watcher but those of retired generations, and what reaches it is what makes it
    fire. */
module Forwarding {
  import opened Connection
  import opened ConnectionProofs
  import opened ConnectionSafety
  import opened Watcher
  import opened WatcherUndo

  // ---- Nothing is lost --------------------------------------------------------

  /** One report is taken exactly when it comes from the current generation, a dial
      of which may be under way still. */
  lemma ReportIsTakenIff(s: State, gen: Gen, state: ConnState)
    requires Enabled(s, Forward(gen, state))
    ensures var t := Apply(s, Forward(gen, state));
            t == s.(inflight := if gen == s.connGen then s.inflight + multiset{state} else s.inflight)
  {
  }

  /** What one step reports for the generation that is current at the time. */
  function ReportedBy(s: State, l: Label): multiset<ConnState> {
    if l.Forward? && l.gen == s.connGen then multiset{l.state} else multiset{}
  }

  /** What it takes from the channel, and puts on it. */
  function TakenBy(s: State, l: Label): seq<ConnState> {
    if l.Receive? && s.stateCh != [] then [s.stateCh[0]] else []
  }

  function SentBy(l: Label): seq<ConnState> { if l.Send? then [l.state] else [] }

  /** The same of a run, in order. */
  ghost function Reported(s: State, ls: seq<Label>): multiset<ConnState>
    decreases |ls|
  {
    if ls == [] || !Enabled(s, ls[0]) then multiset{}
    else ReportedBy(s, ls[0]) + Reported(Apply(s, ls[0]), ls[1..])
  }

  ghost function Received(s: State, ls: seq<Label>): seq<ConnState>
    decreases |ls|
  {
    if ls == [] || !Enabled(s, ls[0]) then []
    else TakenBy(s, ls[0]) + Received(Apply(s, ls[0]), ls[1..])
  }

  function Sent(ls: seq<Label>): seq<ConnState> {
    if ls == [] then [] else SentBy(ls[0]) + Sent(ls[1..])
  }

  lemma StepKeepsOrder(s: State, l: Label)
    requires Enabled(s, l)
    ensures TakenBy(s, l) + Apply(s, l).stateCh == s.stateCh + SentBy(l)
  {
    match l
    case Step(id, choice) => CallsLeaveSignals(s, id, choice);
    case _ =>
  }

  lemma StepConserves(s: State, l: Label)
    requires Enabled(s, l)
    ensures Apply(s, l).inflight + multiset(SentBy(l)) == s.inflight + ReportedBy(s, l)
  {
    match l
    case Step(id, choice) => CallsLeaveSignals(s, id, choice);
    case _ =>
  }

  /** The watcher receives states in the order in which they were sent, and all of
      them but those still in the channel. */
  lemma {:induction false} StatesKeepTheirOrder(s: State, ls: seq<Label>, t: State)
    requires Runs(s, ls, t)
    ensures Received(s, ls) + t.stateCh == s.stateCh + Sent(ls)
    decreases |ls|
  {
    if ls != [] {
      var m := Apply(s, ls[0]);
      StepKeepsOrder(s, ls[0]);
      StatesKeepTheirOrder(m, ls[1..], t);
      Chained(TakenBy(s, ls[0]), Received(m, ls[1..]), t.stateCh, m.stateCh, Sent(ls[1..]), s.stateCh, SentBy(ls[0]));
    }
  }

  lemma Chained<T>(a: seq<T>, b: seq<T>, c: seq<T>, m: seq<T>, e: seq<T>, q: seq<T>, f: seq<T>)
    requires b + c == m + e && a + m == q + f
    ensures (a + b) + c == q + (f + e)
  {
    assert (a + b) + c == a + (b + c);
    assert q + (f + e) == (q + f) + e;
    assert a + (m + e) == (a + m) + e;
  }

  /** What is in flight is what was reported and has not been sent. */
  lemma {:induction false} FlightIsConserved(s: State, ls: seq<Label>, t: State)
    requires Runs(s, ls, t)
    ensures t.inflight + multiset(Sent(ls)) == s.inflight + Reported(s, ls)
    decreases |ls|
  {
    if ls != [] {
      var m := Apply(s, ls[0]);
      StepConserves(s, ls[0]);
      FlightIsConserved(m, ls[1..], t);
      Joined(SentBy(ls[0]), Sent(ls[1..]));
      Balanced(t.inflight, multiset(SentBy(ls[0])), multiset(Sent(ls[1..])), m.inflight, Reported(m, ls[1..]),
               s.inflight, ReportedBy(s, ls[0]));
    }
  }

  lemma Joined<T>(a: seq<T>, b: seq<T>)
    ensures multiset(a + b) == multiset(a) + multiset(b)
  {
  }

  lemma Balanced<T>(t: multiset<T>, a: multiset<T>, b: multiset<T>, m: multiset<T>, r: multiset<T>, s: multiset<T>,
                    q: multiset<T>)
    requires m + a == s + q && t + b == m + r
    ensures t + (a + b) == s + (q + r)
  {
    forall x ensures (t + (a + b))[x] == (s + (q + r))[x] {
      assert (m + a)[x] == (s + q)[x] && (t + b)[x] == (m + r)[x];
    }
  }

  /** Over every run: what the current generations reported, no more and no less,
      is in flight, in the channel, or received. */
  lemma StatesAreConserved(s: State, ls: seq<Label>, t: State)
    requires Runs(s, ls, t)
    ensures t.inflight + multiset(t.stateCh) + multiset(Received(s, ls))
            == s.inflight + multiset(s.stateCh) + Reported(s, ls)
  {
    FlightIsConserved(s, ls, t);
    StatesKeepTheirOrder(s, ls, t);
    Joined(Received(s, ls), t.stateCh);
    Joined(s.stateCh, Sent(ls));
    var (a, b, c, d) := (multiset(Received(s, ls)), multiset(t.stateCh), multiset(s.stateCh), multiset(Sent(ls)));
    AllTold(t.inflight, b, a, s.inflight, c, d, Reported(s, ls));
  }

  lemma AllTold<T>(t: multiset<T>, b: multiset<T>, a: multiset<T>, s: multiset<T>, c: multiset<T>, d: multiset<T>,
                   r: multiset<T>)
    requires t + d == s + r && a + b == c + d
    ensures t + b + a == s + c + r
  {
    forall x ensures (t + b + a)[x] == (s + c + r)[x] {
      assert (t + d)[x] == (s + r)[x] && (a + b)[x] == (c + d)[x];
    }
  }

  // ---- What is received is what fires -----------------------------------------

  /** The firings called for by a sequence of received states. */
  ghost function Firings(states: seq<ConnState>): nat {
    if states == [] then 0
    else
      var n := |states| - 1;
      Firings(states[..n]) + if FiresAt(states, n) then 1 else 0
  }

  /** The watcher of the protocol has seen these states and acted on them. */
  ghost predicate InStep(s: State, seen: seq<ConnState>) {
    s.firings == Firings(seen) && (s.everConnected <==> ConnectedSince(seen, |seen|))
  }

  lemma OneMore(seen: seq<ConnState>, x: ConnState)
    ensures Firings(seen + [x]) == Firings(seen) + if x.Closed? && ConnectedSince(seen, |seen|) then 1 else 0
    ensures ConnectedSince(seen + [x], |seen| + 1) <==> x.Connected? || (!x.Closed? && ConnectedSince(seen, |seen|))
  {
    var all := seen + [x];
    assert all[..|seen|] == seen;
    assert forall i | 0 <= i < |seen| :: all[i] == seen[i];
    assert ConnectedSince(all, |seen|) <==> ConnectedSince(seen, |seen|) by {
      forall j | 0 <= j < |seen| ensures NoClosedBetween(all, j, |seen|) <==> NoClosedBetween(seen, j, |seen|) { }
    }
    if ConnectedSince(seen, |seen|) && !x.Closed? {
      var j :| 0 <= j < |seen| && seen[j].Connected? && NoClosedBetween(seen, j, |seen|);
      assert all[j].Connected? && NoClosedBetween(all, j, |seen| + 1);
    }
    if x.Connected? { assert all[|seen|].Connected? && NoClosedBetween(all, |seen|, |seen| + 1); }
  }

  lemma StepInStep(s: State, l: Label, seen: seq<ConnState>)
    requires Enabled(s, l) && InStep(s, seen)
    ensures InStep(Apply(s, l), seen + TakenBy(s, l))
  {
    match l
    case Step(id, choice) =>
      CallsLeaveSignals(s, id, choice);
      assert seen + [] == seen;
    case Receive(_) => OneMore(seen, s.stateCh[0]);
    case _ => assert seen + [] == seen;
  }

  /** Over every run of the protocol the watcher fires once for each permanent death
      among the states it receives, as its loop does. */
  lemma {:induction false} FiringsFollowStates(s: State, ls: seq<Label>, t: State, seen: seq<ConnState>)
    requires Runs(s, ls, t) && InStep(s, seen)
    ensures InStep(t, seen + Received(s, ls))
    decreases |ls|
  {
    if ls == [] {
      assert seen + [] == seen;
    } else {
      StepInStep(s, ls[0], seen);
      FiringsFollowStates(Apply(s, ls[0]), ls[1..], t, seen + TakenBy(s, ls[0]));
      assert seen + TakenBy(s, ls[0]) + Received(Apply(s, ls[0]), ls[1..]) == seen + Received(s, ls);
    }
  }

  lemma FiringsFromTheStart(ls: seq<Label>, t: State)
    requires Runs(Init, ls, t)
    ensures t.firings == Firings(Received(Init, ls))
  {
    FiringsFollowStates(Init, ls, t, []);
    assert [] + Received(Init, ls) == Received(Init, ls);
  }

  // ---- No death goes unnoticed ------------------------------------------------

  /** A Connected is on its way to the watcher or has arrived, or its callback has
      been started and has not dialed yet. */
  predicate Alert(s: State) {
    Connected in s.inflight || Connected in s.stateCh || s.everConnected || RebuildWaits(s)
  }

  lemma CallStaysAlert(s: State, id: CallId, choice: Choice)
    requires Inv(s) && Alert(s) && StepEnabled(s, id, choice) && StepCall(s, id, choice).connGen == s.connGen
    ensures Alert(StepCall(s, id, choice))
  {
    CallsLeaveSignals(s, id, choice);
    if RebuildWaits(s) {
      var k :| k in s.calls && s.calls[k].op.Rebuild? && (s.calls[k].pc.Lock? || s.calls[k].pc.Bump?);
      assert Base(s, id) && CallOk(s, k);
      StepIsGentle(s, id, choice);
      if k == id {
        RebuildLocksNext(s, id, choice);
      } else {
        assert StepCall(s, id, choice).calls[k] == s.calls[k];
      }
    }
  }

  /** A waiting callback that moves without starting its dial goes on waiting. */
  lemma RebuildLocksNext(s: State, id: CallId, choice: Choice)
    requires Base(s, id) && StepEnabled(s, id, choice) && StepCall(s, id, choice).connGen == s.connGen
    requires s.calls[id].op.Rebuild? && (s.calls[id].pc.Lock? || s.calls[id].pc.Bump?)
    ensures var k := StepCall(s, id, choice).calls[id]; k.op.Rebuild? && k.pc.Bump?
  {
  }

  lemma SignalStaysAlert(s: State, l: Label)
    requires Alert(s) && Enabled(s, l) && !l.Step?
    ensures Alert(Apply(s, l))
  {
    var t := Apply(s, l);
    if RebuildWaits(s) {
      var k :| k in s.calls && s.calls[k].op.Rebuild? && (s.calls[k].pc.Lock? || s.calls[k].pc.Bump?);
      assert k in t.calls && t.calls[k] == s.calls[k];
    } else if l.Receive? {
      assert s.stateCh == [s.stateCh[0]] + s.stateCh[1..];
      if FiresOn(s.everConnected, s.stateCh[0]) && !s.stateCh[0].Connected? {
        assert t.calls[l.newId] == NewCall(Rebuild);
      }
    }
  }

  lemma {:induction false} StaysAlert(s: State, ls: seq<Label>, t: State)
    requires Inv(s) && Alert(s) && Runs(s, ls, t) && t.connGen == s.connGen
    ensures Alert(t)
    decreases |ls|
  {
    if ls != [] {
      var m := Apply(s, ls[0]);
      ApplyPreserves(s, ls[0]);
      StepGrows(s, ls[0]);
      GenerationsOnlyGrow(m, ls[1..], t);
      if ls[0].Step? { CallStaysAlert(s, ls[0].id, ls[0].choice); } else { SignalStaysAlert(s, ls[0]); }
      StaysAlert(m, ls[1..], t);
    }
  }

  /** A generation, a reconnect's included, that reports Connected and later, while
      still the current one, Closed is not lost on the watcher: it has all it needs
      to fire, or its callback has been started already and is about to dial. */
  lemma DeathIsNoticed(s: State, gen: Gen, ls: seq<Label>, t: State)
    requires Reachable(s) && gen in s.dialGens && s.connGen == gen
    requires Runs(Apply(s, Forward(gen, Connected)), ls, t) && t.connGen == gen
    ensures gen in t.dialGens
    ensures var dead := Apply(t, Forward(gen, Closed)); MayFire(dead) || RebuildWaits(dead)
  {
    ReachableInv(s);
    var m := Apply(s, Forward(gen, Connected));
    ApplyPreserves(s, Forward(gen, Connected));
    StaysAlert(m, ls, t);
    DialGensStay(m, ls, t, gen);
  }

  lemma {:induction false} DialGensStay(s: State, ls: seq<Label>, t: State, gen: Gen)
    requires Runs(s, ls, t) && gen in s.dialGens
    ensures gen in t.dialGens
    decreases |ls|
  {
    if ls != [] {
      if ls[0].Step? { CallKeepsDialGens(s, ls[0].id, ls[0].choice); }
      DialGensStay(Apply(s, ls[0]), ls[1..], t, gen);
    }
  }

  lemma CallKeepsDialGens(s: State, id: CallId, choice: Choice)
    requires StepEnabled(s, id, choice)
    ensures s.dialGens <= StepCall(s, id, choice).dialGens
  {
  }

  /** And an idle watcher that has all it needs can go on to fire. */
  lemma NoticedDeathFires(s: State)
    requires WatcherIdle(s) && MayFire(s)
    ensures CanReachFiring(s)
  {
    var ls, t := CanFire(s);
  }
}
