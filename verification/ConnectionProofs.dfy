/** The inductive invariant of the connection protocol, and what it means for
    every interleaving. */
module ConnectionProofs {
  import opened Wrappers
  import opened Connection

  // ---- Preservation -----------------------------------------------------------

  /** The part of the invariant that one step of call id relies on. */
  predicate Base(s: State, id: CallId) { ClientOk(s) && id in s.calls && CallOk(s, id) }

  lemma ReadBase(s: State, id: CallId, choice: Choice)
    requires Base(s, id) && StepEnabled(s, id, choice) && s.calls[id].pc.ReadGen?
    ensures Base(StepCall(s, id, choice), id)
  {
  }

  lemma SnapshotBase(s: State, id: CallId, choice: Choice)
    requires Base(s, id) && StepEnabled(s, id, choice) && s.calls[id].pc.Snapshot?
    ensures Base(StepCall(s, id, choice), id)
  {
  }

  lemma AcquireBase(s: State, id: CallId, choice: Choice)
    requires Base(s, id) && StepEnabled(s, id, choice) && s.calls[id].pc.Lock?
    ensures Base(StepCall(s, id, choice), id)
  {
  }

  lemma AnswerBase(s: State, id: CallId, choice: Choice)
    requires Base(s, id) && StepEnabled(s, id, choice) && s.calls[id].pc.Rpc?
    ensures Base(StepCall(s, id, choice), id)
  {
  }

  lemma CheckBase(s: State, id: CallId, choice: Choice)
    requires Base(s, id) && StepEnabled(s, id, choice)
    requires s.calls[id].pc.CheckGen? || s.calls[id].pc.CheckConnected?
    ensures Base(StepCall(s, id, choice), id)
  {
  }

  lemma GenerationBase(s: State, id: CallId, choice: Choice)
    requires Base(s, id) && StepEnabled(s, id, choice)
    requires s.calls[id].pc.Retire? || s.calls[id].pc.Bump?
    ensures Base(StepCall(s, id, choice), id)
  {
  }

  lemma LeaveBase(s: State, id: CallId, choice: Choice)
    requires Base(s, id) && StepEnabled(s, id, choice)
    requires s.calls[id].pc.Close? || s.calls[id].pc.Unlock?
    ensures Base(StepCall(s, id, choice), id)
  {
  }

  lemma DialBase(s: State, id: CallId, choice: Choice)
    requires Base(s, id) && StepEnabled(s, id, choice) && Dialing(s.calls[id].pc)
    ensures Base(StepCall(s, id, choice), id)
  {
  }

  /** Nothing recorded about connections changes, and whoever has one in hand
      keeps it. */
  lemma HistoryFrame(s: State, s': State)
    requires HistoryOk(s)
    requires s'.client == s.client && s'.connected == s.connected && s'.connGen == s.connGen
    requires s'.dialedAt == s.dialedAt && s'.closed == s.closed && s'.dialGens == s.dialGens
    requires s'.recoveryDials == s.recoveryDials
    requires forall c | c in s.dialedAt :: InHand(s, c) ==> InHand(s', c)
    ensures HistoryOk(s')
  {
  }

  /** What a step leaves that neither dials nor retires nor closes anything. */
  ghost predicate Leaves(s: State, s': State) {
    && s'.client == s.client && s'.connected == s.connected && s'.connGen == s.connGen
    && s'.dialedAt == s.dialedAt && s'.closed == s.closed
    && s'.dialGens == s.dialGens && s'.recoveryDials == s.recoveryDials
    && forall c | InHand(s, c) :: InHand(s', c)
  }

  lemma OutsideLeaves(s: State, id: CallId, choice: Choice)
    requires Base(s, id) && StepEnabled(s, id, choice)
    requires s.calls[id].pc.ReadGen? || s.calls[id].pc.Snapshot? || s.calls[id].pc.Rpc?
    ensures Leaves(s, StepCall(s, id, choice))
  {
  }

  lemma LockLeaves(s: State, id: CallId, choice: Choice)
    requires Base(s, id) && StepEnabled(s, id, choice)
    requires s.calls[id].pc.Lock? || s.calls[id].pc.Unlock?
    ensures Leaves(s, StepCall(s, id, choice))
  {
  }

  lemma CheckLeaves(s: State, id: CallId, choice: Choice)
    requires Base(s, id) && StepEnabled(s, id, choice)
    requires s.calls[id].pc.CheckGen? || s.calls[id].pc.CheckConnected?
    ensures Leaves(s, StepCall(s, id, choice))
  {
  }

  lemma QuietHistory(s: State, id: CallId, choice: Choice)
    requires Base(s, id) && HistoryOk(s) && StepEnabled(s, id, choice)
    requires !s.calls[id].pc.Retire? && !s.calls[id].pc.Bump? && !Dialing(s.calls[id].pc) && !s.calls[id].pc.Close?
    ensures HistoryOk(StepCall(s, id, choice))
  {
    var pc := s.calls[id].pc;
    if pc.CheckGen? || pc.CheckConnected? { CheckLeaves(s, id, choice); }
    else if pc.Lock? || pc.Unlock? { LockLeaves(s, id, choice); }
    else { OutsideLeaves(s, id, choice); }
    HistoryFrame(s, StepCall(s, id, choice));
  }

  lemma GenerationHistory(s: State, id: CallId, choice: Choice)
    requires Base(s, id) && HistoryOk(s) && StepEnabled(s, id, choice)
    requires s.calls[id].pc.Retire? || s.calls[id].pc.Bump?
    ensures HistoryOk(StepCall(s, id, choice))
  {
  }

  lemma CloseHistory(s: State, id: CallId, choice: Choice)
    requires Base(s, id) && HistoryOk(s) && StepEnabled(s, id, choice)
    requires s.calls[id].pc.Close?
    ensures HistoryOk(StepCall(s, id, choice))
  {
  }

  lemma DialedHistory(s: State, id: CallId, choice: Choice)
    requires Base(s, id) && HistoryOk(s) && StepEnabled(s, id, choice)
    requires s.calls[id].pc.Dial? && choice.DialOk?
    ensures HistoryOk(StepCall(s, id, choice))
  {
  }

  lemma DialHistory(s: State, id: CallId, choice: Choice)
    requires Base(s, id) && HistoryOk(s) && StepEnabled(s, id, choice)
    requires s.calls[id].pc.Dial?
    ensures HistoryOk(StepCall(s, id, choice))
  {
    if choice.DialOk? { DialedHistory(s, id, choice); } else { HistoryFrame(s, StepCall(s, id, choice)); }
  }

  lemma SwapHistory(s: State, id: CallId, choice: Choice)
    requires Base(s, id) && HistoryOk(s) && StepEnabled(s, id, choice)
    requires s.calls[id].pc.Swap?
    ensures HistoryOk(StepCall(s, id, choice))
  {
  }

  /** What a step does to the shared fields, as far as other calls can tell:
      outside connectMu nothing; under it, generations only move forward. */
  ghost predicate Gentle(s: State, s': State, id: CallId) {
    && id in s'.calls && s'.calls == s.calls[id := s'.calls[id]]
    && s.clientGen <= s'.clientGen && s.connGen <= s'.connGen
    && (forall c | c in s.dialedAt :: c in s'.dialedAt && s'.dialedAt[c] == s.dialedAt[c])
    && if s.connectMu == Some(id) then s'.connectMu == None || s'.connectMu == s.connectMu
       else
         && s' == s.(calls := s'.calls, connectMu := s'.connectMu)
         && (s'.connectMu == s.connectMu || (s.connectMu.None? && s'.connectMu == Some(id)))
  }

  lemma OutsideIsGentle(s: State, id: CallId, choice: Choice)
    requires Base(s, id) && StepEnabled(s, id, choice) && !HoldsLock(s.calls[id].pc)
    ensures Gentle(s, StepCall(s, id, choice), id)
  {
  }

  lemma HolderIsGentle(s: State, id: CallId, choice: Choice)
    requires Base(s, id) && StepEnabled(s, id, choice) && HoldsLock(s.calls[id].pc)
    ensures Gentle(s, StepCall(s, id, choice), id)
  {
  }

  lemma StepIsGentle(s: State, id: CallId, choice: Choice)
    requires Base(s, id) && StepEnabled(s, id, choice)
    ensures Gentle(s, StepCall(s, id, choice), id)
  {
    if HoldsLock(s.calls[id].pc) { HolderIsGentle(s, id, choice); } else { OutsideIsGentle(s, id, choice); }
  }

  lemma OtherKeeps(s: State, s': State, id: CallId, other: CallId)
    requires id in s.calls && other in s.calls && other != id && CallOk(s, other)
    requires Gentle(s, s', id)
    ensures other in s'.calls && CallOk(s', other)
  {
    assert s'.calls[other] == s.calls[other];
  }

  lemma StepPreserves(s: State, id: CallId, choice: Choice)
    requires Inv(s) && StepEnabled(s, id, choice)
    ensures Inv(StepCall(s, id, choice))
  {
    var s' := StepCall(s, id, choice);
    var pc := s.calls[id].pc;
    assert Base(s, id);
    match pc {
      case ReadGen => ReadBase(s, id, choice);
      case Snapshot => SnapshotBase(s, id, choice);
      case Rpc(_) => AnswerBase(s, id, choice);
      case Lock => AcquireBase(s, id, choice);
      case CheckGen => CheckBase(s, id, choice);
      case CheckConnected => CheckBase(s, id, choice);
      case Retire => GenerationBase(s, id, choice);
      case Bump => GenerationBase(s, id, choice);
      case Dial(_) => DialBase(s, id, choice);
      case Swap(_, _) => DialBase(s, id, choice);
      case Close(_, _) => LeaveBase(s, id, choice);
      case Unlock(_) => LeaveBase(s, id, choice);
    }
    StepIsGentle(s, id, choice);
    if pc.Dial? { DialHistory(s, id, choice); }
    else if pc.Swap? { SwapHistory(s, id, choice); }
    else if pc.Close? { CloseHistory(s, id, choice); }
    else if pc.Retire? || pc.Bump? { GenerationHistory(s, id, choice); }
    else { QuietHistory(s, id, choice); }
    forall other | other in s'.calls ensures CallOk(s', other) {
      if other != id { OtherKeeps(s, s', id, other); }
    }
  }

  /** A new call enters outside connectMu, having done nothing yet. */
  lemma EnterPreserves(s: State, s': State, id: CallId, op: Op)
    requires Inv(s) && id !in s.calls && s'.calls == s.calls[id := NewCall(op)]
    requires s' == s.(calls := s'.calls, stateCh := s'.stateCh, everConnected := s'.everConnected,
                      rebuild := s'.rebuild, firings := s'.firings)
    ensures Inv(s')
  {
    HistoryFrame(s, s');
    forall other | other in s'.calls ensures CallOk(s', other) {
      if other in s.calls { CallFrame(s, s', other); }
    }
  }

  lemma CallFrame(s: State, s': State, id: CallId)
    requires id in s.calls && id in s'.calls && s'.calls[id] == s.calls[id] && CallOk(s, id)
    requires s' == s.(calls := s'.calls, inflight := s'.inflight, stateCh := s'.stateCh,
                      everConnected := s'.everConnected, rebuild := s'.rebuild, firings := s'.firings)
    ensures CallOk(s', id)
  {
  }

  lemma SignalPreserves(s: State, s': State)
    requires Inv(s)
    requires s' == s.(inflight := s'.inflight, stateCh := s'.stateCh, everConnected := s'.everConnected)
    ensures Inv(s')
  {
    HistoryFrame(s, s');
    forall other | other in s'.calls ensures CallOk(s', other) {
      CallFrame(s, s', other);
    }
  }

  lemma ApplyPreserves(s: State, l: Label)
    requires Inv(s) && Enabled(s, l)
    ensures Inv(Apply(s, l))
  {
    match l
    case Start(id, op) => EnterPreserves(s, Apply(s, l), id, op);
    case Step(id, choice) => StepPreserves(s, id, choice);
    case Forward(_, _) => SignalPreserves(s, Apply(s, l));
    case Send(_) => SignalPreserves(s, Apply(s, l));
    case Receive(newId) =>
      if FiresOn(s.everConnected, s.stateCh[0]) && !s.stateCh[0].Connected? {
        EnterPreserves(s, Apply(s, l), newId, Rebuild);
      } else {
        SignalPreserves(s, Apply(s, l));
      }
  }

  /** The invariant holds in every state of every run. */
  lemma {:induction false} InvariantOverRuns(s: State, ls: seq<Label>, t: State)
    requires Inv(s) && Runs(s, ls, t)
    ensures Inv(t)
    decreases |ls|
  {
    if ls != [] {
      ApplyPreserves(s, ls[0]);
      InvariantOverRuns(Apply(s, ls[0]), ls[1..], t);
    }
  }

  ghost predicate Reachable(s: State) { exists ls :: Runs(Init, ls, s) }

  lemma ReachableInv(s: State)
    requires Reachable(s)
    ensures Inv(s)
  {
    var ls :| Runs(Init, ls, s);
    InvariantOverRuns(Init, ls, s);
  }
}
