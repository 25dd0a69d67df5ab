/** The connection and session-recovery protocol of internal/opcua/client.go and
    internal/opcua/session_recovery.go, together with the state forwarding of
    reconnect_watcher.go, as a labelled transition system.

    One transition is one critical section (of `mu` or `connectMu`), one atomic
    operation on `connGen`, one request to the server, or one dial. Any number of
    calls may be in flight; the server, the dialer and the scheduler are whatever
    the labels say. */
module Connection {
  import opened Wrappers

  type Conn = nat    // one underlying gopcua client, as handed out by one dial
  type Gen = nat     // a connection generation
  type CallId = nat  // one invocation of a Client method; never reused

  const STATE_CHANNEL_CAPACITY := 16

  datatype ConnState = Closed | Connected | Connecting | Disconnected | Reconnecting

  /** What one attempt on a connection came back with. */
  datatype Outcome = Ok | Stale | Failed

  datatype Attempt = Attempt(conn: Conn, outcome: Outcome)

  datatype Op =
    | Read        // any operation run through withSessionRecovery
    | Write       // sendWrite
    | Ensure      // EnsureConnected
    | Connect     // an explicit Connect
    | Rebuild     // the Connect issued by the reconnect watcher's callback
    | Disconnect

  /** Where a call is. Everything from CheckGen to Unlock runs under connectMu. */
  datatype Pc =
    | ReadGen
    | Snapshot
    | Rpc(conn: Conn)
    | Lock
    | CheckGen
    | CheckConnected
    | Retire
    | Bump
    | Dial(next: Gen)
    | Swap(next: Gen, dialed: Option<Conn>)
    | Close(retired: Conn, recovered: bool)
    | Unlock(recovered: bool)
    | Finished(ok: bool)

  /** One call: the generation it read, whether it holds or wants connectMu as
      recoverConnection, and the attempts it has made so far. */
  datatype Call = Call(op: Op, pc: Pc, gen: Gen, recovering: bool, attempts: seq<Attempt>)

  datatype State = State(
    client: Option<Conn>, connected: bool, clientGen: Gen,  // guarded by mu
    connGen: Gen,                                           // atomic
    connectMu: Option<CallId>,                              // the holder
    calls: map<CallId, Call>,
    inflight: multiset<ConnState>,  // states past the generation check, not yet sent
    stateCh: seq<ConnState>,        // states sent, not yet received by the watcher
    everConnected: bool, rebuild: Option<CallId>, firings: nat,  // the watcher
    // History: the generation of every connection ever dialed, the connections
    // closed so far, the generations a dial was started for, and the
    // generations recovery has started a dial for.
    dialedAt: map<Conn, Gen>, closed: set<Conn>, dialGens: set<Gen>, recoveryDials: multiset<Gen>)

  const Init := State(None, false, 0, 0, None, map[], multiset{}, [], false, None, 0, map[], {}, {}, multiset{})

  /** The nondeterminism of one call step. */
  datatype Choice = Tau | Answer(outcome: Outcome) | DialOk(conn: Conn) | DialErr

  datatype Label =
    | Start(id: CallId, op: Op)
    | Step(id: CallId, choice: Choice)
    | Forward(gen: Gen, state: ConnState)       // stateForwarder's generation check
    | Send(state: ConnState)                    // its channel send
    | Receive(newId: CallId)                    // the watcher takes one state

  // ---- Steps of one call ------------------------------------------------------

  predicate HoldsLock(pc: Pc) {
    pc.CheckGen? || pc.CheckConnected? || pc.Retire? || pc.Bump? || pc.Dial? || pc.Swap? || pc.Close? || pc.Unlock?
  }

  predicate Dialing(pc: Pc) { pc.Dial? || pc.Swap? }

  function NewCall(op: Op): Call {
    Call(op, if op.Read? || op.Write? || op.Ensure? then ReadGen else Lock, 0, false, [])
  }

  predicate StepEnabled(s: State, id: CallId, choice: Choice) {
    && id in s.calls
    && match s.calls[id].pc
       case Rpc(_) => choice.Answer?
       case Lock => choice.Tau? && s.connectMu.None?
       case Dial(_) => choice.DialErr? || (choice.DialOk? && choice.conn !in s.dialedAt)
       case Finished(_) => false
       case _ => choice.Tau?
  }

  function Goto(s: State, id: CallId, pc: Pc): State
    requires id in s.calls
  {
    s.(calls := s.calls[id := s.calls[id].(pc := pc)])
  }

  /** Snapshot: the operation goes to the published connection, or fails without
      one; EnsureConnected connects instead. */
  function TakeSnapshot(s: State, id: CallId): State
    requires id in s.calls
  {
    if s.connected && s.client.Some? then Goto(s, id, Rpc(s.client.value))
    else if s.calls[id].op.Ensure? then Goto(s, id, Lock)
    else Goto(s, id, Finished(false))
  }

  predicate NeedsRecovery(k: Call, outcome: Outcome) {
    match k.op
    case Read => outcome.Stale? && k.attempts == []
    case Write => outcome.Stale?
    case _ => !outcome.Ok?
  }

  function ReceiveAnswer(s: State, id: CallId, outcome: Outcome): State
    requires id in s.calls && s.calls[id].pc.Rpc?
  {
    var k := s.calls[id];
    var tried := k.(attempts := k.attempts + [Attempt(k.pc.conn, outcome)]);
    var k' := if NeedsRecovery(k, outcome) then tried.(pc := Lock, recovering := true)
              else tried.(pc := Finished(outcome.Ok?));
    s.(calls := s.calls[id := k'])
  }

  function Acquire(s: State, id: CallId): State
    requires id in s.calls
  {
    var k := s.calls[id];
    var pc := if k.recovering then CheckGen else if k.op.Disconnect? then Retire else Bump;
    Goto(s, id, pc).(connectMu := Some(id))
  }

  /** connGen.Add(1) at the head of connectLocked. */
  function StartDial(s: State, id: CallId): State
    requires id in s.calls
  {
    var k := s.calls[id];
    Goto(s, id, Dial(s.connGen + 1)).(
      connGen := s.connGen + 1,
      dialGens := s.dialGens + {s.connGen + 1},
      recoveryDials := if k.recovering then s.recoveryDials + multiset{k.gen} else s.recoveryDials)
  }

  function EndDial(s: State, id: CallId, choice: Choice): State
    requires id in s.calls && s.calls[id].pc.Dial?
    requires choice.DialErr? || choice.DialOk?
  {
    var next := s.calls[id].pc.next;
    if choice.DialOk? then
      Goto(s, id, Swap(next, Some(choice.conn))).(dialedAt := s.dialedAt[choice.conn := next])
    else
      Goto(s, id, Swap(next, None))
  }

  /** The mu section of connectLocked. */
  function Publish(s: State, id: CallId): State
    requires id in s.calls && s.calls[id].pc.Swap?
  {
    var dialed := s.calls[id].pc.dialed;
    var pc := if s.client.Some? then Close(s.client.value, dialed.Some?) else Unlock(dialed.Some?);
    Goto(s, id, pc).(client := dialed, connected := dialed.Some?, clientGen := s.calls[id].pc.next)
  }

  /** The mu section of Disconnect. */
  function RetireLive(s: State, id: CallId): State
    requires id in s.calls
  {
    var pc := if s.client.Some? && s.connected then Close(s.client.value, true) else Unlock(true);
    Goto(s, id, pc).(connGen := s.connGen + 1, clientGen := s.connGen + 1, connected := false)
  }

  /** Leaving connectMu: a recovered read retries, a write never does. */
  function Release(s: State, id: CallId): State
    requires id in s.calls && s.calls[id].pc.Unlock?
  {
    var recovered := s.calls[id].pc.recovered;
    var pc := if s.calls[id].op.Read? && recovered then Snapshot
              else Finished(recovered && !s.calls[id].op.Write?);
    Goto(s, id, pc).(connectMu := None)
  }

  function StepCall(s: State, id: CallId, choice: Choice): State
    requires StepEnabled(s, id, choice)
  {
    var k := s.calls[id];
    match k.pc
    case ReadGen => s.(calls := s.calls[id := k.(pc := Snapshot, gen := s.clientGen)])
    case Snapshot => TakeSnapshot(s, id)
    case Rpc(_) => ReceiveAnswer(s, id, choice.outcome)
    case Lock => Acquire(s, id)
    case CheckGen => Goto(s, id, if s.clientGen != k.gen then Unlock(true) else CheckConnected)
    case CheckConnected => Goto(s, id, if s.connected && s.client.Some? then Bump else Unlock(false))
    case Retire => RetireLive(s, id)
    case Bump => StartDial(s, id)
    case Dial(_) => EndDial(s, id, choice)
    case Swap(_, _) => Publish(s, id)
    case Close(retired, recovered) => Goto(s, id, Unlock(recovered)).(closed := s.closed + {retired})
    case Unlock(_) => Release(s, id)
    case Finished(_) => s
  }

  // ---- State forwarding and the watcher ---------------------------------------

  function ForwardState(s: State, gen: Gen, state: ConnState): State {
    if s.connGen != gen then s else s.(inflight := s.inflight + multiset{state})
  }

  /** The watcher is busy while the Connect of its last firing is unfinished. */
  predicate WatcherIdle(s: State) {
    s.rebuild.Some? && s.rebuild.value in s.calls ==> s.calls[s.rebuild.value].pc.Finished?
  }

  predicate FiresOn(everConnected: bool, state: ConnState) { state.Closed? && everConnected }

  function ReceiveState(s: State, newId: CallId): State
    requires s.stateCh != []
  {
    var state := s.stateCh[0];
    var s' := s.(stateCh := s.stateCh[1..]);
    if state.Connected? then s'.(everConnected := true)
    else if FiresOn(s.everConnected, state) then
      s'.(everConnected := false, firings := s.firings + 1, rebuild := Some(newId),
          calls := s.calls[newId := NewCall(Rebuild)])
    else s'
  }

  predicate Enabled(s: State, l: Label) {
    match l
    case Start(id, op) => id !in s.calls && !op.Rebuild?
    case Step(id, choice) => StepEnabled(s, id, choice)
    case Forward(gen, _) => gen in s.dialGens
    case Send(state) => state in s.inflight && |s.stateCh| < STATE_CHANNEL_CAPACITY
    case Receive(newId) => s.stateCh != [] && WatcherIdle(s) && newId !in s.calls
  }

  function Apply(s: State, l: Label): State
    requires Enabled(s, l)
  {
    match l
    case Start(id, op) => s.(calls := s.calls[id := NewCall(op)])
    case Step(id, choice) => StepCall(s, id, choice)
    case Forward(gen, state) => ForwardState(s, gen, state)
    case Send(state) => s.(inflight := s.inflight - multiset{state}, stateCh := s.stateCh + [state])
    case Receive(newId) => ReceiveState(s, newId)
  }

  /** The labels lead from s to t. */
  ghost predicate Runs(s: State, ls: seq<Label>, t: State)
    decreases |ls|
  {
    if ls == [] then s == t
    else Enabled(s, ls[0]) && Runs(Apply(s, ls[0]), ls[1..], t)
  }

  // ---- The invariant ----------------------------------------------------------

  /** conn was published at some point after a call that read gen did so. */
  predicate SeenSince(s: State, gen: Gen, conn: Conn) {
    conn in s.dialedAt && gen <= s.dialedAt[conn] <= s.clientGen
  }

  predicate LockShape(s: State, id: CallId)
    requires id in s.calls
  {
    var k := s.calls[id];
    match k.pc
    case CheckGen => k.recovering
    case CheckConnected => k.recovering && k.gen == s.clientGen
    case Bump => k.recovering ==> k.gen == s.clientGen && s.connected
    case Dial(next) => next == s.connGen && next in s.dialGens && forall c | c in s.dialedAt :: s.dialedAt[c] < next
    case Swap(next, dialed) =>
      && next == s.connGen
      && (dialed.Some? ==> dialed.value in s.dialedAt && s.dialedAt[dialed.value] == next)
    case Close(retired, _) => retired in s.dialedAt && s.dialedAt[retired] < s.connGen
    case _ => true
  }

  /** How many attempts a call can have behind it, and which. */
  predicate AttemptShape(k: Call) {
    var n := |k.attempts|;
    && n <= (if k.op.Read? then 2 else 1)
    && ((k.pc.ReadGen? || k.op.Connect? || k.op.Rebuild? || k.op.Disconnect?) ==> n == 0 && !k.recovering)
    && (k.pc.ReadGen? || k.pc.Rpc? || k.pc.Snapshot? ==> k.op.Read? || k.op.Write? || k.op.Ensure?)
    && (k.pc.Rpc? || k.pc.Snapshot? ==> n == (if k.recovering then 1 else 0) && (n == 1 ==> k.op.Read?))
    && (k.pc.Lock? || HoldsLock(k.pc) ==> n == (if k.recovering then 1 else 0))
    && (k.recovering ==> n >= 1 && NeedsRecovery(k.(attempts := []), k.attempts[0].outcome))
    && (n == 2 ==> k.recovering)
  }

  predicate CallOk(s: State, id: CallId)
    requires id in s.calls
  {
    var k := s.calls[id];
    && (HoldsLock(k.pc) <==> s.connectMu == Some(id))
    && k.gen <= s.clientGen
    && (k.pc.Rpc? ==> SeenSince(s, k.gen, k.pc.conn))
    && (forall i | 0 <= i < |k.attempts| :: SeenSince(s, k.gen, k.attempts[i].conn))
    && LockShape(s, id)
    && AttemptShape(k)
  }

  predicate InDial(s: State) {
    s.connectMu.Some? && s.connectMu.value in s.calls && Dialing(s.calls[s.connectMu.value].pc)
  }

  /** Some call under connectMu still has conn to publish or to close. */
  predicate InHand(s: State, conn: Conn) {
    && s.connectMu.Some? && s.connectMu.value in s.calls
    && var pc := s.calls[s.connectMu.value].pc;
       (pc.Swap? && pc.dialed == Some(conn)) || (pc.Close? && pc.retired == conn)
  }

  predicate Live(s: State, conn: Conn) { s.connected && s.client == Some(conn) }

  predicate ClientOk(s: State) {
    && s.connGen == (if InDial(s) then s.clientGen + 1 else s.clientGen)
    && (s.connectMu.Some? ==> s.connectMu.value in s.calls)
    && (forall c | c in s.dialedAt :: s.dialedAt[c] <= s.connGen)
    && (s.client.Some? ==> s.client.value in s.dialedAt && s.dialedAt[s.client.value] <= s.clientGen)
    && (s.connected ==> s.client.Some? && s.dialedAt[s.client.value] == s.clientGen)
  }

  predicate HistoryOk(s: State) {
    && (forall c | c in s.dialedAt :: s.dialedAt[c] in s.dialGens)
    && (forall c, d | c in s.dialedAt && d in s.dialedAt :: s.dialedAt[c] == s.dialedAt[d] ==> c == d)
    && (forall g | g in s.dialGens :: g <= s.connGen)
    && (forall c | c in s.closed :: c in s.dialedAt && s.dialedAt[c] < s.connGen)
    && (forall c | c in s.closed :: !Live(s, c))
    && (forall c | c in s.dialedAt :: c in s.closed || Live(s, c) || InHand(s, c))
    && (forall g | g in s.recoveryDials :: g < s.connGen && s.recoveryDials[g] == 1)
  }

  ghost predicate Inv(s: State) {
    && ClientOk(s)
    && HistoryOk(s)
    && forall id | id in s.calls :: CallOk(s, id)
  }
}
