/** internal/telemetry/aggregator.go: recorders and snapshots as sequences of
    atomic steps, in any interleaving. A snapshot is not atomic, yet no count is
    lost or reported twice. */
module Aggregator {
  import opened Sums

  type Key = nat     // a tool name
  type Cell = nat    // one *atomic.Int64 in toolCalls
  type Thread = nat  // one call of recordToolCall or snapshot

  datatype RecorderPc = Counting | AddingParams | Loading | Adding(cell: Cell) | Recorded

  datatype Recorder = Recorder(tool: Key, pc: RecorderPc)

  /** visited: the keys Range has been given so far; it gives none twice, and none
      that was there when it began is left out: those are due. */
  datatype SnapshotPc = SwapTotal | Ranging(visited: set<Key>, due: set<Key>) | Taken

  datatype Snapshot = Snapshot(pc: SnapshotPc, total: nat, tools: map<Key, nat>)

  /** added is the history of finished increments of tool counters. */
  datatype State = State(
    toolCallCount: nat, table: map<Key, Cell>, cells: map<Cell, nat>,
    recorders: map<Thread, Recorder>, snapshots: map<Thread, Snapshot>, added: multiset<Key>)

  const Init := State(0, map[], map[], map[], map[], multiset{})

  datatype Label =
    | Record(id: Thread, tool: Key)
    | RecordStep(id: Thread, newCell: Cell)
    | Snap(id: Thread)
    | SnapTotal(id: Thread)
    | SnapKey(id: Thread, key: Key)
    | SnapDone(id: Thread)

  predicate Enabled(s: State, l: Label) {
    match l
    case Record(id, _) => id !in s.recorders
    case RecordStep(id, newCell) => id in s.recorders && !s.recorders[id].pc.Recorded? && newCell !in s.cells
    case Snap(id) => id !in s.snapshots
    case SnapTotal(id) => id in s.snapshots && s.snapshots[id].pc.SwapTotal?
    case SnapKey(id, key) =>
      && id in s.snapshots && s.snapshots[id].pc.Ranging? && key !in s.snapshots[id].pc.visited
      && key in s.table && s.table[key] in s.cells
    case SnapDone(id) =>
      id in s.snapshots && s.snapshots[id].pc.Ranging? && s.snapshots[id].pc.due <= s.snapshots[id].pc.visited
  }

  function StepRecorder(s: State, id: Thread, newCell: Cell): State
    requires Enabled(s, RecordStep(id, newCell))
  {
    var r := s.recorders[id];
    match r.pc
    case Counting => s.(toolCallCount := s.toolCallCount + 1, recorders := s.recorders[id := r.(pc := AddingParams)])
    case AddingParams => s.(recorders := s.recorders[id := r.(pc := Loading)])
    case Loading =>  // LoadOrStore
      if r.tool in s.table then s.(recorders := s.recorders[id := r.(pc := Adding(s.table[r.tool]))])
      else s.(table := s.table[r.tool := newCell], cells := s.cells[newCell := 0],
              recorders := s.recorders[id := r.(pc := Adding(newCell))])
    case Adding(c) =>
      s.(cells := if c in s.cells then s.cells[c := s.cells[c] + 1] else s.cells,
         added := s.added + multiset{r.tool}, recorders := s.recorders[id := r.(pc := Recorded)])
    case Recorded => s
  }

  function Apply(s: State, l: Label): State
    requires Enabled(s, l)
  {
    match l
    case Record(id, tool) => s.(recorders := s.recorders[id := Recorder(tool, Counting)])
    case RecordStep(id, newCell) => StepRecorder(s, id, newCell)
    case Snap(id) => s.(snapshots := s.snapshots[id := Snapshot(SwapTotal, 0, map[])])
    case SnapTotal(id) =>
      s.(toolCallCount := 0,
         snapshots := s.snapshots[id := s.snapshots[id].(pc := Ranging({}, s.table.Keys), total := s.toolCallCount)])
    case SnapKey(id, key) =>
      var snap := s.snapshots[id];
      var n := s.cells[s.table[key]];
      s.(cells := s.cells[s.table[key] := 0],
         snapshots := s.snapshots[id := snap.(pc := snap.pc.(visited := snap.pc.visited + {key}),
                                              tools := if n > 0 then snap.tools[key := n] else snap.tools)])
    case SnapDone(id) => s.(snapshots := s.snapshots[id := s.snapshots[id].(pc := Taken)])
  }

  ghost predicate Runs(s: State, ls: seq<Label>, t: State)
    decreases |ls|
  {
    if ls == [] then s == t else Enabled(s, ls[0]) && Runs(Apply(s, ls[0]), ls[1..], t)
  }

  // ---- Counting ---------------------------------------------------------------

  ghost function Reported(key: Key): Snapshot -> nat { (s: Snapshot) => if key in s.tools then s.tools[key] else 0 }

  ghost function Total(): Snapshot -> nat { (s: Snapshot) => s.total }

  ghost function InFlight(): Recorder -> nat {
    (r: Recorder) => if r.pc.Counting? || r.pc.Recorded? then 0 else 1
  }

  /** What all snapshots so far have reported for a tool. */
  ghost function Flushed(s: State, key: Key): nat { Sum(s.snapshots, Reported(key)) }

  function Live(s: State, key: Key): nat {
    if key in s.table && s.table[key] in s.cells then s.cells[s.table[key]] else 0
  }

  ghost function FlushedTotal(s: State): nat { Sum(s.snapshots, Total()) }

  /** Every tool has a counter of its own that is never replaced, and whoever is
      about to add to one holds the current one. */
  predicate TableOk(s: State) {
    && (forall k | k in s.table :: s.table[k] in s.cells)
    && (forall j, k | j in s.table && k in s.table && s.table[j] == s.table[k] :: j == k)
    && (forall id | id in s.recorders && s.recorders[id].pc.Adding? ::
         Holds(s, s.recorders[id].tool, s.recorders[id].pc.cell))
    && (forall k | k in s.added :: k in s.table)
  }

  predicate Holds(s: State, tool: Key, cell: Cell) { tool in s.table && s.table[tool] == cell }

  /** A snapshot has reported no key it has not visited, and no total before it
      swaps the counter. */
  predicate SnapshotOk(snap: Snapshot) {
    match snap.pc
    case SwapTotal => snap.tools == map[] && snap.total == 0
    case Ranging(visited, _) => snap.tools.Keys <= visited
    case Taken => true
  }

  predicate SnapshotsOk(s: State) { forall id | id in s.snapshots :: SnapshotOk(s.snapshots[id]) }

  ghost predicate ToolsOk(s: State) { forall k :: Flushed(s, k) + Live(s, k) == s.added[k] }

  ghost predicate TotalOk(s: State) { FlushedTotal(s) + s.toolCallCount == |s.added| + Sum(s.recorders, InFlight()) }

  ghost predicate Inv(s: State) { TableOk(s) && SnapshotsOk(s) && ToolsOk(s) && TotalOk(s) }

  predicate OfRecorder(l: Label) { l.Record? || l.RecordStep? }

  lemma LoadKeepsTable(s: State, id: Thread, newCell: Cell)
    requires TableOk(s) && Enabled(s, RecordStep(id, newCell)) && s.recorders[id].pc.Loading?
    ensures TableOk(StepRecorder(s, id, newCell))
  {
    var t := StepRecorder(s, id, newCell);
    forall other | other in t.recorders && t.recorders[other].pc.Adding?
      ensures Holds(t, t.recorders[other].tool, t.recorders[other].pc.cell)
    {
      if other != id { assert Holds(s, s.recorders[other].tool, s.recorders[other].pc.cell); }
    }
  }

  lemma AddKeepsTable(s: State, id: Thread, newCell: Cell)
    requires TableOk(s) && Enabled(s, RecordStep(id, newCell)) && s.recorders[id].pc.Adding?
    ensures TableOk(StepRecorder(s, id, newCell))
  {
    var r := s.recorders[id];
    assert Holds(s, r.tool, r.pc.cell);
    RecordersMove(s, StepRecorder(s, id, newCell), id);
  }

  /** A recorder moves on without touching the table. */
  lemma RecordersMove(s: State, t: State, id: Thread)
    requires TableOk(s) && t.table == s.table && t.cells.Keys == s.cells.Keys
    requires id in t.recorders && t.recorders == s.recorders[id := t.recorders[id]] && !t.recorders[id].pc.Adding?
    requires forall k | k in t.added :: k in s.table
    ensures TableOk(t)
  {
    forall other | other in t.recorders && t.recorders[other].pc.Adding?
      ensures Holds(t, t.recorders[other].tool, t.recorders[other].pc.cell)
    {
      assert Holds(s, s.recorders[other].tool, s.recorders[other].pc.cell);
    }
  }

  lemma RecorderKeepsTable(s: State, l: Label)
    requires TableOk(s) && Enabled(s, l) && OfRecorder(l)
    ensures TableOk(Apply(s, l))
  {
    if l.RecordStep? && s.recorders[l.id].pc.Loading? {
      LoadKeepsTable(s, l.id, l.newCell);
    } else if l.RecordStep? && s.recorders[l.id].pc.Adding? {
      AddKeepsTable(s, l.id, l.newCell);
    } else {
      RecordersMove(s, Apply(s, l), l.id);
    }
  }

  lemma SnapshotKeepsTable(s: State, l: Label)
    requires TableOk(s) && Enabled(s, l) && !OfRecorder(l)
    ensures TableOk(Apply(s, l))
  {
  }

  lemma SnapshotsKeep(s: State, l: Label)
    requires SnapshotsOk(s) && Enabled(s, l)
    ensures SnapshotsOk(Apply(s, l))
  {
  }

  lemma AddTools(s: State, id: Thread, newCell: Cell, k: Key)
    requires TableOk(s) && Enabled(s, RecordStep(id, newCell)) && s.recorders[id].pc.Adding?
    ensures Live(StepRecorder(s, id, newCell), k) - Live(s, k) == (if k == s.recorders[id].tool then 1 else 0)
  {
    assert Holds(s, s.recorders[id].tool, s.recorders[id].pc.cell);
  }

  lemma OtherTools(s: State, l: Label, k: Key)
    requires TableOk(s) && Enabled(s, l) && OfRecorder(l)
    requires l.RecordStep? ==> !s.recorders[l.id].pc.Adding?
    ensures Live(Apply(s, l), k) == Live(s, k) && Apply(s, l).added == s.added
  {
  }

  lemma RecorderTools(s: State, l: Label, k: Key)
    requires TableOk(s) && Enabled(s, l) && OfRecorder(l)
    ensures Apply(s, l).snapshots == s.snapshots
    ensures Live(Apply(s, l), k) - Live(s, k) == Apply(s, l).added[k] - s.added[k]
  {
    if l.RecordStep? && s.recorders[l.id].pc.Adding? { AddTools(s, l.id, l.newCell, k); } else { OtherTools(s, l, k); }
  }

  lemma SnapshotTools(s: State, l: Label, k: Key)
    requires TableOk(s) && SnapshotsOk(s) && Enabled(s, l) && !OfRecorder(l)
    ensures Flushed(Apply(s, l), k) + Live(Apply(s, l), k) == Flushed(s, k) + Live(s, k)
  {
    var t := Apply(s, l);
    SumUpdate(s.snapshots, l.id, t.snapshots[l.id], Reported(k));
    if l.id in s.snapshots { SumSplit(s.snapshots, l.id, Reported(k)); }
    if l.SnapKey? {
      var (before, now) := (Reported(k)(s.snapshots[l.id]), Reported(k)(t.snapshots[l.id]));
      assert k == l.key ==> Live(t, k) == 0 && now == Live(s, k) && before == 0;
      assert k != l.key ==> Live(t, k) == Live(s, k) && now == before;
    } else {
      assert Live(t, k) == Live(s, k);
    }
  }

  lemma ToolsKeep(s: State, l: Label)
    requires TableOk(s) && SnapshotsOk(s) && ToolsOk(s) && Enabled(s, l)
    ensures ToolsOk(Apply(s, l))
  {
    forall k ensures Flushed(Apply(s, l), k) + Live(Apply(s, l), k) == Apply(s, l).added[k] {
      assert Flushed(s, k) + Live(s, k) == s.added[k];
      if OfRecorder(l) { RecorderTools(s, l, k); } else { SnapshotTools(s, l, k); }
    }
  }

  lemma RecorderTotal(s: State, l: Label)
    requires TotalOk(s) && Enabled(s, l) && OfRecorder(l)
    ensures TotalOk(Apply(s, l))
  {
    var t := Apply(s, l);
    SumUpdate(s.recorders, l.id, t.recorders[l.id], InFlight());
    if l.id in s.recorders { SumSplit(s.recorders, l.id, InFlight()); }
  }

  lemma SnapshotTotal(s: State, l: Label)
    requires SnapshotsOk(s) && TotalOk(s) && Enabled(s, l) && !OfRecorder(l)
    ensures TotalOk(Apply(s, l))
  {
    var t := Apply(s, l);
    SumUpdate(s.snapshots, l.id, t.snapshots[l.id], Total());
    if l.id in s.snapshots { SumSplit(s.snapshots, l.id, Total()); }
  }

  lemma StepKeeps(s: State, l: Label)
    requires Inv(s) && Enabled(s, l)
    ensures Inv(Apply(s, l))
  {
    SnapshotsKeep(s, l);
    ToolsKeep(s, l);
    if OfRecorder(l) {
      RecorderKeepsTable(s, l);
      RecorderTotal(s, l);
    } else {
      SnapshotKeepsTable(s, l);
      SnapshotTotal(s, l);
    }
  }

  lemma {:induction false} RunKeeps(s: State, ls: seq<Label>, t: State)
    requires Inv(s) && Runs(s, ls, t)
    ensures Inv(t)
    decreases |ls|
  {
    if ls != [] {
      StepKeeps(s, ls[0]);
      RunKeeps(Apply(s, ls[0]), ls[1..], t);
    }
  }

  /** In every interleaving of recorders and snapshots, what the snapshots have
      reported for a tool and what its counter still holds are together exactly
      the increments made. */
  lemma CountsAreConserved(ls: seq<Label>, t: State, key: Key)
    requires Runs(Init, ls, t)
    ensures Flushed(t, key) + Live(t, key) == t.added[key]
  {
    RunKeeps(Init, ls, t);
  }

  /** The tools' own counts, flushed and live, added up. */
  ghost function AllTools(s: State): nat {
    Sum<Key, Key>(map k: Key | k in s.table :: k, ToolCount(s))
  }

  ghost function ToolCount(s: State): Key -> nat { (k: Key) => Flushed(s, k) + Live(s, k) }

  lemma {:induction false} CountByKey(m: multiset<Key>, keys: map<Key, Key>, count: Key -> nat)
    requires forall k | k in m :: k in keys
    requires forall k | k in keys :: keys[k] == k && count(k) == m[k]
    ensures Sum(keys, count) == |m|
    decreases |keys|
  {
    if keys == map[] {
      assert m == multiset{};
    } else {
      var k :| k in keys;
      SumSplit(keys, k, count);
      var rest := m[k := 0];
      assert m == rest + multiset{}[k := m[k]];
      CountByKey(rest, keys - {k}, count);
    }
  }

  /** With no recorder in flight the total agrees with the tools, although a
      snapshot reads them one after the other. */
  lemma TotalsAgreeAtRest(ls: seq<Label>, t: State)
    requires Runs(Init, ls, t)
    requires forall id | id in t.recorders :: t.recorders[id].pc.Counting? || t.recorders[id].pc.Recorded?
    ensures FlushedTotal(t) + t.toolCallCount == AllTools(t) == |t.added|
  {
    RunKeeps(Init, ls, t);
    NoneInFlight(t.recorders);
    CountByKey(t.added, map k: Key | k in t.table :: k, ToolCount(t));
  }

  lemma {:induction false} NoneInFlight(recorders: map<Thread, Recorder>)
    requires forall id | id in recorders :: recorders[id].pc.Counting? || recorders[id].pc.Recorded?
    ensures Sum(recorders, InFlight()) == 0
    decreases |recorders|
  {
    if recorders != map[] {
      var id :| id in recorders;
      SumSplit(recorders, id, InFlight());
      NoneInFlight(recorders - {id});
    }
  }
}
