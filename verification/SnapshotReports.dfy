/** What one telemetry snapshot reports, and what recorders leave for it to report. */
module SnapshotReports {
  import opened Sums
  import opened Aggregator

  // ---- Recorders --------------------------------------------------------------

  function Rank(pc: RecorderPc): nat {
    match pc case Counting => 0 case AddingParams => 1 case Loading => 2 case Adding(_) => 3 case Recorded => 4
  }

  /** A recorder has four steps, each leading to the next, and can always take one
      until it is through. */
  lemma RecorderMovesOn(s: State, id: Thread, newCell: Cell)
    requires id in s.recorders && newCell !in s.cells
    ensures Enabled(s, RecordStep(id, newCell)) <==> Rank(s.recorders[id].pc) < 4
    ensures Enabled(s, RecordStep(id, newCell)) ==>
              var t := Apply(s, RecordStep(id, newCell));
              id in t.recorders && t.recorders[id].tool == s.recorders[id].tool
              && Rank(t.recorders[id].pc) == Rank(s.recorders[id].pc) + 1
  {
  }

  ghost function Through(key: Key): Recorder -> nat {
    (r: Recorder) => if r.tool == key && r.pc.Recorded? then 1 else 0
  }

  /** The increments of a tool are the recorders of it that are through. */
  ghost predicate AllCounted(s: State) { forall k :: s.added[k] == Sum(s.recorders, Through(k)) }

  /** A step puts a recorder through exactly when it adds its increment. */
  lemma RecorderAdds(s: State, l: Label, k: Key)
    requires Enabled(s, l) && OfRecorder(l)
    ensures var t := Apply(s, l);
            && l.id in t.recorders && t.recorders == s.recorders[l.id := t.recorders[l.id]]
            && t.added[k] - s.added[k]
               == Through(k)(t.recorders[l.id]) - (if l.id in s.recorders then Through(k)(s.recorders[l.id]) else 0)
  {
  }

  lemma RecorderCounts(s: State, l: Label, k: Key)
    requires Enabled(s, l) && OfRecorder(l) && s.added[k] == Sum(s.recorders, Through(k))
    ensures Apply(s, l).added[k] == Sum(Apply(s, l).recorders, Through(k))
  {
    var t := Apply(s, l);
    RecorderAdds(s, l, k);
    SumUpdate(s.recorders, l.id, t.recorders[l.id], Through(k));
    if l.id in s.recorders { SumSplit(s.recorders, l.id, Through(k)); }
  }

  lemma {:induction false} IncrementsAreRecorders(s: State, ls: seq<Label>, t: State)
    requires AllCounted(s) && Runs(s, ls, t)
    ensures AllCounted(t)
    decreases |ls|
  {
    if ls != [] {
      var m := Apply(s, ls[0]);
      forall k ensures m.added[k] == Sum(m.recorders, Through(k)) {
        assert s.added[k] == Sum(s.recorders, Through(k));
        if OfRecorder(ls[0]) { RecorderCounts(s, ls[0], k); }
      }
      IncrementsAreRecorders(m, ls[1..], t);
    }
  }

  // ---- A snapshot while nothing is recorded -----------------------------------

  ghost predicate NoRecording(ls: seq<Label>) { forall i | 0 <= i < |ls| :: !OfRecorder(ls[i]) }

  /** What snapshot id, begun at s with nothing recorded since, has achieved at u:
      the counters it has visited are empty, at the end all are. */
  ghost predicate Emptied(s: State, u: State, id: Thread) {
    && id in u.snapshots && u.table == s.table && u.added == s.added
    && match u.snapshots[id].pc
       case SwapTotal => true
       case Ranging(visited, due) => due == u.table.Keys && forall k | k in visited :: Live(u, k) == 0
       case Taken => forall k :: Live(u, k) == 0
  }

  /** Without recorders a counter only ever goes to zero, when a snapshot visits it. */
  lemma CountersOnlyEmpty(s: State, l: Label, k: Key)
    requires TableOk(s) && Enabled(s, l) && !OfRecorder(l)
    ensures Live(Apply(s, l), k) == if l.SnapKey? && l.key == k then 0 else Live(s, k)
    ensures Apply(s, l).table == s.table && Apply(s, l).added == s.added
  {
  }

  lemma StepEmpties(s: State, u: State, l: Label, id: Thread)
    requires TableOk(u) && Emptied(s, u, id) && Enabled(u, l) && !OfRecorder(l)
    ensures Emptied(s, Apply(u, l), id)
  {
    var t := Apply(u, l);
    forall k ensures Live(t, k) == if l.SnapKey? && l.key == k then 0 else Live(u, k) { CountersOnlyEmpty(u, l, k); }
    assert t.table == u.table && t.added == u.added;
    if t.snapshots[id].pc.Taken? && !u.snapshots[id].pc.Taken? {
      forall k ensures Live(t, k) == 0 { assert k in u.table ==> k in u.snapshots[id].pc.visited; }
    }
  }

  lemma {:induction false} RunEmpties(s: State, u: State, ls: seq<Label>, t: State, id: Thread)
    requires Inv(u) && Emptied(s, u, id) && Runs(u, ls, t) && NoRecording(ls)
    ensures Inv(t) && Emptied(s, t, id)
    decreases |ls|
  {
    if ls != [] {
      StepKeeps(u, ls[0]);
      StepEmpties(s, u, ls[0], id);
      assert forall i | 0 <= i < |ls[1..]| :: ls[1..][i] == ls[i + 1];
      RunEmpties(s, Apply(u, ls[0]), ls[1..], t, id);
    }
  }

  /** A snapshot that runs while nothing is recorded leaves every counter at zero:
      whatever was ever recorded has then been reported, by it or by another, also
      when others run at the same time. */
  lemma SnapshotEmptiesCounters(s: State, id: Thread, ls: seq<Label>, t: State)
    requires Inv(s) && id in s.snapshots && s.snapshots[id].pc.SwapTotal? && Runs(s, ls, t) && NoRecording(ls)
    requires id in t.snapshots && t.snapshots[id].pc.Taken?
    ensures forall k :: Live(t, k) == 0 && Flushed(t, k) == t.added[k] == s.added[k]
  {
    RunEmpties(s, s, ls, t, id);
    forall k ensures Live(t, k) == 0 && Flushed(t, k) == t.added[k] { assert Flushed(t, k) + Live(t, k) == t.added[k]; }
  }

  // ---- A snapshot by itself ---------------------------------------------------

  predicate OwnStep(l: Label, id: Thread) { (l.SnapTotal? || l.SnapKey? || l.SnapDone?) && l.id == id }

  ghost predicate OwnSteps(ls: seq<Label>, id: Thread) { forall i | 0 <= i < |ls| :: OwnStep(ls[i], id) }

  /** What it has reported of a tool, and what is left in the counter. */
  ghost predicate Reports(s: State, u: State, id: Thread, k: Key)
    requires id in u.snapshots
  {
    var snap := u.snapshots[id];
    && (k in snap.tools ==> snap.tools[k] > 0)
    && match snap.pc
       case SwapTotal => k !in snap.tools && Live(u, k) == Live(s, k)
       case Ranging(visited, _) =>
         if k in visited then Reported(k)(snap) == Live(s, k) && Live(u, k) == 0
         else k !in snap.tools && Live(u, k) == Live(s, k)
       case Taken => Reported(k)(snap) == Live(s, k)
  }

  ghost predicate ReportsTotal(s: State, u: State, id: Thread)
    requires id in u.snapshots
  {
    u.table == s.table
    && match u.snapshots[id].pc
       case SwapTotal => u.toolCallCount == s.toolCallCount
       case Ranging(_, due) => u.snapshots[id].total == s.toolCallCount && due == u.table.Keys
       case Taken => u.snapshots[id].total == s.toolCallCount
  }

  lemma StepReports(s: State, u: State, l: Label, id: Thread, k: Key)
    requires TableOk(u) && SnapshotsOk(u) && id in u.snapshots && Reports(s, u, id, k) && ReportsTotal(s, u, id)
    requires Enabled(u, l) && OwnStep(l, id)
    ensures id in Apply(u, l).snapshots && Reports(s, Apply(u, l), id, k)
  {
    CountersOnlyEmpty(u, l, k);
  }

  lemma {:induction false} RunReports(s: State, u: State, ls: seq<Label>, t: State, id: Thread, k: Key)
    requires Inv(u) && id in u.snapshots && Reports(s, u, id, k) && ReportsTotal(s, u, id)
    requires Runs(u, ls, t) && OwnSteps(ls, id)
    ensures id in t.snapshots && Reports(s, t, id, k) && ReportsTotal(s, t, id)
    decreases |ls|
  {
    if ls != [] {
      StepKeeps(u, ls[0]);
      StepReports(s, u, ls[0], id, k);
      assert forall i | 0 <= i < |ls[1..]| :: ls[1..][i] == ls[i + 1];
      RunReports(s, Apply(u, ls[0]), ls[1..], t, id, k);
    }
  }

  /** By itself, a snapshot reports of each tool exactly the increments that no
      earlier one has reported, naming the tools that have any; and the total since
      the last total was taken. */
  lemma SnapshotReportsTheRest(s: State, id: Thread, ls: seq<Label>, t: State, k: Key)
    requires Inv(s) && id in s.snapshots && s.snapshots[id].pc.SwapTotal? && Runs(s, ls, t) && OwnSteps(ls, id)
    requires id in t.snapshots && t.snapshots[id].pc.Taken?
    ensures Reported(k)(t.snapshots[id]) == s.added[k] - Flushed(s, k)
    ensures k in t.snapshots[id].tools <==> s.added[k] > Flushed(s, k)
    ensures t.snapshots[id].total == s.toolCallCount
  {
    assert SnapshotOk(s.snapshots[id]) && Flushed(s, k) + Live(s, k) == s.added[k];
    RunReports(s, s, ls, t, id, k);
  }

  // ---- Its total and its tools ------------------------------------------------

  ghost function Keys(s: State): map<Key, Key> { map k: Key | k in s.table :: k }

  ghost function LiveOf(s: State): Key -> nat { (k: Key) => Live(s, k) }

  ghost function FlushedOf(s: State): Key -> nat { (k: Key) => Flushed(s, k) }

  ghost function ReportedIn(snap: Snapshot): Key -> nat { (k: Key) => Reported(k)(snap) }

  /** What a snapshot's tools add up to. */
  ghost function ToolsOf(s: State, snap: Snapshot): nat { Sum<Key, Key>(Keys(s), ReportedIn(snap)) }

  /** What all snapshots have reported for all tools. */
  ghost function FlushedTools(s: State): nat { Sum<Key, Key>(Keys(s), FlushedOf(s)) }

  lemma {:induction false} SumPlus<K(!new), V>(m: map<K, V>, f: V -> nat, g: V -> nat, h: V -> nat)
    requires forall k | k in m :: h(m[k]) == f(m[k]) + g(m[k])
    ensures Sum(m, h) == Sum(m, f) + Sum(m, g)
    decreases |m|
  {
    if m != map[] {
      var k :| k in m;
      SumSplit(m, k, f);
      SumSplit(m, k, g);
      SumSplit(m, k, h);
      SumPlus(m - {k}, f, g, h);
    }
  }

  lemma {:induction false} SumSame<K(!new), V>(m: map<K, V>, f: V -> nat, g: V -> nat)
    requires forall k | k in m :: f(m[k]) == g(m[k])
    ensures Sum(m, f) == Sum(m, g)
    decreases |m|
  {
    if m != map[] {
      var k :| k in m;
      SumSplit(m, k, f);
      SumSplit(m, k, g);
      SumSame(m - {k}, f, g);
    }
  }

  predicate AtRest(s: State) {
    forall id | id in s.recorders :: s.recorders[id].pc.Counting? || s.recorders[id].pc.Recorded?
  }

  /** With no recorder in flight, the total not reported yet is what the live counters
      hold exactly when the totals and the tools reported so far agree. */
  lemma RestAgreesIff(s: State)
    requires Inv(s) && AtRest(s)
    ensures s.toolCallCount == Sum<Key, Key>(Keys(s), LiveOf(s)) <==> FlushedTotal(s) == FlushedTools(s)
  {
    NoneInFlight(s.recorders);
    CountByKey(s.added, Keys(s), ToolCount(s));
    SumPlus(Keys(s), FlushedOf(s), LiveOf(s), ToolCount(s));
  }

  /** A snapshot by itself, begun with no recorder in flight, has a total equal to the
      sum of its tools exactly when what earlier snapshots reported is in balance. */
  lemma TotalIsSumIff(s: State, id: Thread, ls: seq<Label>, t: State)
    requires Inv(s) && AtRest(s) && id in s.snapshots && s.snapshots[id].pc.SwapTotal?
    requires Runs(s, ls, t) && OwnSteps(ls, id) && id in t.snapshots && t.snapshots[id].pc.Taken?
    ensures t.snapshots[id].total == ToolsOf(s, t.snapshots[id]) <==> FlushedTotal(s) == FlushedTools(s)
  {
    SnapshotReportsTheRest(s, id, ls, t, 0);
    forall k | k in Keys(s) ensures ReportedIn(t.snapshots[id])(k) == LiveOf(s)(k) {
      SnapshotReportsTheRest(s, id, ls, t, k);
      assert Flushed(s, k) + Live(s, k) == s.added[k];
    }
    SumSame(Keys(s), ReportedIn(t.snapshots[id]), LiveOf(s));
    RestAgreesIff(s);
  }

  // ---- Out of balance ---------------------------------------------------------

  lemma {:induction false} ExtendRun(s: State, ls: seq<Label>, m: State, l: Label)
    requires Runs(s, ls, m) && Enabled(m, l)
    ensures Runs(s, ls + [l], Apply(m, l))
    decreases |ls|
  {
    if ls == [] {
      assert Runs(Apply(m, l), [l][1..], Apply(m, l));
      assert ls + [l] == [l];
    } else {
      assert (ls + [l])[1..] == ls[1..] + [l];
      ExtendRun(Apply(s, ls[0]), ls[1..], m, l);
    }
  }

  ghost predicate Reached(s: State) { exists ls :: Runs(Init, ls, s) }

  lemma Reach(s: State, l: Label) returns (t: State)
    requires Reached(s) && Enabled(s, l)
    ensures Reached(t) && t == Apply(s, l)
  {
    var ls :| Runs(Init, ls, s);
    ExtendRun(Init, ls, s, l);
    t := Apply(s, l);
  }

  /** A recorder of tool 5 has counted its call, and a snapshot has taken that total
      without finding any tool. */
  lemma EarlySnapshot() returns (s: State)
    ensures Reached(s)
    ensures s == Init.(recorders := map[0 := Recorder(5, AddingParams)],
                       snapshots := map[1 := Snapshot(Taken, 1, map[])])
  {
    assert Runs(Init, [], Init);
    s := Reach(Init, Record(0, 5));
    s := Reach(s, RecordStep(0, 0));
    s := Reach(s, Snap(1));
    s := Reach(s, SnapTotal(1));
    s := Reach(s, SnapDone(1));
  }

  /** The recorder goes on to its counter. */
  lemma LateRecorder() returns (s: State)
    ensures Reached(s)
    ensures s == State(0, map[5 := 0], map[0 := 0], map[0 := Recorder(5, Adding(0))],
                       map[1 := Snapshot(Taken, 1, map[])], multiset{})
  {
    s := EarlySnapshot();
    s := Reach(s, RecordStep(0, 1));
    assert s.recorders == map[0 := Recorder(5, Loading)];
    s := Reach(s, RecordStep(0, 0));
  }

  /** It adds, and a second snapshot begins. */
  lemma LateSnapshot() returns (s: State)
    ensures Reached(s)
    ensures s == State(0, map[5 := 0], map[0 := 1], map[0 := Recorder(5, Recorded)],
                       map[1 := Snapshot(Taken, 1, map[]), 2 := Snapshot(SwapTotal, 0, map[])], multiset{5})
  {
    s := LateRecorder();
    s := Reach(s, RecordStep(0, 7));
    assert s.recorders == map[0 := Recorder(5, Recorded)] && s.added == multiset{5} && s.cells == map[0 := 1];
    s := Reach(s, Snap(2));
  }

  /** By itself and with no recorder in flight, the second snapshot reports one call of
      tool 5 and a total of none. */
  lemma TotalsOutOfBalance() returns (s: State, ls: seq<Label>, t: State)
    ensures Reached(s) && AtRest(s) && 2 in s.snapshots && s.snapshots[2].pc.SwapTotal?
    ensures Runs(s, ls, t) && OwnSteps(ls, 2)
    ensures 2 in t.snapshots && t.snapshots[2] == Snapshot(Taken, 0, map[5 := 1])
  {
    s := LateSnapshot();
    var s1 := Apply(s, SnapTotal(2));
    var s2 := Apply(s1, SnapKey(2, 5));
    t := Apply(s2, SnapDone(2));
    ls := [SnapTotal(2), SnapKey(2, 5), SnapDone(2)];
    assert ls[1..] == [SnapKey(2, 5), SnapDone(2)] && ls[1..][1..] == [SnapDone(2)] && ls[1..][1..][1..] == [];
    assert Runs(t, [], t);
    assert Runs(s2, [SnapDone(2)], t);
    assert Runs(s1, [SnapKey(2, 5), SnapDone(2)], t);
  }
}
