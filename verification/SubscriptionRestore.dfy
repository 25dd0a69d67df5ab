/** What a restore brings back of each persisted intent, and what it leaves of it. */
module SubscriptionRestore {
  import opened Subscriptions
  import opened SubscriptionProofs
  import opened SubscriptionRuns

  /** a is what remains of b after leaving some elements out. */
  ghost predicate IsSubsequence<T(!new)>(a: seq<T>, b: seq<T>) {
    exists at: seq<nat> :: Picks(a, b, at)
  }

  predicate Picks<T(==)>(a: seq<T>, b: seq<T>, at: seq<nat>) {
    && |at| == |a|
    && (forall k | 0 <= k < |at| :: at[k] < |b| && a[k] == b[at[k]])
    && (forall j, k | 0 <= j < k < |at| :: at[j] < at[k])
  }

  /** What is picked from the tail of b can be picked from b. */
  lemma PicksShift<T>(a: seq<T>, b: seq<T>, at: seq<nat>) returns (at': seq<nat>)
    requires b != [] && Picks(a, b[1..], at)
    ensures Picks(a, b, at') && forall k | 0 <= k < |at'| :: at'[k] > 0
  {
    at' := seq(|at|, k requires 0 <= k < |at| => at[k] + 1);
    assert forall k | 0 <= k < |at| :: b[1..][at[k]] == b[at[k] + 1];
  }

  lemma PicksHead<T>(a: seq<T>, b: seq<T>, at: seq<nat>) returns (at': seq<nat>)
    requires b != [] && Picks(a, b, at) && forall k | 0 <= k < |at| :: at[k] > 0
    ensures Picks([b[0]] + a, b, at')
  {
    at' := [0] + at;
    var a' := [b[0]] + a;
    assert forall k | 0 < k < |at'| :: at'[k] == at[k - 1] && a'[k] == a[k - 1];
  }

  lemma {:induction false} AcceptedIsSubsequence(nodes: seq<NodeId>, results: seq<ItemResult>) returns (at: seq<nat>)
    requires |results| <= |nodes|
    ensures Picks(AcceptedNodes(nodes, results), nodes, at)
    decreases |results|
  {
    if results == [] {
      at := [];
    } else {
      var rest := AcceptedIsSubsequence(nodes[1..], results[1..]);
      at := PicksShift(AcceptedNodes(nodes[1..], results[1..]), nodes, rest);
      if results[0].Accepted? {
        at := PicksHead(AcceptedNodes(nodes[1..], results[1..]), nodes, at);
      } else {
        assert AcceptedNodes(nodes, results) == AcceptedNodes(nodes[1..], results[1..]);
      }
    }
  }

  predicate AllAccepted(r: Reply, n: nat) {
    r.subscribeOk && r.monitorOk && |r.results| == n && forall k | 0 <= k < n :: r.results[k].Accepted?
  }

  lemma {:induction false} AcceptsEverything(nodes: seq<NodeId>, results: seq<ItemResult>)
    requires |results| == |nodes| && forall k | 0 <= k < |nodes| :: results[k].Accepted?
    ensures AcceptedNodes(nodes, results) == nodes
  {
    if nodes != [] {
      AcceptsEverything(nodes[1..], results[1..]);
    }
  }

  /** Something is accepted if any result says so, and everything only if all do. */
  lemma {:induction false} AcceptedSome(nodes: seq<NodeId>, results: seq<ItemResult>)
    requires |results| <= |nodes|
    ensures AcceptedNodes(nodes, results) != [] <==> exists k | 0 <= k < |results| :: results[k].Accepted?
    ensures |AcceptedNodes(nodes, results)| <= |results|
    ensures |AcceptedNodes(nodes, results)| == |results| <==> forall k | 0 <= k < |results| :: results[k].Accepted?
    decreases |results|
  {
    if results != [] {
      AcceptedSome(nodes[1..], results[1..]);
      assert forall k | 0 < k < |results| :: results[k] == results[1..][k - 1];
      assert forall k | 0 <= k < |results[1..]| :: results[1..][k] == results[k + 1];
    }
  }

  lemma {:induction false} ParsesFully(nodes: seq<NodeId>)
    requires Parse(nodes)
    ensures ParsedPrefix(nodes) == |nodes|
  {
    if nodes != [] {
      ParsesFully(nodes[1..]);
    }
  }

  // ---- One intent -------------------------------------------------------------

  /** The intent as the server accepted it. */
  function Kept(intent: Record, r: Reply): Record
    requires |r.results| <= |intent.nodes|
  {
    intent.(nodes := AcceptedNodes(intent.nodes, r.results))
  }

  /** Whether an intent is taken in, open telling whether there is or can be a
      group for it when its turn comes. */
  predicate Takes(intent: Record, r: Reply, open: bool)
    requires |r.results| <= |intent.nodes|
  {
    open && r.monitorOk && Kept(intent, r).nodes != []
  }

  /** What became of one intent: taken in with exactly the nodes the server
      accepted, in their order, and persisted so if the store works; or off the
      record and untouched. */
  ghost predicate Restores(intent: Record, r: Reply, open: bool, m: Manager) {
    && |r.results| <= |intent.nodes|
    && IsSubsequence(Kept(intent, r).nodes, intent.nodes)
    && (intent.id in m.subs <==> Takes(intent, r, open))
    && (intent.id in m.subs ==> m.subs[intent.id] == Kept(intent, r))
    && intent.id in m.intents
    && m.intents[intent.id] == if Takes(intent, r, open) && r.putOk then Kept(intent, r) else intent
  }

  /** Nothing but what order names is touched. */
  ghost predicate Spares(m: Manager, m': Manager, order: seq<Record>) {
    forall id | (forall i | 0 <= i < |order| :: order[i].id != id) ::
      && (id in m.intents ==> id in m'.intents && m'.intents[id] == m.intents[id])
      && (id in m'.subs <==> id in m.subs) && (id in m.subs ==> m'.subs[id] == m.subs[id])
  }

  lemma RestoredOne(m: Manager, intent: Record, r: Reply)
    requires Serves(m, intent.nodes, intent.interval, r) && Parse(intent.nodes)
    requires intent.id in m.intents && m.intents[intent.id] == intent && intent.id !in m.subs
    ensures var m' := Restored(m, intent, r);
            && Restores(intent, r, intent.interval in m.groups || r.subscribeOk, m')
            && m'.intents.Keys == m.intents.Keys && Spares(m, m', [intent])
  {
    var (m', o) := Subscribe(m, intent.id, intent.nodes, intent.interval, intent.createdAt, r);
    ParsesFully(intent.nodes);
    SubscribeOutcome(m, intent.id, intent.nodes, intent.interval, intent.createdAt, r);
    var at := AcceptedIsSubsequence(intent.nodes, r.results);
    RestoresAs(intent, r, intent.interval in m.groups || r.subscribeOk, at, m, m');
    assert [intent][0].id == intent.id;
  }

  lemma RestoresAs(intent: Record, r: Reply, open: bool, at: seq<nat>, m: Manager, m': Manager)
    requires |r.results| <= |intent.nodes| && Picks(Kept(intent, r).nodes, intent.nodes, at)
    requires intent.id in m.intents && m.intents[intent.id] == intent && intent.id !in m.subs
    requires m'.subs == if Takes(intent, r, open) then m.subs[intent.id := Kept(intent, r)] else m.subs
    requires m'.intents == if Takes(intent, r, open) && r.putOk then m.intents[intent.id := Kept(intent, r)]
                           else m.intents
    ensures Restores(intent, r, open, m')
  {
  }

  // ---- All intents ------------------------------------------------------------

  /** For each intent, whether there is or can be a group when its turn comes. */
  function Openings(m: Manager, order: seq<Record>, replies: seq<Reply>): (open: seq<bool>)
    requires |replies| == |order| && ServesAll(m, order, replies)
    ensures |open| == |order| && forall i | 0 <= i < |order| :: replies[i].subscribeOk ==> open[i]
    decreases |order|
  {
    if order == [] then []
    else
      var rest := Openings(Restored(m, order[0], replies[0]), order[1..], replies[1..]);
      [order[0].interval in m.groups || replies[0].subscribeOk] + rest
  }

  predicate Pending(m: Manager, order: seq<Record>) {
    && (forall i | 0 <= i < |order| ::
          var r := order[i];
          r.id in m.intents && m.intents[r.id] == r && r.id !in m.subs && Parse(r.nodes))
    && (forall i, j | 0 <= i < j < |order| :: order[i].id != order[j].id)
  }

  /** Openings, one intent further on. */
  lemma OpeningsTail(m: Manager, order: seq<Record>, replies: seq<Reply>, i: nat)
    requires |replies| == |order| && ServesAll(m, order, replies) && 0 < i < |order|
    ensures Openings(m, order, replies)[i]
            == Openings(Restored(m, order[0], replies[0]), order[1..], replies[1..])[i - 1]
  {
  }

  lemma SparesBoth(m: Manager, m1: Manager, m': Manager, order: seq<Record>)
    requires order != [] && Spares(m, m1, [order[0]]) && Spares(m1, m', order[1..])
    ensures Spares(m, m', order)
  {
    forall id | forall i | 0 <= i < |order| :: order[i].id != id
      ensures (id in m.intents ==> id in m'.intents && m'.intents[id] == m.intents[id])
      ensures (id in m'.subs <==> id in m.subs) && (id in m.subs ==> m'.subs[id] == m.subs[id])
    {
      assert forall i | 0 <= i < |order[1..]| :: order[1..][i] == order[i + 1];
    }
  }

  lemma {:induction false} RestoreEach(m: Manager, order: seq<Record>, replies: seq<Reply>)
    requires |replies| == |order| && Pending(m, order) && ServesAll(m, order, replies)
    ensures var m' := RestoreAll(m, order, replies);
            && (forall i | 0 <= i < |order| :: Restores(order[i], replies[i], Openings(m, order, replies)[i], m'))
            && m'.intents.Keys == m.intents.Keys && Spares(m, m', order)
    decreases |order|
  {
    if order != [] {
      var m1 := Restored(m, order[0], replies[0]);
      RestoredOne(m, order[0], replies[0]);
      assert forall i | 0 <= i < |order[1..]| :: order[1..][i] == order[i + 1];
      RestoreEach(m1, order[1..], replies[1..]);
      var m' := RestoreAll(m1, order[1..], replies[1..]);
      SparesBoth(m, m1, m', order);
      forall i | 0 <= i < |order| ensures Restores(order[i], replies[i], Openings(m, order, replies)[i], m') {
        if i > 0 {
          OpeningsTail(m, order, replies, i);
          assert Restores(order[1..][i - 1], replies[1..][i - 1], Openings(m1, order[1..], replies[1..])[i - 1], m');
        }
      }
    }
  }

  /** restoreFromIntent with no other call in between, whatever the server and
      the store answer: no intent is lost, and each is taken in, shortened or left
      as it was as its own reply says. All that one can need of another is a group at
      the same interval, and only when the server refuses it one of its own
      (OpeningsAreByReply). */
  lemma RestoreLosesNoIntent(m: Manager, order: seq<Record>, replies: seq<Reply>)
    requires Inv(m) && Lists(order, m.intents)
    requires |replies| == |order| && ServesAll(Reset(m), order, replies)
    ensures var m' := RestoreAll(Reset(m), order, replies);
            && m'.intents.Keys == m.intents.Keys && m'.subs.Keys <= m.intents.Keys
            && forall i | 0 <= i < |order| :: Restores(order[i], replies[i], Openings(Reset(m), order, replies)[i], m')
  {
    RestoreEach(Reset(m), order, replies);
    var m' := RestoreAll(Reset(m), order, replies);
    forall id | id in m'.subs ensures id in m.intents {
      if forall i | 0 <= i < |order| :: order[i].id != id { assert id !in Reset(m).subs; }
    }
  }

  /** A restore changes a persisted intent exactly when the intent gets a group,
      Monitor works and the put too, and the server accepts some of its nodes but
      not all of them. */
  lemma RestoreShortensIff(m: Manager, order: seq<Record>, replies: seq<Reply>, i: nat)
    requires Inv(m) && Lists(order, m.intents) && i < |order|
    requires |replies| == |order| && ServesAll(Reset(m), order, replies)
    ensures var m' := RestoreAll(Reset(m), order, replies);
            var r := replies[i];
            && order[i].id in m'.intents
            && (m'.intents[order[i].id] != order[i] <==>
                && Openings(Reset(m), order, replies)[i] && r.monitorOk && r.putOk
                && (exists k | 0 <= k < |r.results| :: r.results[k].Accepted?)
                && (|r.results| < |order[i].nodes| || exists k | 0 <= k < |r.results| :: r.results[k].Rejected?))
  {
    RestoreLosesNoIntent(m, order, replies);
    assert Restores(order[i], replies[i], Openings(Reset(m), order, replies)[i], RestoreAll(Reset(m), order, replies));
    ShortIff(order[i], replies[i]);
  }

  lemma ShortIff(intent: Record, r: Reply)
    requires |r.results| <= |intent.nodes|
    ensures Kept(intent, r).nodes != [] <==> exists k | 0 <= k < |r.results| :: r.results[k].Accepted?
    ensures Kept(intent, r) != intent <==>
            |r.results| < |intent.nodes| || exists k | 0 <= k < |r.results| :: r.results[k].Rejected?
  {
    AcceptedSome(intent.nodes, r.results);
    if |r.results| == |intent.nodes| && forall k | 0 <= k < |r.results| :: r.results[k].Accepted? {
      AcceptsEverything(intent.nodes, r.results);
    }
  }

  // ---- Which intents get a group ----------------------------------------------

  /** What becomes of the group at one interval during a restore: there is none, or
      nothing has been taken into it yet, or something has. */
  datatype Phase = Absent | Empty | InUse

  /** Only the replies to the intents of that interval move it on: an Empty group is
      dropped again when a reply accepts nothing, one in use never is. */
  function Next(p: Phase, intent: Record, r: Reply): Phase
    requires |r.results| <= |intent.nodes|
  {
    if p.Absent? && !r.subscribeOk then Absent
    else if !r.monitorOk then (if p.InUse? then InUse else Empty)
    else if Kept(intent, r).nodes != [] || p.InUse? then InUse
    else Absent
  }

  function PhaseOf(m: Manager, interval: int): Phase {
    if interval !in m.groups then Absent else if m.groups[interval].refCount == 0 then Empty else InUse
  }

  predicate RepliesFit(order: seq<Record>, replies: seq<Reply>) {
    |replies| == |order| && forall i | 0 <= i < |order| :: |replies[i].results| <= |order[i].nodes|
  }

  /** The phase when the i-th intent's turn comes, from p at the start. */
  function PhaseAt(p: Phase, interval: int, order: seq<Record>, replies: seq<Reply>, i: nat): Phase
    requires i <= |order| && RepliesFit(order, replies)
  {
    if i == 0 then p
    else
      var before := PhaseAt(p, interval, order, replies, i - 1);
      if order[i - 1].interval == interval then Next(before, order[i - 1], replies[i - 1]) else before
  }

  lemma PhaseMoves(m: Manager, intent: Record, r: Reply, interval: int)
    requires Serves(m, intent.nodes, intent.interval, r) && Parse(intent.nodes)
    requires interval in m.groups ==> m.groups[interval].refCount >= 0
    ensures PhaseOf(Restored(m, intent, r), interval)
            == if interval == intent.interval then Next(PhaseOf(m, interval), intent, r) else PhaseOf(m, interval)
    ensures var m' := Restored(m, intent, r); interval in m'.groups ==> m'.groups[interval].refCount >= 0
  {
    ParsesFully(intent.nodes);
    AdmitRefCount(OpenGroup(m, intent.interval), intent.nodes, m.nextHandle, r.results);
  }

  lemma {:induction false} PhaseTail(p: Phase, interval: int, order: seq<Record>, replies: seq<Reply>, i: nat)
    requires 0 < i <= |order| && RepliesFit(order, replies)
    ensures RepliesFit(order[1..], replies[1..])
    ensures var p1 := if order[0].interval == interval then Next(p, order[0], replies[0]) else p;
            PhaseAt(p, interval, order, replies, i) == PhaseAt(p1, interval, order[1..], replies[1..], i - 1)
  {
    if i > 1 {
      PhaseTail(p, interval, order, replies, i - 1);
      assert order[1..][i - 2] == order[i - 1] && replies[1..][i - 2] == replies[i - 1];
    }
  }

  lemma {:induction false} RepliesAreServed(m: Manager, order: seq<Record>, replies: seq<Reply>)
    requires |replies| == |order| && ServesAll(m, order, replies)
    ensures RepliesFit(order, replies)
    decreases |order|
  {
    if order != [] {
      RepliesAreServed(Restored(m, order[0], replies[0]), order[1..], replies[1..]);
      assert forall i | 0 < i < |order| :: order[i] == order[1..][i - 1] && replies[i] == replies[1..][i - 1];
    }
  }

  /** Whether an intent can be taken in, told from the replies alone: the server
      grants it a group, or the group of its interval is there, from an earlier
      intent that got one and did not lose it again. */
  lemma {:induction false} OpeningsAreByReply(m: Manager, order: seq<Record>, replies: seq<Reply>, i: nat)
    requires |replies| == |order| && ServesAll(m, order, replies) && i < |order|
    requires forall k | 0 <= k < |order| :: Parse(order[k].nodes)
    requires order[i].interval in m.groups ==> m.groups[order[i].interval].refCount >= 0
    ensures RepliesFit(order, replies)
    ensures Openings(m, order, replies)[i]
            <==> replies[i].subscribeOk
                 || PhaseAt(PhaseOf(m, order[i].interval), order[i].interval, order, replies, i) != Absent
    decreases |order|
  {
    RepliesAreServed(m, order, replies);
    if i > 0 {
      var m1 := Restored(m, order[0], replies[0]);
      PhaseMoves(m, order[0], replies[0], order[i].interval);
      assert forall k | 0 <= k < |order[1..]| :: order[1..][k] == order[k + 1];
      OpeningsAreByReply(m1, order[1..], replies[1..], i - 1);
      OpeningsTail(m, order, replies, i);
      PhaseTail(PhaseOf(m, order[i].interval), order[i].interval, order, replies, i);
    }
  }

  // ---- One intent shortened ---------------------------------------------------

  /** It does happen: of two nodes the server takes one, and the persisted intent
      has lost the other. */
  lemma ShortenedIntent(a: NodeId, b: NodeId) returns (m: Manager, intent: Record, reply: Reply)
    requires a.parses && b.parses
    ensures Inv(m) && m.intents == map[intent.id := intent] && intent.nodes == [a, b]
    ensures ServesAll(Reset(m), [intent], [reply]) && Lists([intent], m.intents)
    ensures RestoreAll(Reset(m), [intent], [reply]).intents == map[intent.id := intent.(nodes := [a])]
  {
    intent := Record(0, [a, b], 100, 0);
    reply := Reply(true, true, [Accepted(0), Rejected("BadNodeIdUnknown")], true);
    m := Manager(map[], map[], 0, map[0 := intent], map[]);
    assert Reset(m) == m;
    RestoredOne(m, intent, reply);
    TwoNodes(a, b, reply.results);
    var m' := Restored(m, intent, reply);
    assert m'.intents == map[0 := Kept(intent, reply)];
    assert [intent][1..] == [] && [reply][1..] == [];
    assert RestoreAll(m', [], []) == m';
  }

  lemma TwoNodes(a: NodeId, b: NodeId, results: seq<ItemResult>)
    requires |results| == 2 && results[0].Accepted? && results[1].Rejected?
    ensures AcceptedNodes([a, b], results) == [a]
  {
    assert [a, b][1..] == [b] && AcceptedNodes([b], results[1..]) == [];
  }

  lemma RestoredWhole(intent: Record, r: Reply, open: bool, m: Manager)
    requires Restores(intent, r, open, m) && open && intent.nodes != [] && AllAccepted(r, |intent.nodes|) && r.putOk
    ensures IsWhole(intent, m)
  {
    AcceptsEverything(intent.nodes, r.results);
  }

  predicate IsWhole(intent: Record, m: Manager) {
    && intent.id in m.subs && m.subs[intent.id] == intent
    && intent.id in m.intents && m.intents[intent.id] == intent
  }

  lemma AllWhole(intents: map<SubscriptionId, Record>, order: seq<Record>, m: Manager)
    requires KeyedOk(intents) && Lists(order, intents)
    requires m.intents.Keys == intents.Keys && m.subs.Keys <= intents.Keys
    requires forall i | 0 <= i < |order| :: IsWhole(order[i], m)
    ensures m.subs == intents && m.intents == intents
  {
    forall id | id in intents ensures id in m.subs && m.subs[id] == intents[id] == m.intents[id] {
      var i :| 0 <= i < |order| && order[i] == intents[id];
      assert IsWhole(order[i], m);
    }
  }

  /** With a server that accepts everything and a store that works, a restore
      makes the records on hand equal the persisted intents, and leaves those
      alone. */
  lemma FaithfulRestore(m: Manager, order: seq<Record>, replies: seq<Reply>)
    requires Inv(m) && Lists(order, m.intents)
    requires |replies| == |order| && ServesAll(Reset(m), order, replies)
    requires forall i | 0 <= i < |order| :: AllAccepted(replies[i], |order[i].nodes|) && replies[i].putOk
    ensures var m' := RestoreAll(Reset(m), order, replies); m'.subs == m.intents && m'.intents == m.intents
  {
    RestoreLosesNoIntent(m, order, replies);
    var m' := RestoreAll(Reset(m), order, replies);
    forall i | 0 <= i < |order| ensures IsWhole(order[i], m') {
      RestoredWhole(order[i], replies[i], Openings(Reset(m), order, replies)[i], m');
    }
    AllWhole(m.intents, order, m');
  }
}
