/** Whether a subscription that was unsubscribed can come back. */
module SubscriptionReturn {
  import opened Sums
  import opened Subscriptions
  import opened SubscriptionProofs
  import opened SubscriptionRuns
  import opened SubscriptionHistory
  import opened SubscriptionRestore

  /** Some restore has listed the intent and not got to it yet. */
  predicate Awaits(s: System, id: SubscriptionId) {
    exists t | t in s.restores && s.restores[t].Restoring? :: Names(s.restores[t].rest, id)
  }

  predicate Names(rest: seq<Record>, id: SubscriptionId) { exists i | 0 <= i < |rest| :: rest[i].id == id }

  /** Neither on record nor persisted, with no restore about to bring it back. */
  predicate Gone(s: System, id: SubscriptionId) {
    id in s.usedIds && id !in s.m.subs && id !in s.m.intents && !Awaits(s, id)
  }

  lemma GoneCall(s: System, l: Label, id: SubscriptionId)
    requires Gone(s, id) && Enabled(s, l)
    ensures id in Apply(s, l).usedIds && id !in Apply(s, l).m.subs && id !in Apply(s, l).m.intents
  {
    match l
    case DoSubscribe(other, nodes, interval, createdAt, reply) =>
      SubscribeOutcome(s.m, other, nodes, interval, createdAt, reply);
    case DoRestoreOne(t, reply) =>
      var r := s.restores[t].rest[0];
      assert r.id != id by { assert Names(s.restores[t].rest, r.id); }
      SubscribeOutcome(s.m, r.id, r.nodes, r.interval, r.createdAt, reply);
    case _ =>
  }

  lemma GoneStep(s: System, l: Label, id: SubscriptionId)
    requires Gone(s, id) && Enabled(s, l)
    ensures Gone(Apply(s, l), id)
  {
    GoneCall(s, l, id);
    var s' := Apply(s, l);
    forall t | t in s'.restores && s'.restores[t].Restoring? ensures !Names(s'.restores[t].rest, id) {
      if l.DoRestoreOne? && l.thread == t {
        assert !Names(s.restores[t].rest, id);
        assert forall i | 0 <= i < |s'.restores[t].rest| :: s'.restores[t].rest[i] == s.restores[t].rest[i + 1];
      }
    }
  }

  /** A subscription that is gone stays gone. */
  lemma {:induction false} GoneStaysGone(s: System, ls: seq<Label>, t: System, id: SubscriptionId)
    requires Gone(s, id) && Runs(s, ls, t)
    ensures Gone(t, id)
    decreases |ls|
  {
    if ls != [] {
      GoneStep(s, ls[0], id);
      GoneStaysGone(Apply(s, ls[0]), ls[1..], t, id);
    }
  }

  /** With no restore about to bring it back, that is what a successful
      Unsubscribe achieves. */
  lemma UnsubscribeSticks(s: System, gone: SubscriptionId, removed: set<ItemId>, ls: seq<Label>, t: System)
    requires gone in s.m.subs && gone in s.usedIds && !Awaits(s, gone)
    requires Runs(Apply(s, DoUnsubscribe(gone, removed, true)), ls, t)
    ensures gone !in t.m.subs && gone !in t.m.intents
  {
    GoneStaysGone(Apply(s, DoUnsubscribe(gone, removed, true)), ls, t, gone);
  }

  // ---- What every history knows ------------------------------------------------

  /** A history from the start of a process. */
  ghost predicate Reached(s: System) { exists intents, ls :: StoreOk(intents) && Runs(Initially(intents), ls, s) }

  lemma {:induction false} ExtendRun(s: System, ls: seq<Label>, m: System, l: Label)
    requires Runs(s, ls, m) && Enabled(m, l)
    ensures Runs(s, ls + [l], Apply(m, l))
    decreases |ls|
  {
    if ls == [] {
      assert Runs(Apply(m, l), [l][1..], Apply(m, l));
      assert ls + [l] == [l];
    } else {
      assert (ls + [l])[1..] == ls[1..] + [l];
      ExtendRun(Apply(s, ls[0]), ls[1..], m, l);
    }
  }

  lemma Reach(s: System, l: Label) returns (t: System)
    requires Reached(s) && Enabled(s, l)
    ensures Reached(t) && t == Apply(s, l)
  {
    var intents, ls :| StoreOk(intents) && Runs(Initially(intents), ls, s);
    ExtendRun(Initially(intents), ls, s, l);
    t := Apply(s, l);
  }

  predicate RestOk(rest: seq<Record>) { forall i | 0 <= i < |rest| :: rest[i].nodes != [] && Parse(rest[i].nodes) }

  /** Every id around has been used, and what restores have listed can be asked for. */
  predicate Known(s: System) {
    && s.m.subs.Keys <= s.usedIds && s.m.intents.Keys <= s.usedIds
    && forall t | t in s.restores && s.restores[t].Restoring? ::
         RestOk(s.restores[t].rest) && forall i | 0 <= i < |s.restores[t].rest| :: s.restores[t].rest[i].id in s.usedIds
  }

  lemma CallIsKnown(s: System, l: Label)
    requires Known(s) && Enabled(s, l)
    ensures Apply(s, l).m.subs.Keys <= Apply(s, l).usedIds && Apply(s, l).m.intents.Keys <= Apply(s, l).usedIds
    ensures s.usedIds <= Apply(s, l).usedIds
  {
    match l
    case DoSubscribe(id, nodes, interval, createdAt, reply) =>
      SubscribeOutcome(s.m, id, nodes, interval, createdAt, reply);
    case DoRestoreOne(t, reply) =>
      var r := s.restores[t].rest[0];
      SubscribeOutcome(s.m, r.id, r.nodes, r.interval, r.createdAt, reply);
    case _ =>
  }

  lemma StepIsKnown(s: System, l: Label)
    requires Inv(s.m) && Known(s) && Enabled(s, l)
    ensures Known(Apply(s, l))
  {
    CallIsKnown(s, l);
    var s' := Apply(s, l);
    forall t | t in s'.restores && s'.restores[t].Restoring?
      ensures RestOk(s'.restores[t].rest)
      ensures forall i | 0 <= i < |s'.restores[t].rest| :: s'.restores[t].rest[i].id in s'.usedIds
    {
      if l.DoRestoreOne? && l.thread == t {
        assert forall i | 0 <= i < |s'.restores[t].rest| :: s'.restores[t].rest[i] == s.restores[t].rest[i + 1];
      }
    }
  }

  lemma {:induction false} KnownOverRuns(s: System, ls: seq<Label>, t: System)
    requires Inv(s.m) && Known(s) && Runs(s, ls, t)
    ensures Inv(t.m) && Known(t)
    decreases |ls|
  {
    if ls != [] {
      StepKeeps(s, ls[0]);
      StepIsKnown(s, ls[0]);
      KnownOverRuns(Apply(s, ls[0]), ls[1..], t);
    }
  }

  lemma ReachedKnown(s: System)
    requires Reached(s)
    ensures Inv(s.m) && Known(s)
  {
    var intents, ls :| StoreOk(intents) && Runs(Initially(intents), ls, s);
    InitiallyInvariant(intents);
    KnownOverRuns(Initially(intents), ls, s);
  }

  // ---- Coming back ------------------------------------------------------------

  /** How many handles restoring these intents can take. */
  function Demand(rest: seq<Record>): nat {
    if rest == [] then 0 else |rest[0].nodes| + Demand(rest[1..])
  }

  /** Handles are left for every restore under way. */
  predicate Room(s: System) {
    forall t | t in s.restores && s.restores[t].Restoring? :: s.m.nextHandle + Demand(s.restores[t].rest) < HANDLE_LIMIT
  }

  /** A reply that accepts everything. */
  lemma Welcome(m: Manager, r: Record) returns (reply: Reply)
    requires m.nextHandle + |r.nodes| < HANDLE_LIMIT
    ensures Serves(m, r.nodes, r.interval, reply) && AllAccepted(reply, |r.nodes|) && reply.putOk
  {
    var first := UnusedId(OpenGroup(m, r.interval).live.Keys);
    reply := Reply(true, true, seq(|r.nodes|, i requires 0 <= i < |r.nodes| => Accepted(first + i)), true);
  }

  lemma HandlesTaken(m: Manager, r: Record, reply: Reply)
    requires Serves(m, r.nodes, r.interval, reply)
    ensures Restored(m, r, reply).nextHandle <= m.nextHandle + |r.nodes|
  {
  }

  lemma TakenBack(m: Manager, r: Record, reply: Reply)
    requires Serves(m, r.nodes, r.interval, reply) && AllAccepted(reply, |r.nodes|) && reply.putOk && r.nodes != []
    requires Parse(r.nodes)
    ensures var m' := Restored(m, r, reply);
            r.id in m'.subs && m'.subs[r.id] == r && r.id in m'.intents && m'.intents[r.id] == r
  {
    ParsesFully(r.nodes);
    AcceptsEverything(r.nodes, reply.results);
    SubscribeOutcome(m, r.id, r.nodes, r.interval, r.createdAt, reply);
  }

  /** A restore that goes on reaches every intent it has listed, and can take it in. */
  lemma {:induction false} RestoreReaches(s: System, thread: Thread, id: SubscriptionId)
    returns (ls: seq<Label>, t: System)
    requires thread in s.restores && s.restores[thread].Restoring?
    requires Names(s.restores[thread].rest, id) && RestOk(s.restores[thread].rest)
    requires s.m.nextHandle + Demand(s.restores[thread].rest) < HANDLE_LIMIT
    ensures Runs(s, ls, t) && id in t.m.subs && id in t.m.intents
    decreases |s.restores[thread].rest|
  {
    var rest := s.restores[thread].rest;
    if rest[0].id == id {
      var reply := Welcome(s.m, rest[0]);
      TakenBack(s.m, rest[0], reply);
      ls, t := [DoRestoreOne(thread, reply)], Apply(s, DoRestoreOne(thread, reply));
      assert Runs(t, ls[1..], t);
    } else {
      var l := DoRestoreOne(thread, Reply(false, false, [], false));
      HandlesTaken(s.m, rest[0], l.reply);
      var i :| 0 <= i < |rest| && rest[i].id == id;
      assert rest[1..][i - 1].id == id;
      assert forall k | 0 <= k < |rest[1..]| :: rest[1..][k] == rest[k + 1];
      var more;
      more, t := RestoreReaches(Apply(s, l), thread, id);
      ls := [l] + more;
      assert ls[1..] == more;
    }
  }

  ghost predicate ComesBack(s: System, id: SubscriptionId) {
    exists ls, t :: Runs(s, ls, t) && (id in t.m.subs || id in t.m.intents)
  }

  /** A subscription that was unsubscribed, its intent deleted, comes back only if
      a restore had listed the intent before; and then, as long as handles last, it
      can. */
  lemma UnsubscribeIsFinalIff(s: System, gone: SubscriptionId, removed: set<ItemId>)
    requires Reached(s) && gone in s.m.subs
    ensures var u := Apply(s, DoUnsubscribe(gone, removed, true));
            && gone !in u.m.subs && gone !in u.m.intents
            && (ComesBack(u, gone) ==> Awaits(s, gone))
            && (Room(s) ==> (ComesBack(u, gone) <==> Awaits(s, gone)))
  {
    ReachedKnown(s);
    var u := Apply(s, DoUnsubscribe(gone, removed, true));
    if ComesBack(u, gone) && !Awaits(s, gone) {
      var ls, t :| Runs(u, ls, t) && (gone in t.m.subs || gone in t.m.intents);
      UnsubscribeSticks(s, gone, removed, ls, t);
    }
    if Awaits(s, gone) && Room(s) {
      var thread :| thread in s.restores && s.restores[thread].Restoring? && Names(s.restores[thread].rest, gone);
      var ls, t := RestoreReaches(u, thread, gone);
    }
  }

  // ---- How it happens ---------------------------------------------------------

  lemma ListedAlone(intent: Record)
    ensures Lists([intent], map[intent.id := intent])
  {
    assert [intent][0] == intent;
  }

  lemma TwoResets(intent: Record) returns (s: System)
    requires intent.nodes != [] && Parse(intent.nodes)
    ensures Reached(s)
    ensures s == Initially(map[intent.id := intent]).(restores := map[0 := Cleared, 1 := Cleared])
  {
    var intents := map[intent.id := intent];
    s := Initially(intents);
    assert Runs(s, [], s);
    s := Reach(s, DoReset(0));
    s := Reach(s, DoReset(1));
  }

  /** Two restores, one after a lost session and one after the connection's death,
      have both discarded the state and listed the one intent. */
  lemma TwoRestores(intent: Record) returns (s: System)
    requires intent.nodes != [] && Parse(intent.nodes)
    ensures Reached(s)
    ensures s == System(Manager(map[], map[], 0, map[intent.id := intent], map[]),
                        map[0 := Restoring([intent]), 1 := Restoring([intent])], {intent.id}, {})
  {
    s := TwoResets(intent);
    ListedAlone(intent);
    s := Reach(s, DoList(0, [intent]));
    s := Reach(s, DoList(1, [intent]));
    assert s.restores == map[0 := Restoring([intent]), 1 := Restoring([intent])];
  }

  /** The first takes the subscription in, the user gives it up, and the second
      brings it back. */
  lemma RestoreUndoesUnsubscribe(intent: Record) returns (s: System, ls: seq<Label>, t: System)
    requires intent.nodes != [] && Parse(intent.nodes) && |intent.nodes| < 1000
    ensures Reached(s) && intent.id in s.m.subs
    ensures Runs(Apply(s, DoUnsubscribe(intent.id, {}, true)), ls, t) && intent.id in t.m.subs
    ensures intent.id in t.m.intents
  {
    s := TwoRestores(intent);
    var reply := Welcome(s.m, intent);
    TakenBack(s.m, intent, reply);
    HandlesTaken(s.m, intent, reply);
    s := Reach(s, DoRestoreOne(0, reply));
    assert s.restores[1] == Restoring([intent]) && Demand([intent][1..]) == 0;
    ls, t := RestoreReaches(Apply(s, DoUnsubscribe(intent.id, {}, true)), 1, intent.id);
  }
}
