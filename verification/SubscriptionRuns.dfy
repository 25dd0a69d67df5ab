/** Histories of the subscription manager: critical sections of Subscribe,
    Unsubscribe and any number of restores, in any interleaving. */
module SubscriptionRuns {
  import opened Sums
  import opened Subscriptions
  import opened SubscriptionProofs

  type Thread = nat

  /** A restore has discarded the in-memory state, and then works through the
      intents the store listed. */
  datatype Phase = Cleared | Restoring(rest: seq<Record>)

  /** stale are the intervals whose group was opened over a session that has since
      been lost: what the model keeps as such a group's live items died with it. */
  datatype System = System(m: Manager, restores: map<Thread, Phase>, usedIds: set<SubscriptionId>, stale: set<int>)

  datatype Label =
    | DoSubscribe(id: SubscriptionId, nodes: seq<NodeId>, interval: int, createdAt: int, reply: Reply)
    | DoUnsubscribe(gone: SubscriptionId, removed: set<ItemId>, deleteOk: bool)
    | DoReset(thread: Thread)
    | DoList(thread: Thread, order: seq<Record>)
    | DoListFails(thread: Thread)
    | DoRestoreOne(thread: Thread, reply: Reply)
    | DoFinish(thread: Thread)
    | SessionLost

  predicate Enabled(s: System, l: Label) {
    match l
    case DoSubscribe(id, nodes, interval, _, reply) => id !in s.usedIds && Serves(s.m, nodes, interval, reply)
    case DoUnsubscribe(id, _, _) => id in s.m.subs
    case DoReset(t) => t !in s.restores
    case DoList(t, order) => t in s.restores && s.restores[t].Cleared? && Lists(order, s.m.intents)
    case DoListFails(t) => t in s.restores && s.restores[t].Cleared?
    case DoRestoreOne(t, reply) =>
      && t in s.restores && s.restores[t].Restoring? && s.restores[t].rest != []
      && Serves(s.m, s.restores[t].rest[0].nodes, s.restores[t].rest[0].interval, reply)
    case DoFinish(t) => t in s.restores && s.restores[t] == Restoring([])
    case SessionLost => true
  }

  /** A group that goes away is no longer stale: the next at its interval is new. */
  function Become(s: System, m: Manager): System {
    s.(m := m, stale := s.stale * m.groups.Keys)
  }

  function Apply(s: System, l: Label): System
    requires Enabled(s, l)
  {
    match l
    case DoSubscribe(id, nodes, interval, createdAt, reply) =>
      Become(s, Subscribe(s.m, id, nodes, interval, createdAt, reply).0).(usedIds := s.usedIds + {id})
    case DoUnsubscribe(id, removed, deleteOk) => Become(s, Unsubscribe(s.m, id, removed, deleteOk).value)
    case DoReset(t) => Become(s, Reset(s.m)).(restores := s.restores[t := Cleared])
    case DoList(t, order) => s.(restores := s.restores[t := Restoring(order)])
    case DoListFails(t) => s.(restores := s.restores - {t})
    case DoRestoreOne(t, reply) =>
      var rest := s.restores[t].rest;
      Become(s, Restored(s.m, rest[0], reply)).(restores := s.restores[t := Restoring(rest[1..])])
    case DoFinish(t) => s.(restores := s.restores - {t})
    case SessionLost => s.(stale := s.m.groups.Keys)
  }

  ghost predicate Runs(s: System, ls: seq<Label>, t: System)
    decreases |ls|
  {
    if ls == [] then s == t else Enabled(s, ls[0]) && Runs(Apply(s, ls[0]), ls[1..], t)
  }

  lemma StepKeeps(s: System, l: Label)
    requires Inv(s.m) && Enabled(s, l)
    ensures Inv(Apply(s, l).m)
  {
    match l
    case DoSubscribe(id, nodes, interval, createdAt, reply) =>
      SubscribeKeeps(s.m, id, nodes, interval, createdAt, reply);
    case DoUnsubscribe(id, removed, deleteOk) => UnsubscribeKeeps(s.m, id, removed, deleteOk);
    case DoReset(_) => ResetKeeps(s.m);
    case DoRestoreOne(t, reply) =>
      var r := s.restores[t].rest[0];
      SubscribeKeeps(s.m, r.id, r.nodes, r.interval, r.createdAt, reply);
    case _ =>
  }

  lemma {:induction false} RunKeeps(s: System, ls: seq<Label>, t: System)
    requires Inv(s.m) && Runs(s, ls, t)
    ensures Inv(t.m)
    decreases |ls|
  {
    if ls != [] {
      StepKeeps(s, ls[0]);
      RunKeeps(Apply(s, ls[0]), ls[1..], t);
    }
  }

  // ---- Coverage and reference counts ------------------------------------------

  /** Whatever was subscribed and unsubscribed around it, a node that live records
      name is monitored by live items whose handles are routed to it, at least as
      many as the records name it: in every group opened since the session was
      last lost, which after a reset is every group. */
  lemma HeldNodesAreCovered(s: System, ls: seq<Label>, t: System, id: SubscriptionId, node: NodeId)
    requires Inv(s.m) && Runs(s, ls, t) && id in t.m.subs && node in t.m.subs[id].nodes
    requires t.m.subs[id].interval !in t.stale
    ensures var i := t.m.subs[id].interval;
            && i in t.m.groups && 0 < Occurrences(t.m, i, node) <= |Covered(t.m.groups[i], node)|
            && exists h :: h in Covered(t.m.groups[i], node)
  {
    RunKeeps(s, ls, t);
    var i := t.m.subs[id].interval;
    SumSplit(t.m.subs, id, AtInterval(i));
    assert Records(t.m, i) <= RefCount(t.m, i);
    SumSplit(t.m.subs, id, HoldsNode(i, node));
    var covered := Covered(t.m.groups[i], node);
    assert Occurrences(t.m, i, node) <= |covered|;
    assert covered != {};
    var h :| h in covered;
  }

  /** No group is cancelled while a record at its interval is live. */
  lemma GroupsOutliveTheirRecords(s: System, ls: seq<Label>, t: System, interval: int)
    requires Inv(s.m) && Runs(s, ls, t)
    ensures Records(t.m, interval) <= RefCount(t.m, interval)
    ensures interval !in t.m.groups ==> forall id | id in t.m.subs :: t.m.subs[id].interval != interval
  {
    RunKeeps(s, ls, t);
    forall id | interval !in t.m.groups && id in t.m.subs ensures t.m.subs[id].interval != interval {
      SumSplit(t.m.subs, id, AtInterval(interval));
    }
  }

  /** Reference counts that are exactly the numbers of records. */
  ghost predicate Exact(m: Manager) { forall i :: Records(m, i) == RefCount(m, i) }

  predicate TakenIn(o: Outcome) { o.Done? || o.PersistFailed? }

  /** Exactly when a Subscribe is taken in, and what it then records and persists. */
  lemma SubscribeOutcome(m: Manager, id: SubscriptionId, nodes: seq<NodeId>, interval: int, createdAt: int, r: Reply)
    requires Serves(m, nodes, interval, r)
    ensures var (m', o) := Subscribe(m, id, nodes, interval, createdAt, r);
            var record := Record(id, AcceptedNodes(nodes, r.results), interval, createdAt);
            && (TakenIn(o) <==>
                (interval in m.groups || r.subscribeOk) && ParsedPrefix(nodes) == |nodes| && r.monitorOk
                && record.nodes != [])
            && m'.subs == (if TakenIn(o) then m.subs[id := record] else m.subs)
            && m'.intents == (if TakenIn(o) && r.putOk then m.intents[id := record] else m.intents)
  {
  }

  /** What a Subscribe does to records and reference counts. */
  lemma SubscribeShape(m: Manager, id: SubscriptionId, nodes: seq<NodeId>, interval: int, createdAt: int, r: Reply)
    requires Serves(m, nodes, interval, r)
    ensures var (m', o) := Subscribe(m, id, nodes, interval, createdAt, r);
            var record := Record(id, AcceptedNodes(nodes, r.results), interval, createdAt);
            && (forall i :: RefCount(m', i) == RefCount(m, i) + (if TakenIn(o) && i == interval then 1 else 0))
            && m'.subs == (if TakenIn(o) then m.subs[id := record] else m.subs)
            && m'.intents.Keys <= m.intents.Keys + {id}
  {
    AdmitRefCount(OpenGroup(m, interval), nodes, m.nextHandle, r.results);
  }

  lemma RecordsAfter(subs: map<SubscriptionId, Record>, id: SubscriptionId, record: Record, i: int)
    ensures Sum(subs[id := record], AtInterval(i))
            == Sum(subs, AtInterval(i)) + (if record.interval == i then 1 else 0)
               - (if id in subs && subs[id].interval == i then 1 else 0)
  {
    SumUpdate(subs, id, record, AtInterval(i));
    if id in subs { SumSplit(subs, id, AtInterval(i)); }
  }

  /** A subscription that is taken in keeps the counts exact precisely when its
      id is not already on record, as it is when a restore repeats one. */
  lemma SubscribeExactIff(m: Manager, id: SubscriptionId, nodes: seq<NodeId>, interval: int, createdAt: int, r: Reply)
    requires Exact(m) && Serves(m, nodes, interval, r)
    ensures var (m', o) := Subscribe(m, id, nodes, interval, createdAt, r);
            Exact(m') <==> (id !in m.subs || !TakenIn(o))
  {
    var (m', o) := Subscribe(m, id, nodes, interval, createdAt, r);
    SubscribeShape(m, id, nodes, interval, createdAt, r);
    forall i ensures RefCount(m', i) - Records(m', i)
                     == if TakenIn(o) && id in m.subs && m.subs[id].interval == i then 1 else 0 {
      assert Records(m, i) == RefCount(m, i);
      if TakenIn(o) { RecordsAfter(m.subs, id, m'.subs[id], i); }
    }
    if TakenIn(o) && id in m.subs {
      assert RefCount(m', m.subs[id].interval) != Records(m', m.subs[id].interval);
    }
  }

  lemma {:induction false} AdmitRefCount(g: Group, nodes: seq<NodeId>, last: Handle, results: seq<ItemResult>)
    requires |results| <= |nodes|
    ensures Admit(g, nodes, last, results).refCount == g.refCount
    decreases |results|
  {
    if results != [] {
      AdmitRefCount(AdmitOne(g, nodes[0], last + 1, results[0]), nodes[1..], last + 1, results[1..]);
    }
  }

  lemma UnsubscribeExact(m: Manager, id: SubscriptionId, removed: set<ItemId>, deleteOk: bool)
    requires Exact(m) && Inv(m) && id in m.subs
    ensures Exact(Unsubscribe(m, id, removed, deleteOk).value)
  {
    var m' := Unsubscribe(m, id, removed, deleteOk).value;
    var record := m.subs[id];
    forall i ensures Records(m', i) == RefCount(m', i) {
      SumSplit(m.subs, id, AtInterval(i));
      assert Records(m, i) == RefCount(m, i);
      if i == record.interval { DropShape(m.groups[i], record.nodes); }
    }
  }

  /** A run in which no Subscribe and no second restore comes inside a restore. */
  ghost predicate Orderly(s: System, ls: seq<Label>)
    decreases |ls|
  {
    ls == [] ||
    (&& Enabled(s, ls[0]) && ((ls[0].DoSubscribe? || ls[0].DoReset?) ==> s.restores == map[])
     && Orderly(Apply(s, ls[0]), ls[1..]))
  }

  /** At most one restore is under way, and what it still has to restore is
      neither repeated nor on record yet. */
  ghost predicate OrderlyState(s: System) {
    && Exact(s.m)
    && (forall t, u | t in s.restores && u in s.restores :: t == u)
    && s.m.subs.Keys <= s.usedIds
    && forall t | t in s.restores ::
         match s.restores[t]
         case Cleared => s.m.subs == map[]
         case Restoring(rest) =>
           && (forall i | 0 <= i < |rest| :: rest[i].id !in s.m.subs && rest[i].id in s.usedIds)
           && (forall i, j | 0 <= i < j < |rest| :: rest[i].id != rest[j].id)
  }

  ghost predicate IdsOk(s: System) { s.m.intents.Keys <= s.usedIds }

  lemma OrderlyStep(s: System, l: Label)
    requires Inv(s.m) && OrderlyState(s) && IdsOk(s) && Enabled(s, l)
    requires (l.DoSubscribe? || l.DoReset?) ==> s.restores == map[]
    ensures OrderlyState(Apply(s, l)) && IdsOk(Apply(s, l))
  {
    var s' := Apply(s, l);
    match l
    case DoSubscribe(id, nodes, interval, createdAt, reply) =>
      SubscribeExactIff(s.m, id, nodes, interval, createdAt, reply);
      SubscribeShape(s.m, id, nodes, interval, createdAt, reply);
    case DoUnsubscribe(id, removed, deleteOk) =>
      UnsubscribeExact(s.m, id, removed, deleteOk);
    case DoRestoreOne(t, reply) =>
      var r := s.restores[t].rest[0];
      SubscribeExactIff(s.m, r.id, r.nodes, r.interval, r.createdAt, reply);
      SubscribeShape(s.m, r.id, r.nodes, r.interval, r.createdAt, reply);
      assert forall i | 0 <= i < |s.restores[t].rest[1..]| :: s.restores[t].rest[1..][i] == s.restores[t].rest[i + 1];
    case _ =>
      assert Exact(s'.m);
  }

  /** In orderly runs the counts are exact. */
  lemma {:induction false} OrderlyCountsAreExact(s: System, ls: seq<Label>, t: System)
    requires Inv(s.m) && OrderlyState(s) && IdsOk(s) && Runs(s, ls, t) && Orderly(s, ls)
    ensures Exact(t.m)
    decreases |ls|
  {
    if ls != [] {
      StepKeeps(s, ls[0]);
      OrderlyStep(s, ls[0]);
      OrderlyCountsAreExact(Apply(s, ls[0]), ls[1..], t);
    }
  }
}
