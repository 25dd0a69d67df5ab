/** The notification pump of internal/opcua/subscription.go: routed values are
    collected in a batch and written to the store later. Nobody who reads the
    store under the batch can tell. */
module NotificationPump {
  import opened Wrappers
  import opened Subscriptions
  import opened SubscriptionProofs
  import opened SubscriptionHistory
  import opened SubscriptionManager

  /** One monitored item of a notification; the value may be missing. */
  datatype Item<V> = Item(handle: Handle, value: Option<V>)

  datatype Notification<V> = Failed | NotDataChange | DataChange(items: seq<Item<V>>)

  // ---- Routing ----------------------------------------------------------------

  ghost function Lookup(m: Manager, handle: Handle): Option<NodeId> {
    if exists n :: RoutesTo(m, handle, n) then
      var n :| RoutesTo(m, handle, n);
      Some(n)
    else None
  }

  lemma LookupIs(m: Manager, handle: Handle, node: Option<NodeId>)
    requires RoutingOk(m)
    requires if node.Some? then RoutesTo(m, handle, node.value) else Unrouted(m, handle)
    ensures node == Lookup(m, handle)
  {
    if node.Some? { LookupIsUnambiguous(m, handle, node.value, Lookup(m, handle).value); }
  }

  /** The value update an item amounts to: none unless it has a value and a route. */
  ghost function Update<V>(m: Manager, item: Item<V>): seq<(NodeId, V)> {
    var node := Lookup(m, item.handle);
    if node.Some? && item.value.Some? then [(node.value, item.value.value)] else []
  }

  /** The updates the first n items of a notification amount to, in order. */
  ghost function Updates<V>(m: Manager, items: seq<Item<V>>, n: nat): seq<(NodeId, V)>
    requires n <= |items|
  {
    if n == 0 then [] else Updates(m, items, n - 1) + Update(m, items[n - 1])
  }

  /** Writing updates one after the other. */
  function Written<V>(values: map<NodeId, V>, updates: seq<(NodeId, V)>): map<NodeId, V> {
    if updates == [] then values
    else
      var last := updates[|updates| - 1];
      Written(values, updates[..|updates| - 1])[last.0 := last.1]
  }

  lemma WrittenOne<V>(values: map<NodeId, V>, node: NodeId, value: V)
    ensures Written(values, [(node, value)]) == values[node := value]
  {
    assert Written(values, [(node, value)][..0]) == values;
  }

  /** One turn of the loop; failing are the nodes whose PutValue fails in it. */
  datatype Event<V> =
    | Notify(notification: Notification<V>, failing: set<NodeId>)
    | Tick(failing: set<NodeId>)
    | Stop(failing: set<NodeId>)

  /** The value updates of one turn, under the manager's routing of the moment. */
  ghost function Brought<V>(m: Manager, event: Event<V>): seq<(NodeId, V)> {
    if event.Notify? then Carried(m, event.notification) else []
  }

  ghost function Carried<V>(m: Manager, n: Notification<V>): seq<(NodeId, V)> {
    if n.DataChange? then Updates(m, n.items, |n.items|) else []
  }

  lemma {:induction false} WrittenAppend<V>(values: map<NodeId, V>, a: seq<(NodeId, V)>, b: seq<(NodeId, V)>)
    ensures Written(values, a + b) == Written(Written(values, a), b)
    decreases |b|
  {
    if b == [] {
      assert a + b == a;
    } else {
      var n := |b| - 1;
      assert (a + b)[..|a| + n] == a + b[..n];
      WrittenAppend(values, a, b[..n]);
    }
  }

  /** An item is an update of n exactly when it has a value and its handle is routed
      to n. */
  lemma UpdateIff<V>(m: Manager, item: Item<V>, n: NodeId, v: V)
    requires RoutingOk(m)
    ensures Update(m, item) == [(n, v)] <==> RoutesTo(m, item.handle, n) && item.value == Some(v)
    ensures Update(m, item) == [] <==> item.value.None? || Unrouted(m, item.handle)
  {
    LookupIff(m, item.handle, n);
    if Lookup(m, item.handle).None? && !Unrouted(m, item.handle) {
      var i :| i in m.groups && item.handle in m.groups[i].route;
      assert RoutesTo(m, item.handle, m.groups[i].route[item.handle]);
    }
  }

  lemma LookupIff(m: Manager, handle: Handle, n: NodeId)
    requires RoutingOk(m)
    ensures Lookup(m, handle) == Some(n) <==> RoutesTo(m, handle, n)
    ensures Lookup(m, handle).Some? ==> !Unrouted(m, handle)
  {
    if RoutesTo(m, handle, n) { LookupIs(m, handle, Some(n)); }
    if Lookup(m, handle).Some? {
      var x := Lookup(m, handle).value;
      assert RoutesTo(m, handle, x);
      var i :| i in m.groups && handle in m.groups[i].route && m.groups[i].route[handle] == x;
    }
  }

  /** The i-th item is an update of n. */
  ghost predicate Brings<V>(m: Manager, items: seq<Item<V>>, n: NodeId, i: nat)
    requires i < |items|
  {
    items[i].value.Some? && RoutesTo(m, items[i].handle, n)
  }

  /** The i-th is the last of the first k items that is an update of n. */
  ghost predicate LastFor<V>(m: Manager, items: seq<Item<V>>, k: nat, n: NodeId, i: nat)
    requires k <= |items|
  {
    i < k && Brings(m, items, n, i) && forall x | i < x < k :: !Brings(m, items, n, x)
  }

  /** What writing a notification's updates leaves for a node: the value of the last
      of its items that brings one, or what was there before. */
  lemma {:induction false} LastItemWins<V>(m: Manager, values: map<NodeId, V>, items: seq<Item<V>>, k: nat,
                                           n: NodeId, i: nat)
    requires RoutingOk(m) && k <= |items| && LastFor(m, items, k, n, i)
    ensures At(Written(values, Updates(m, items, k)), n) == items[i].value
  {
    NextItem(m, values, items, k - 1, n);
    if i < k - 1 {
      assert !Brings(m, items, n, k - 1);
      LastItemWins(m, values, items, k - 1, n, i);
    }
  }

  lemma {:induction false} OthersAreSpared<V>(m: Manager, values: map<NodeId, V>, items: seq<Item<V>>, k: nat,
                                              n: NodeId)
    requires RoutingOk(m) && k <= |items| && forall i | 0 <= i < k :: !Brings(m, items, n, i)
    ensures At(Written(values, Updates(m, items, k)), n) == At(values, n)
  {
    if k > 0 {
      NextItem(m, values, items, k - 1, n);
      assert !Brings(m, items, n, k - 1);
      OthersAreSpared(m, values, items, k - 1, n);
    }
  }

  lemma NextItem<V>(m: Manager, values: map<NodeId, V>, items: seq<Item<V>>, k: nat, n: NodeId)
    requires RoutingOk(m) && k < |items|
    ensures At(Written(values, Updates(m, items, k + 1)), n)
            == if Brings(m, items, n, k) then items[k].value else At(Written(values, Updates(m, items, k)), n)
  {
    UpdatesNext(m, values, items, k);
    OneItem(m, Written(values, Updates(m, items, k)), items[k], n);
  }

  lemma OneItem<V>(m: Manager, values: map<NodeId, V>, item: Item<V>, n: NodeId)
    requires RoutingOk(m)
    ensures At(Written(values, Update(m, item)), n)
            == if item.value.Some? && RoutesTo(m, item.handle, n) then item.value else At(values, n)
  {
    LookupIff(m, item.handle, n);
    var node := Lookup(m, item.handle);
    if node.Some? && item.value.Some? { WrittenOne(values, node.value, item.value.value); }
  }

  lemma UpdatesNext<V>(m: Manager, values: map<NodeId, V>, items: seq<Item<V>>, i: nat)
    requires i < |items|
    ensures Written(Written(values, Updates(m, items, i)), Update(m, items[i]))
            == Written(values, Updates(m, items, i + 1))
  {
    WrittenAppend(values, Updates(m, items, i), Update(m, items[i]));
  }

  // ---- The pump on values -----------------------------------------------------

  /** ideal is what the store would hold had every update been written at once, and
      lost are the nodes whose latest write to the store failed. */
  datatype State<V> = State(store: map<NodeId, V>, batch: map<NodeId, V>, ideal: map<NodeId, V>, lost: set<NodeId>)

  function Flushed<V>(s: State<V>, failing: set<NodeId>): State<V> {
    State(s.store + (s.batch - failing), map[], s.ideal, s.lost - s.batch.Keys + s.batch.Keys * failing)
  }

  function Collected<V>(s: State<V>, updates: seq<(NodeId, V)>): State<V> {
    s.(batch := Written(s.batch, updates), ideal := Written(s.ideal, updates))
  }

  /** After a notification: the batch is flushed once it is full. */
  function Trimmed<V>(s: State<V>, max: int, failing: set<NodeId>): State<V> {
    if |s.batch| >= max then Flushed(s, failing) else s
  }

  ghost function Turned<V>(s: State<V>, max: int, m: Manager, event: Event<V>): State<V> {
    if event.Notify? then Trimmed(Collected(s, Brought(m, event)), max, event.failing)
    else Flushed(s, event.failing)
  }

  function At<V>(values: map<NodeId, V>, k: NodeId): Option<V> {
    if k in values then Some(values[k]) else None
  }

  /** What a reader of the store under the batch finds. */
  function Shown<V>(s: State<V>, k: NodeId): Option<V> {
    if k in s.batch then Some(s.batch[k]) else At(s.store, k)
  }

  /** The store under the batch is ideal, except at nodes that a failed write
      concerns and that have no newer value waiting. */
  ghost predicate Invisible<V>(s: State<V>) {
    forall k | k in s.batch || k !in s.lost :: Shown(s, k) == At(s.ideal, k)
  }

  /** Holds whenever the loop waits for its next event. */
  ghost predicate Waits<V>(s: State<V>, max: int) {
    Invisible(s) && (s.batch == map[] || |s.batch| < max)
  }

  /** Nothing is pending, and the store alone is ideal, except where its latest
      write failed. */
  ghost predicate Settled<V>(s: State<V>) {
    && s.batch == map[]
    && forall k | k !in s.lost :: At(s.store, k) == At(s.ideal, k)
  }

  lemma FlushSettles<V>(s: State<V>, failing: set<NodeId>)
    requires Invisible(s)
    ensures Invisible(Flushed(s, failing)) && Settled(Flushed(s, failing))
  {
    var t := Flushed(s, failing);
    forall k | k !in t.lost ensures At(t.store, k) == At(t.ideal, k) {
      assert At(t.store, k) == Shown(s, k);
    }
  }

  lemma {:induction false} CollectingIsInvisible<V>(s: State<V>, updates: seq<(NodeId, V)>)
    requires Invisible(s)
    ensures Invisible(Collected(s, updates))
    decreases |updates|
  {
    if updates != [] {
      CollectingIsInvisible(s, updates[..|updates| - 1]);
    }
  }

  lemma FlushLoses<V>(s: State<V>, failing: set<NodeId>)
    ensures Flushed(s, failing).lost <= s.lost + failing
  {
  }

  lemma TrimmingKeeps<V>(s: State<V>, max: int, failing: set<NodeId>)
    requires Invisible(s)
    ensures Waits(Trimmed(s, max, failing), max)
    ensures Trimmed(s, max, failing).ideal == s.ideal && Trimmed(s, max, failing).lost <= s.lost + failing
  {
    FlushSettles(s, failing);
    FlushLoses(s, failing);
  }

  /** One turn keeps the batch invisible and small, and loses at most the nodes
      that fail in it. */
  lemma TurnKeeps<V>(s: State<V>, max: int, m: Manager, event: Event<V>)
    requires Waits(s, max)
    ensures var t := Turned(s, max, m, event);
            && Waits(t, max) && (!event.Notify? ==> Settled(t))
            && t.ideal == Written(s.ideal, Brought(m, event)) && t.lost <= s.lost + event.failing
  {
    if event.Notify? {
      CollectingIsInvisible(s, Brought(m, event));
      TrimmingKeeps(Collected(s, Brought(m, event)), max, event.failing);
    } else {
      FlushSettles(s, event.failing);
    }
  }

  lemma TrimmingShows<V>(s: State<V>, max: int, failing: set<NodeId>, n: NodeId)
    requires n !in failing
    ensures Shown(Trimmed(s, max, failing), n) == Shown(s, n)
  {
  }

  /** What a reader finds after a notification, unless the node's put fails in the
      flush it may set off: the last value it brings the node, or what he found
      before. */
  lemma TurnShows<V>(s: State<V>, max: int, m: Manager, items: seq<Item<V>>, failing: set<NodeId>, n: NodeId)
    requires RoutingOk(m) && n !in failing
    ensures var t := Turned(s, max, m, Notify(DataChange(items), failing));
            && (forall i: nat | LastFor(m, items, |items|, n, i) :: Shown(t, n) == items[i].value)
            && ((forall i | 0 <= i < |items| :: !Brings(m, items, n, i)) ==> Shown(t, n) == Shown(s, n))
  {
    var updates := Updates(m, items, |items|);
    TrimmingShows(Collected(s, updates), max, failing, n);
    forall i: nat | LastFor(m, items, |items|, n, i) ensures At(Written(s.batch, updates), n) == items[i].value {
      LastItemWins(m, s.batch, items, |items|, n, i);
    }
    if forall i | 0 <= i < |items| :: !Brings(m, items, n, i) { OthersAreSpared(m, s.batch, items, |items|, n); }
  }

  /** Nothing reaches the store before the batch is full or the window over. */
  lemma StoreWaits<V>(s: State<V>, max: int, m: Manager, event: Event<V>)
    requires event.Notify? && |Turned(s, max, m, event).batch| > 0
    ensures Turned(s, max, m, event).store == s.store
  {
  }

  // ---- Whole runs -------------------------------------------------------------

  /** An event, and the manager as it stands at that turn: Subscribe, Unsubscribe
      and restores come between turns as they like. */
  datatype Turn<V> = Turn(m: Manager, event: Event<V>)

  /** The loop, up to its first Stop. */
  ghost function Loop<V>(s: State<V>, max: int, turns: seq<Turn<V>>): State<V>
    decreases |turns|
  {
    if turns == [] then s
    else
      var next := Turned(s, max, turns[0].m, turns[0].event);
      if turns[0].event.Stop? then next else Loop(next, max, turns[1..])
  }

  predicate Stops<V>(turns: seq<Turn<V>>) {
    turns != [] && (turns[0].event.Stop? || Stops(turns[1..]))
  }

  /** The updates of every turn up to the first Stop, and the nodes some put of
      which fails in them. */
  ghost function Arrived<V>(turns: seq<Turn<V>>): seq<(NodeId, V)> {
    if turns == [] || turns[0].event.Stop? then []
    else Brought(turns[0].m, turns[0].event) + Arrived(turns[1..])
  }

  function Refused<V>(turns: seq<Turn<V>>): set<NodeId> {
    if turns == [] then {}
    else turns[0].event.failing + if turns[0].event.Stop? then {} else Refused(turns[1..])
  }

  lemma ArrivedFirst<V>(values: map<NodeId, V>, turns: seq<Turn<V>>)
    requires turns != [] && !turns[0].event.Stop?
    ensures Written(values, Arrived(turns))
            == Written(Written(values, Brought(turns[0].m, turns[0].event)), Arrived(turns[1..]))
  {
    WrittenAppend(values, Brought(turns[0].m, turns[0].event), Arrived(turns[1..]));
  }

  /** Batching is invisible at every turn of every run, whatever happens to the
      subscriptions meanwhile: the store under the batch is what writing each
      update at once would have made it, except at nodes a put of which failed; and
      once the loop stops, so is the store alone. */
  lemma {:induction false} LoopIsInvisible<V>(s: State<V>, max: int, turns: seq<Turn<V>>)
    requires Waits(s, max)
    ensures Waits(Loop(s, max, turns), max) && (Stops(turns) ==> Settled(Loop(s, max, turns)))
    ensures Loop(s, max, turns).ideal == Written(s.ideal, Arrived(turns))
    ensures Loop(s, max, turns).lost <= s.lost + Refused(turns)
    decreases |turns|
  {
    if turns != [] {
      var next := Turned(s, max, turns[0].m, turns[0].event);
      TurnKeeps(s, max, turns[0].m, turns[0].event);
      if !turns[0].event.Stop? {
        LoopIsInvisible(next, max, turns[1..]);
        ArrivedFirst(s.ideal, turns);
      }
    }
  }

  /** When nothing fails, the store ends up as if there had been no batch. */
  lemma NothingIsLost<V>(s: State<V>, max: int, turns: seq<Turn<V>>)
    requires Waits(s, max) && Stops(turns) && s.lost + Refused(turns) == {}
    ensures Loop(s, max, turns).store == Written(s.ideal, Arrived(turns))
  {
    LoopIsInvisible(s, max, turns);
    var t := Loop(s, max, turns);
    assert forall k :: At(t.store, k) == At(t.ideal, k);
    SameEverywhere(t.store, t.ideal);
  }

  lemma SameEverywhere<V>(a: map<NodeId, V>, b: map<NodeId, V>)
    requires forall k :: At(a, k) == At(b, k)
    ensures a == b
  {
    forall k ensures (k in a <==> k in b) && (k in a ==> a[k] == b[k]) {
      assert At(a, k) == At(b, k);
    }
  }

  // ---- The pump in place ------------------------------------------------------

  /** The turns of a stretch during which the routing is at rest. */
  function AtRest<V>(m: Manager, events: seq<Event<V>>): (turns: seq<Turn<V>>)
    ensures |turns| == |events|
  {
    seq(|events|, i requires 0 <= i < |events| => Turn(m, events[i]))
  }

  class Pump<V(==)> {
    const batchMaxItems: int
    var store: map<NodeId, V>
    var batch: map<NodeId, V>
    ghost var ideal: map<NodeId, V>
    ghost var lost: set<NodeId>

    ghost function View(): State<V>
      reads this
    {
      State(store, batch, ideal, lost)
    }

    ghost predicate Valid()
      reads this
    {
      Waits(View(), batchMaxItems)
    }

    constructor (batchMaxItems: int, values: map<NodeId, V>)
      ensures Valid() && this.batchMaxItems == batchMaxItems && View() == State(values, map[], values, {})
    {
      this.batchMaxItems := batchMaxItems;
      store, batch, ideal, lost := values, map[], values, {};
    }

    /** failing are the nodes whose PutValue fails. */
    method Flush(failing: set<NodeId>)
      modifies this
      ensures View() == Flushed(old(View()), failing)
    {
      var todo := batch.Keys;
      while exists k :: k in todo
        invariant todo <= batch.Keys && batch == old(batch) && ideal == old(ideal) && lost == old(lost)
        invariant store == old(store) + (map k | k in batch && k !in todo && k !in failing :: batch[k])
        decreases todo
      {
        var k :| k in todo;
        if k !in failing {
          store := store[k := batch[k]];
        }
        todo := todo - {k};
      }
      lost := lost - batch.Keys + batch.Keys * failing;
      batch := map[];
    }

    /** One item of a notification. */
    static method Take(manager: SubscriptionManager, item: Item<V>, batch: map<NodeId, V>, ghost m: Manager)
      returns (filled: map<NodeId, V>)
      requires m == manager.View() && RoutingOk(m)
      ensures m == manager.View() && filled == Written(batch, Update(m, item))
    {
      filled := batch;
      var node := manager.LookupNodeID(item.handle);
      LookupIs(m, item.handle, node);
      if node.Some? && item.value.Some? {
        WrittenOne(batch, node.value, item.value.value);
        filled := filled[node.value := item.value.value];
      }
    }

    /** The i-th of a notification's items, on top of those before it. */
    static method TakeNext(manager: SubscriptionManager, items: seq<Item<V>>, i: nat, before: map<NodeId, V>,
                           ghost batch: map<NodeId, V>, ghost m: Manager)
      returns (filled: map<NodeId, V>)
      requires m == manager.View() && RoutingOk(m)
      requires i < |items| && before == Written(batch, Updates(m, items, i))
      ensures m == manager.View() && filled == Written(batch, Updates(m, items, i + 1))
    {
      filled := Take(manager, items[i], before, m);
      UpdatesNext(m, batch, items, i);
    }

    /** handleNotification, which fills the batch it is given. */
    static method HandleNotification(manager: SubscriptionManager, n: Notification<V>, batch: map<NodeId, V>,
                                     ghost m: Manager)
      returns (filled: map<NodeId, V>)
      requires m == manager.View() && RoutingOk(m)
      ensures filled == Written(batch, Carried(m, n))
    {
      filled := batch;
      if n.DataChange? {
        var i := 0;
        while i < |n.items|
          invariant i <= |n.items| && m == manager.View() && filled == Written(batch, Updates(m, n.items, i))
        {
          filled := TakeNext(manager, n.items, i, filled, batch, m);
          i := i + 1;
        }
      }
    }

    /** One turn of the loop, under the manager's routing of the moment. */
    method Step(manager: SubscriptionManager, event: Event<V>, ghost m: Manager) returns (stop: bool)
      requires m == manager.View() && RoutingOk(m)
      modifies this
      ensures View() == Turned(old(View()), batchMaxItems, m, event)
      ensures stop == event.Stop?
      ensures old(Valid()) ==> Valid()
    {
      if Waits(View(), batchMaxItems) { TurnKeeps(View(), batchMaxItems, m, event); }
      if event.Notify? {
        Collect(manager, event, m);
        Trim(event.failing);
      } else {
        Flush(event.failing);
      }
      return event.Stop?;
    }

    method Trim(failing: set<NodeId>)
      modifies this
      ensures View() == Trimmed(old(View()), batchMaxItems, failing)
    {
      if |batch| >= batchMaxItems {
        Flush(failing);
      }
    }

    method Collect(manager: SubscriptionManager, event: Event<V>, ghost m: Manager)
      requires event.Notify? && m == manager.View() && RoutingOk(m)
      modifies this`batch, this`ideal
      ensures View() == Collected(old(View()), Brought(m, event))
    {
      ideal := Written(ideal, Brought(m, event));
      batch := HandleNotification(manager, event.notification, batch, m);
    }

    /** The loop, over a stretch of turns with the manager's routing at rest; being
        a Loop of its own, it may follow another under other routing. */
    method Run(manager: SubscriptionManager, events: seq<Event<V>>, ghost m: Manager) returns (stopped: bool)
      requires m == manager.View() && RoutingOk(m)
      modifies this
      ensures View() == Loop(old(View()), batchMaxItems, AtRest(m, events))
      ensures stopped == Stops(AtRest(m, events))
      ensures old(Valid()) ==> Valid()
    {
      ghost var s := View();
      ghost var turns := AtRest(m, events);
      if Waits(s, batchMaxItems) { LoopIsInvisible(s, batchMaxItems, turns); }
      for i := 0 to |events|
        invariant m == manager.View()
        invariant Loop(View(), batchMaxItems, turns[i..]) == Loop(s, batchMaxItems, turns)
        invariant Stops(turns[i..]) == Stops(turns)
      {
        assert turns[i..][1..] == turns[i + 1..];
        var stop := Step(manager, events[i], m);
        if stop {
          return true;
        }
      }
      return false;
    }
  }
}
