/** internal/opcua/caching_client.go, Read and Write over the values bucket, and
    the batched read below it: what a caller gets from the cache is what a live
    read would once have given it. */
module CachingClient {
  import opened Wrappers
  import opened Values
  import Subscriptions

  type NodeId = Subscriptions.NodeId

  datatype Source = Live | Subscription | Unknown

  datatype Entry = Entry(value: Value, status: int, sourceTime: int, serverTime: int, receivedAt: int, source: Source)

  /** An entry on disk: its value is in tagged form. */
  datatype Stored = Stored(
    value: Encoded, status: int, sourceTime: int, serverTime: int, receivedAt: int, source: Source)

  /** One value as the server answers it. */
  datatype DataValue = DataValue(value: Value, status: int, sourceTime: int, serverTime: int)

  datatype Origin = FromLive | FromCache | FromSubscription

  datatype ReadResult = ReadResult(
    node: NodeId, value: Value, status: int, sourceTime: int, serverTime: int, origin: Origin, cachedAt: int)

  type Bucket = map<NodeId, Stored>

  // ---- The store --------------------------------------------------------------

  /** An entry as it goes to disk; None when its value has no tagged form. */
  function OnDisk(e: Entry): Option<Stored> {
    var value := Encode(e.value);
    if value.None? then None
    else Some(Stored(value.value, e.status, e.sourceTime, e.serverTime, e.receivedAt, e.source))
  }

  /** PutValue, on a store that works. */
  function Put(bucket: Bucket, node: NodeId, e: Entry): Option<Bucket> {
    if OnDisk(e).None? then None else Some(bucket[node := OnDisk(e).value])
  }

  /** GetValue, when the store can be read; an entry that does not decode is an
      error, which every caller treats as a miss. */
  function Get(bucket: Bucket, node: NodeId): Option<Entry> {
    if node !in bucket then None
    else
      var s := bucket[node];
      var value := Decode(s.value);
      if value.None? then None
      else Some(Entry(value.value, s.status, s.sourceTime, s.serverTime, s.receivedAt, s.source))
  }

  lemma PutThenGet(bucket: Bucket, node: NodeId, e: Entry)
    requires Typed(e.value) && Put(bucket, node, e).Some?
    ensures Get(Put(bucket, node, e).value, node) == Some(e)
    ensures forall n | n != node :: Get(Put(bucket, node, e).value, n) == Get(bucket, n)
  {
    RoundTrip(e.value);
  }

  // ---- What Read is to return -------------------------------------------------

  function ResultOf(node: NodeId, e: Entry, origin: Origin): ReadResult {
    ReadResult(node, e.value, e.status, e.sourceTime, e.serverTime, origin, e.receivedAt)
  }

  function LiveResult(node: NodeId, v: DataValue): ReadResult {
    ReadResult(node, Normalize(v.value), v.status, v.sourceTime, v.serverTime, FromLive, 0)
  }

  function LiveEntry(v: DataValue, at: int): Entry {
    Entry(Normalize(v.value), v.status, v.sourceTime, v.serverTime, at, Live)
  }

  /** The cache's answer for one node, if it has one fresh enough. */
  function Hit(bucket: Bucket, node: NodeId, maxAge: int, now: int): Option<ReadResult> {
    var e := Get(bucket, node);
    if e.None? then None
    else
      match e.value.source
      case Subscription => Some(ResultOf(node, e.value, FromSubscription))
      case Live => if now - e.value.receivedAt <= maxAge then Some(ResultOf(node, e.value, FromCache)) else None
      case Unknown => None
  }

  /** What surrounds one requested position: whether GetValue works, what the
      server answers if asked, whether the store takes the answer. */
  datatype Position = Position(getOk: bool, answer: DataValue, putOk: bool)

  function CacheAnswer(bucket: Bucket, node: NodeId, p: Position, maxAge: int, now: int): Option<ReadResult> {
    if p.getOk then Hit(bucket, node, maxAge, now) else None
  }

  function PutLive(bucket: Bucket, node: NodeId, p: Position, at: int): Bucket {
    var stored := Put(bucket, node, LiveEntry(p.answer, at));
    if p.putOk && stored.Some? then stored.value else bucket
  }

  /** The store after live answers have been put one by one. */
  function PutAll(bucket: Bucket, nodes: seq<NodeId>, around: seq<Position>, at: int): Bucket
    requires |around| == |nodes|
  {
    PutFirst(bucket, nodes, around, at, |nodes|)
  }

  function PutFirst(bucket: Bucket, nodes: seq<NodeId>, around: seq<Position>, at: int, n: nat): Bucket
    requires n <= |around| == |nodes|
  {
    if n == 0 then bucket else PutLive(PutFirst(bucket, nodes, around, at, n - 1), nodes[n - 1], around[n - 1], at)
  }

  /** What Write's invalidation spares: entries it does not find, and entries tagged
      as pushed, whether or not anything still subscribes to the node. */
  predicate Spared(bucket: Bucket, node: NodeId) {
    Get(bucket, node).None? || Get(bucket, node).value.source.Subscription?
  }

  /** The store after a successful write, when it can be read and deleted from. */
  function Invalidated(bucket: Bucket, node: NodeId): Bucket {
    if Spared(bucket, node) then bucket else bucket - {node}
  }

  function CacheAnswers(bucket: Bucket, nodes: seq<NodeId>, around: seq<Position>, maxAge: int, now: int)
    : (answers: seq<Option<ReadResult>>)
    requires |around| == |nodes|
    ensures |answers| == |nodes|
  {
    seq(|nodes|, i requires 0 <= i < |nodes| => CacheAnswer(bucket, nodes[i], around[i], maxAge, now))
  }

  /** The first n positions without an answer, in order. */
  function Misses(answers: seq<Option<ReadResult>>, n: nat): seq<nat>
    requires n <= |answers|
  {
    if n == 0 then [] else Misses(answers, n - 1) + (if answers[n - 1].None? then [n - 1] else [])
  }

  function Select<T>(items: seq<T>, at: seq<nat>): seq<T>
    requires forall i | i in at :: i < |items|
  {
    seq(|at|, j requires 0 <= j < |at| => assert at[j] in at; items[at[j]])
  }

  lemma {:induction false} MissesShape(answers: seq<Option<ReadResult>>, n: nat)
    requires n <= |answers|
    ensures var m := Misses(answers, n);
            && (forall k :: k in m <==> 0 <= k < n && answers[k].None?)
            && forall j, k | 0 <= j < k < |m| :: m[j] < m[k]
  {
    if n > 0 {
      MissesShape(answers, n - 1);
      var m := Misses(answers, n - 1);
      assert forall j | 0 <= j < |m| :: m[j] in m;
    }
  }

  // ---- History ----------------------------------------------------------------

  /** invalidated: the write left no live entry for its node behind. */
  datatype Event =
    | LiveRead(node: NodeId, answer: DataValue, at: int)
    | WriteDone(node: NodeId, invalidated: bool)
    | Pushed(node: NodeId)

  /** The live reads of one batch, in order. */
  function LiveReads(nodes: seq<NodeId>, around: seq<Position>, at: int): seq<Event>
    requires |around| == |nodes|
  {
    FirstReads(nodes, around, at, |nodes|)
  }

  function FirstReads(nodes: seq<NodeId>, around: seq<Position>, at: int, n: nat): seq<Event>
    requires n <= |around| == |nodes|
  {
    if n == 0 then []
    else FirstReads(nodes, around, at, n - 1) + [LiveRead(nodes[n - 1], around[n - 1].answer, at)]
  }

  /** told says what the server's answer says: its value rendered, its status and
      times as they are. */
  predicate Tells(answer: DataValue, told: DataValue) {
    && Renders(answer.value, told.value)
    && told.status == answer.status && told.sourceTime == answer.sourceTime && told.serverTime == answer.serverTime
  }

  /** What an entry says, and what a result says. */
  function Said(e: Entry): DataValue { DataValue(e.value, e.status, e.sourceTime, e.serverTime) }

  function Told(r: ReadResult): DataValue { DataValue(r.value, r.status, r.sourceTime, r.serverTime) }

  /** A result read live tells what the server answered for its node. */
  predicate TellsLive(r: ReadResult, node: NodeId, answer: DataValue) {
    r.node == node && r.origin.FromLive? && Tells(answer, Told(r))
  }

  /** A result from the store tells what the entry says, and when it came. */
  predicate TellsEntry(r: ReadResult, node: NodeId, e: Entry) {
    && r.node == node && Told(r) == Said(e) && r.cachedAt == e.receivedAt
    && (r.origin.FromSubscription? <==> e.source.Subscription?) && (r.origin.FromCache? <==> e.source.Live?)
  }

  lemma LiveAnswersAreTold(node: NodeId, v: DataValue, at: int)
    ensures TellsLive(LiveResult(node, v), node, v)
    ensures Tells(v, Said(LiveEntry(v, at))) && LiveEntry(v, at).receivedAt == at && LiveEntry(v, at).source.Live?
  {
    NormalizeRendersIff(v.value, Normalize(v.value));
  }

  /** The store answers exactly when it has an entry that was pushed, however old, or
      read live no longer than maxAge ago; and it tells what the entry says. */
  lemma HitIff(bucket: Bucket, node: NodeId, maxAge: int, now: int)
    ensures Hit(bucket, node, maxAge, now).Some?
            <==> Get(bucket, node).Some?
                 && (Get(bucket, node).value.source.Subscription?
                     || (Get(bucket, node).value.source.Live? && now - Get(bucket, node).value.receivedAt <= maxAge))
    ensures Hit(bucket, node, maxAge, now).Some?
            ==> TellsEntry(Hit(bucket, node, maxAge, now).value, node, Get(bucket, node).value)
  {
  }

  /** value is what a live read of node at time at told, and every successful write
      to node since has failed to invalidate it. */
  ghost predicate Backed(history: seq<Event>, node: NodeId, value: DataValue, at: int) {
    exists i | 0 <= i < |history| ::
      && ReadOf(history[i], node, value, at)
      && forall j | i < j < |history| :: !(history[j].WriteDone? && history[j].node == node && history[j].invalidated)
  }

  predicate ReadOf(e: Event, node: NodeId, value: DataValue, at: int) {
    e.LiveRead? && e.node == node && e.at == at && Tells(e.answer, value)
  }

  lemma BackedStays(history: seq<Event>, e: Event, node: NodeId, value: DataValue, at: int)
    requires Backed(history, node, value, at) && !(e.WriteDone? && e.node == node && e.invalidated)
    ensures Backed(history + [e], node, value, at)
  {
    var i :| 0 <= i < |history| && ReadOf(history[i], node, value, at)
             && forall j | i < j < |history| ::
                !(history[j].WriteDone? && history[j].node == node && history[j].invalidated);
    assert (history + [e])[i] == history[i];
  }

  lemma BackedNow(history: seq<Event>, e: Event, node: NodeId, value: DataValue, at: int)
    requires ReadOf(e, node, value, at)
    ensures Backed(history + [e], node, value, at)
  {
    assert (history + [e])[|history|] == e;
  }

  /** As long as the store has not failed to invalidate, that means: no successful
      write to the node since. */
  lemma CoherentWhenInvalidationsWork(history: seq<Event>, node: NodeId, value: DataValue, at: int)
    requires Backed(history, node, value, at)
    requires forall e | e in history && e.WriteDone? :: e.invalidated
    ensures exists i | 0 <= i < |history| ::
              && ReadOf(history[i], node, value, at)
              && forall j | i < j < |history| :: history[j].WriteDone? ==> history[j].node != node
  {
    var i :| 0 <= i < |history| && ReadOf(history[i], node, value, at)
             && forall j | i < j < |history| ::
                !(history[j].WriteDone? && history[j].node == node && history[j].invalidated);
    assert forall j | i < j < |history| :: history[j] in history;
  }

  ghost predicate AllBacked(bucket: Bucket, history: seq<Event>) {
    forall n | Get(bucket, n).Some? && Get(bucket, n).value.source.Live? ::
      Backed(history, n, Said(Get(bucket, n).value), Get(bucket, n).value.receivedAt)
  }

  predicate Answered(enableCache: bool, bucket: Bucket, node: NodeId, p: Position, maxAge: int, now: int) {
    enableCache && CacheAnswer(bucket, node, p, maxAge, now).Some?
  }

  /** The result for one position. */
  function Expected(enableCache: bool, bucket: Bucket, node: NodeId, p: Position, maxAge: int, now: int): ReadResult {
    if Answered(enableCache, bucket, node, p, maxAge, now) then CacheAnswer(bucket, node, p, maxAge, now).value
    else LiveResult(node, p.answer)
  }

  /** A position is answered from the store exactly when caching is on, the store can
      be read, and it has a pushed entry or a live one that is fresh enough. */
  lemma AnsweredIff(enableCache: bool, bucket: Bucket, node: NodeId, p: Position, maxAge: int, now: int)
    ensures Answered(enableCache, bucket, node, p, maxAge, now)
            <==> enableCache && p.getOk && Get(bucket, node).Some?
                 && (Get(bucket, node).value.source.Subscription?
                     || (Get(bucket, node).value.source.Live? && now - Get(bucket, node).value.receivedAt <= maxAge))
  {
    HitIff(bucket, node, maxAge, now);
  }

  /** The i-th live answer is for node and goes into the store. */
  predicate Lands(nodes: seq<NodeId>, around: seq<Position>, node: NodeId, i: nat)
    requires i < |nodes| == |around|
  {
    nodes[i] == node && around[i].putOk && Storable(Normalize(around[i].answer.value))
  }

  /** One answer put: it is found at its own node, if it lands. */
  lemma PutLiveThenFind(bucket: Bucket, nodes: seq<NodeId>, around: seq<Position>, at: int, i: nat, node: NodeId)
    requires i < |nodes| == |around| && Typed(around[i].answer.value)
    ensures Get(PutLive(bucket, nodes[i], around[i], at), node)
            == if Lands(nodes, around, node, i) then Some(LiveEntry(around[i].answer, at)) else Get(bucket, node)
  {
    var e := LiveEntry(around[i].answer, at);
    NormalizeIsNormal(around[i].answer.value);
    NormalizeKeepsTypes(around[i].answer.value);
    EncodesIff(e.value);
    if Put(bucket, nodes[i], e).Some? { PutThenGet(bucket, nodes[i], e); }
  }

  /** What is found for a node after a batch of live answers has been put: the last
      of its answers that could be stored, or what was there before. */
  lemma {:induction false} LastAnswerIsFound(bucket: Bucket, nodes: seq<NodeId>, around: seq<Position>, at: int, n: nat,
                                             node: NodeId, i: nat)
    requires i < n <= |nodes| == |around| && forall p | p in around :: Typed(p.answer.value)
    requires Lands(nodes, around, node, i) && forall k | i < k < n :: !Lands(nodes, around, node, k)
    ensures Get(PutFirst(bucket, nodes, around, at, n), node) == Some(LiveEntry(around[i].answer, at))
  {
    assert around[n - 1] in around;
    PutLiveThenFind(PutFirst(bucket, nodes, around, at, n - 1), nodes, around, at, n - 1, node);
    if i < n - 1 { LastAnswerIsFound(bucket, nodes, around, at, n - 1, node, i); }
  }

  lemma {:induction false} OthersAreFoundAsBefore(bucket: Bucket, nodes: seq<NodeId>, around: seq<Position>, at: int,
                                                  n: nat, node: NodeId)
    requires n <= |nodes| == |around| && forall p | p in around :: Typed(p.answer.value)
    requires forall i | 0 <= i < n :: !Lands(nodes, around, node, i)
    ensures Get(PutFirst(bucket, nodes, around, at, n), node) == Get(bucket, node)
  {
    if n > 0 {
      assert around[n - 1] in around;
      PutLiveThenFind(PutFirst(bucket, nodes, around, at, n - 1), nodes, around, at, n - 1, node);
      OthersAreFoundAsBefore(bucket, nodes, around, at, n - 1, node);
    }
  }

  /** A write that is followed up leaves no entry for its node but a pushed one, and
      every other node's. */
  lemma InvalidatesExactly(bucket: Bucket, node: NodeId, n: NodeId)
    ensures Get(Invalidated(bucket, node), n)
            == if n == node && Get(bucket, n).Some? && !Get(bucket, n).value.source.Subscription? then None
               else Get(bucket, n)
  {
  }

  predicate ExpectedTells(enableCache: bool, bucket: Bucket, node: NodeId, p: Position, maxAge: int, now: int) {
    var r := Expected(enableCache, bucket, node, p, maxAge, now);
    if Answered(enableCache, bucket, node, p, maxAge, now) then
      Get(bucket, node).Some? && TellsEntry(r, node, Get(bucket, node).value)
    else TellsLive(r, node, p.answer)
  }

  ghost predicate CacheBacked(history: seq<Event>, node: NodeId, r: ReadResult, maxAge: int, now: int) {
    now - r.cachedAt <= maxAge && Backed(history, node, Told(r), r.cachedAt)
  }

  lemma HitIsBacked(bucket: Bucket, history: seq<Event>, node: NodeId, p: Position, maxAge: int, now: int)
    requires AllBacked(bucket, history)
    requires CacheAnswer(bucket, node, p, maxAge, now).Some?
    requires CacheAnswer(bucket, node, p, maxAge, now).value.origin.FromCache?
    ensures CacheBacked(history, node, CacheAnswer(bucket, node, p, maxAge, now).value, maxAge, now)
  {
  }

  class CachingClient {
    const enableCache: bool
    var bucket: Bucket
    ghost var history: seq<Event>

    ghost predicate Valid()
      reads this
    {
      AllBacked(bucket, history)
    }

    constructor (enableCache: bool)
      ensures Valid() && this.enableCache == enableCache && bucket == map[] && history == []
    {
      this.enableCache := enableCache;
      bucket, history := map[], [];
    }

    /** Adding one live value to the store, which may refuse it. */
    method Remember(node: NodeId, p: Position, at: int)
      requires Valid() && Typed(p.answer.value)
      modifies this
      ensures Valid() && history == old(history) + [LiveRead(node, p.answer, at)]
      ensures bucket == if enableCache then PutLive(old(bucket), node, p, at) else old(bucket)
    {
      ghost var e := LiveRead(node, p.answer, at);
      LiveAnswersAreTold(node, p.answer, at);
      var entry := LiveEntry(p.answer, at);
      forall n, v: DataValue, t: int | Backed(history, n, v, t) ensures Backed(history + [e], n, v, t) {
        BackedStays(history, e, n, v, t);
      }
      BackedNow(history, e, node, Said(entry), at);
      history := history + [e];
      if enableCache && p.putOk {
        var stored := Put(bucket, node, entry);
        if stored.Some? {
          NormalizeKeepsTypes(p.answer.value);
          PutThenGet(bucket, node, entry);
          bucket := stored.value;
        }
      }
    }

    /** readLive; serverOk tells whether the batched read succeeds. */
    method ReadLive(nodes: seq<NodeId>, around: seq<Position>, serverOk: bool, at: int)
      returns (results: Option<seq<ReadResult>>)
      requires Valid() && |around| == |nodes| && forall p | p in around :: Typed(p.answer.value)
      modifies this
      ensures Valid() && (results.None? <==> nodes != [] && !serverOk)
      ensures results.Some? ==> |results.value| == |nodes|
                                && forall i | 0 <= i < |nodes| ::
                                   results.value[i] == LiveResult(nodes[i], around[i].answer)
      // Each tells what the server answered for its node.
      ensures results.Some? ==> forall i | 0 <= i < |nodes| :: TellsLive(results.value[i], nodes[i], around[i].answer)
      ensures bucket == if results.Some? && enableCache then PutAll(old(bucket), nodes, around, at) else old(bucket)
      ensures history == old(history) + if results.Some? then LiveReads(nodes, around, at) else []
    {
      if nodes == [] {
        return Some([]);
      }
      if !serverOk {
        return None;
      }
      var out: seq<ReadResult> := [];
      for i := 0 to |nodes|
        invariant Valid() && |out| == i
        invariant forall k | 0 <= k < i ::
                    out[k] == LiveResult(nodes[k], around[k].answer) && TellsLive(out[k], nodes[k], around[k].answer)
        invariant bucket == if enableCache then PutFirst(old(bucket), nodes, around, at, i) else old(bucket)
        invariant history == old(history) + FirstReads(nodes, around, at, i)
      {
        assert around[i] in around;
        out := out + [LiveResult(nodes[i], around[i].answer)];
        LiveAnswersAreTold(nodes[i], around[i].answer, at);
        Remember(nodes[i], around[i], at);
      }
      return Some(out);
    }

    /** The lookup loop: the cache's answers, and the positions left to read live. */
    method LookUp(nodes: seq<NodeId>, maxAge: int, now: int, around: seq<Position>)
      returns (out: seq<ReadResult>, liveIdx: seq<nat>)
      requires |around| == |nodes|
      ensures |out| == |nodes|
      ensures var answers := CacheAnswers(bucket, nodes, around, maxAge, now);
              && (forall k | 0 <= k < |nodes| && answers[k].Some? :: out[k] == answers[k].value)
              && liveIdx == Misses(answers, |nodes|)
    {
      ghost var answers := CacheAnswers(bucket, nodes, around, maxAge, now);
      out := seq(|nodes|, i requires 0 <= i < |nodes| => LiveResult(nodes[i], around[i].answer));
      liveIdx := [];
      for i := 0 to |nodes|
        invariant |out| == |nodes|
        invariant forall k | 0 <= k < i && answers[k].Some? :: out[k] == answers[k].value
        invariant liveIdx == Misses(answers, i)
      {
        assert answers[i] == CacheAnswer(bucket, nodes[i], around[i], maxAge, now);
        var entry := if around[i].getOk then Get(bucket, nodes[i]) else None;
        if entry.None? {
          liveIdx := liveIdx + [i];
        } else {
          match entry.value.source
          case Subscription =>
            out := out[i := ResultOf(nodes[i], entry.value, FromSubscription)];
          case Live =>
            if now - entry.value.receivedAt <= maxAge {
              out := out[i := ResultOf(nodes[i], entry.value, FromCache)];
            } else {
              liveIdx := liveIdx + [i];
            }
          case Unknown =>
            liveIdx := liveIdx + [i];
        }
      }
    }

    /** Read. Cache lookups happen at now; the batched live read, if any, at. */
    method Read(nodes: seq<NodeId>, maxAge: int, now: int, around: seq<Position>, serverOk: bool, at: int)
      returns (results: Option<seq<ReadResult>>)
      requires Valid() && |around| == |nodes| && forall p | p in around :: Typed(p.answer.value)
      modifies this
      ensures Valid()
      // One result per requested node, in order, for any mix of hits, misses and
      // repeated nodes: the cache's answer where it has one, else the server's.
      ensures results.Some? ==> |results.value| == |nodes|
      ensures results.Some? ==> forall i | 0 <= i < |nodes| ::
                results.value[i] == Expected(enableCache, old(bucket), nodes[i], around[i], maxAge, now)
      // What the server's answer or the entry says is what the result tells.
      ensures results.Some? ==> forall i | 0 <= i < |nodes| ::
                if Answered(enableCache, old(bucket), nodes[i], around[i], maxAge, now) then
                  TellsEntry(results.value[i], nodes[i], Get(old(bucket), nodes[i]).value)
                else TellsLive(results.value[i], nodes[i], around[i].answer)
      ensures results.None? <==> !serverOk && exists i | 0 <= i < |nodes| ::
              !Answered(enableCache, old(bucket), nodes[i], around[i], maxAge, now)
      // Every answer read live was put into the store, in order.
      ensures forall k | k in Misses(CacheAnswers(old(bucket), nodes, around, maxAge, now), |nodes|) :: k < |nodes|
      ensures var m := Misses(CacheAnswers(old(bucket), nodes, around, maxAge, now), |nodes|);
              && bucket == (if !enableCache || results.None? then old(bucket)
                            else PutAll(old(bucket), Select(nodes, m), Select(around, m), at))
              && history == old(history) + if results.None? then []
                                           else if enableCache then LiveReads(Select(nodes, m), Select(around, m), at)
                                           else LiveReads(nodes, around, at)
      // What comes from the cache was read live no longer than maxAge ago, and no
      // write that worked and was followed up has changed it since.
      ensures results.Some? ==> forall i | 0 <= i < |nodes| && results.value[i].origin.FromCache? ::
                && now - results.value[i].cachedAt <= maxAge
                && Backed(old(history), nodes[i], Told(results.value[i]), results.value[i].cachedAt)
    {
      AnswersAreBacked(nodes, around, maxAge, now);
      AnswersAreTold(nodes, around, maxAge, now);
      if enableCache {
        results := ReadThrough(nodes, maxAge, now, around, serverOk, at);
      } else {
        MissesShape(CacheAnswers(bucket, nodes, around, maxAge, now), |nodes|);
        assert nodes != [] ==> !Answered(enableCache, bucket, nodes[0], around[0], maxAge, now);
        results := ReadLive(nodes, around, serverOk, at);
      }
    }

    /** Every answer the cache would give now was read live, and not changed since. */
    lemma AnswersAreBacked(nodes: seq<NodeId>, around: seq<Position>, maxAge: int, now: int)
      requires Valid() && |around| == |nodes|
      ensures forall i | 0 <= i < |nodes| ::
                var r := Expected(enableCache, bucket, nodes[i], around[i], maxAge, now);
                r.origin.FromCache? ==> CacheBacked(history, nodes[i], r, maxAge, now)
    {
      forall i | 0 <= i < |nodes| && Expected(enableCache, bucket, nodes[i], around[i], maxAge, now).origin.FromCache?
        ensures var r := Expected(enableCache, bucket, nodes[i], around[i], maxAge, now);
                CacheBacked(history, nodes[i], r, maxAge, now)
      {
        HitIsBacked(bucket, history, nodes[i], around[i], maxAge, now);
      }
    }

    /** Every result Read would give now tells what it comes from. */
    lemma AnswersAreTold(nodes: seq<NodeId>, around: seq<Position>, maxAge: int, now: int)
      requires |around| == |nodes|
      ensures forall i | 0 <= i < |nodes| :: ExpectedTells(enableCache, bucket, nodes[i], around[i], maxAge, now)
    {
      forall i | 0 <= i < |nodes| ensures ExpectedTells(enableCache, bucket, nodes[i], around[i], maxAge, now) {
        HitIff(bucket, nodes[i], maxAge, now);
        LiveAnswersAreTold(nodes[i], around[i].answer, 0);
      }
    }

    /** Read with the cache enabled. */
    method ReadThrough(nodes: seq<NodeId>, maxAge: int, now: int, around: seq<Position>, serverOk: bool, at: int)
      returns (results: Option<seq<ReadResult>>)
      requires Valid() && enableCache && |around| == |nodes| && forall p | p in around :: Typed(p.answer.value)
      modifies this
      ensures Valid()
      ensures results.Some? ==> |results.value| == |nodes|
      ensures var answers := CacheAnswers(old(bucket), nodes, around, maxAge, now);
              && (results.Some? ==> forall i | 0 <= i < |nodes| ::
                    results.value[i]
                    == if answers[i].Some? then answers[i].value else LiveResult(nodes[i], around[i].answer))
              && (results.None? <==> !serverOk && exists i | 0 <= i < |nodes| :: answers[i].None?)
              && var m := Misses(answers, |nodes|);
                 && (forall k | k in m :: k < |nodes|)
                 && bucket == (if results.Some? then PutAll(old(bucket), Select(nodes, m), Select(around, m), at)
                               else old(bucket))
                 && history == old(history) + if results.Some? then LiveReads(Select(nodes, m), Select(around, m), at)
                                              else []
    {
      ghost var answers := CacheAnswers(bucket, nodes, around, maxAge, now);
      MissesShape(answers, |nodes|);
      var out, liveIdx := LookUp(nodes, maxAge, now, around);
      if liveIdx == [] {
        assert forall k | 0 <= k < |nodes| :: k !in liveIdx;
        return Some(out);
      }
      assert liveIdx[0] in liveIdx && answers[liveIdx[0]].None?;
      results := ReadMisses(nodes, around, out, liveIdx, serverOk, at);
    }

    /** The live read of the positions left, scattered back among the results. */
    method ReadMisses(nodes: seq<NodeId>, around: seq<Position>, cached: seq<ReadResult>, liveIdx: seq<nat>,
                      serverOk: bool, at: int)
      returns (results: Option<seq<ReadResult>>)
      requires Valid() && |around| == |nodes| == |cached| && forall p | p in around :: Typed(p.answer.value)
      requires liveIdx != [] && forall k | k in liveIdx :: k < |nodes|
      requires forall j, k | 0 <= j < k < |liveIdx| :: liveIdx[j] != liveIdx[k]
      modifies this
      ensures Valid() && (results.None? <==> !serverOk)
      ensures bucket == if results.Some? && enableCache
              then PutAll(old(bucket), Select(nodes, liveIdx), Select(around, liveIdx), at) else old(bucket)
      ensures history == old(history) + if results.Some?
              then LiveReads(Select(nodes, liveIdx), Select(around, liveIdx), at) else []
      ensures results.Some? ==> |results.value| == |nodes|
      ensures results.Some? ==> forall i | 0 <= i < |nodes| ::
                results.value[i] == if i in liveIdx then LiveResult(nodes[i], around[i].answer) else cached[i]
    {
      assert forall j | 0 <= j < |liveIdx| :: liveIdx[j] in liveIdx;
      var liveNodes := Select(nodes, liveIdx);
      var liveAround := Select(around, liveIdx);
      var live := ReadLive(liveNodes, liveAround, serverOk, at);
      if live.None? {
        return None;
      }
      var out := cached;
      for j := 0 to |liveIdx|
        invariant |out| == |nodes|
        invariant forall k | 0 <= k < |nodes| && k !in liveIdx :: out[k] == cached[k]
        invariant forall k | 0 <= k < j :: out[liveIdx[k]] == LiveResult(nodes[liveIdx[k]], around[liveIdx[k]].answer)
      {
        out := out[liveIdx[j] := live.value[j]];
      }
      return Some(out);
    }

    /** Write; wrote, getOk and deleteOk are what the server and the store answer. */
    method Write(node: NodeId, wrote: bool, getOk: bool, deleteOk: bool)
      requires Valid()
      modifies this
      ensures Valid()
      ensures !wrote || !enableCache ==> bucket == old(bucket) && history == old(history)
      ensures wrote && enableCache ==>
                && history == old(history) + [WriteDone(node, getOk && (Spared(old(bucket), node) || deleteOk))]
                && bucket == if getOk && deleteOk then Invalidated(old(bucket), node) else old(bucket)
    {
      if !wrote || !enableCache {
        return;
      }
      var entry := Get(bucket, node);
      var spared := entry.None? || entry.value.source.Subscription?;
      ghost var e := WriteDone(node, getOk && (spared || deleteOk));
      forall n, v: DataValue, t: int | Backed(history, n, v, t) && !(n == node && e.invalidated)
        ensures Backed(history + [e], n, v, t)
      {
        BackedStays(history, e, n, v, t);
      }
      history := history + [e];
      if !getOk || spared {
        return;
      }
      if deleteOk {
        assert forall n :: Get(bucket - {node}, n) == if n == node then None else Get(bucket, n);
        bucket := bucket - {node};
      }
    }

    /** The subscription pump putting a pushed value; putOk tells whether the store
        works. A put that fails is logged and forgotten. */
    method Push(node: NodeId, entry: Entry, putOk: bool)
      requires Valid() && entry.source.Subscription? && Typed(entry.value)
      modifies this
      ensures Valid()
      ensures var stored := Put(old(bucket), node, entry);
              && history == old(history) + [Pushed(node)]
              && bucket == if putOk && stored.Some? then stored.value else old(bucket)
    {
      ghost var e := Pushed(node);
      forall n, v: DataValue, t: int | Backed(history, n, v, t) ensures Backed(history + [e], n, v, t) {
        BackedStays(history, e, n, v, t);
      }
      history := history + [e];
      var stored := Put(bucket, node, entry);
      if putOk && stored.Some? {
        PutThenGet(bucket, node, entry);
        bucket := stored.value;
      }
    }
  }
}
