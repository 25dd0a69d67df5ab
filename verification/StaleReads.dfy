/** The cache, the pump and the subscription manager over one history: when a read
    is answered with a value from before the last successful write. The store works
    throughout. */
module StaleReads {
  import opened Wrappers
  import opened Values
  import opened Subscriptions
  import opened CachingClient
  import Runs = SubscriptionRuns
  import History = SubscriptionHistory
  import Proofs = SubscriptionProofs
  import Pump = NotificationPump

  /** What has happened, each in its place: a value was pushed for a node, the batch
      was written out, a value was read live, the server took a write. */
  datatype Occurrence =
    | Arrived(node: NodeId, entry: Entry)
    | FlushedAll
    | ReadLive(node: NodeId, entry: Entry)
    | Wrote(node: NodeId)

  /** sys is the subscription manager, batch the pump's. log is the history, and
      origin and pending say where in it the server gave each value that the store
      and the batch hold. */
  datatype Joint = Joint(
    sys: Runs.System, batch: map<NodeId, Entry>, bucket: Bucket,
    log: seq<Occurrence>, origin: map<NodeId, nat>, pending: map<NodeId, nat>)

  datatype Step =
    | Manage(call: Runs.Label)
    | Arrive(handle: Handle, value: Option<DataValue>, at: int)  // one item of a notification
    | Flush
    | Read(node: NodeId, maxAge: int, now: int, answer: DataValue, at: int)
    | Write(node: NodeId)

  predicate Enabled(j: Joint, s: Step) {
    match s
    case Manage(call) => Runs.Enabled(j.sys, call)
    case Arrive(_, value, _) => value.Some? ==> Typed(value.value.value)
    case Read(_, _, _, answer, _) => Typed(answer.value)
    case _ => true
  }

  function PushEntry(v: DataValue, at: int): Entry { LiveEntry(v, at).(source := Source.Subscription) }

  /** A pushed value's entry tells what was pushed and when, and is tagged so. */
  lemma PushesAreTold(v: DataValue, at: int)
    ensures Tells(v, Said(PushEntry(v, at))) && PushEntry(v, at).receivedAt == at
    ensures PushEntry(v, at).source.Subscription?
  {
    LiveAnswersAreTold(NodeId(0, true), v, at);
  }

  function FlushInto(bucket: Bucket, batch: map<NodeId, Entry>): Bucket {
    bucket + map k | k in batch && OnDisk(batch[k]).Some? :: OnDisk(batch[k]).value
  }

  function Refreshed(j: Joint, n: NodeId, e: Entry): Joint {
    var stored := Put(j.bucket, n, e);
    var log := j.log + [ReadLive(n, e)];
    if stored.None? then j.(log := log)
    else j.(log := log, bucket := stored.value, origin := j.origin[n := |j.log|])
  }

  function Pushed(j: Joint, n: NodeId, e: Entry): Joint {
    j.(batch := j.batch[n := e], log := j.log + [Arrived(n, e)], pending := j.pending[n := |j.log|])
  }

  function Flushed(j: Joint): Joint {
    var written := map k | k in j.batch && k in j.pending && OnDisk(j.batch[k]).Some? :: j.pending[k];
    j.(bucket := FlushInto(j.bucket, j.batch), origin := j.origin + written,
       batch := map[], pending := map[], log := j.log + [FlushedAll])
  }

  function Written(j: Joint, n: NodeId): Joint {
    var bucket := Invalidated(j.bucket, n);
    j.(bucket := bucket, origin := if n in bucket then j.origin else j.origin - {n}, log := j.log + [Wrote(n)])
  }

  ghost function Apply(j: Joint, s: Step): Joint
    requires Enabled(j, s)
  {
    match s
    case Manage(call) => j.(sys := Runs.Apply(j.sys, call))
    case Arrive(handle, value, at) =>
      var node := Pump.Lookup(j.sys.m, handle);
      if node.Some? && value.Some? then Pushed(j, node.value, PushEntry(value.value, at)) else j
    case Flush => Flushed(j)
    case Read(node, maxAge, now, answer, at) =>
      if Hit(j.bucket, node, maxAge, now).Some? then j else Refreshed(j, node, LiveEntry(answer, at))
    case Write(node) => Written(j, node)
  }

  ghost predicate Leads(j: Joint, steps: seq<Step>, t: Joint)
    decreases |steps|
  {
    if steps == [] then j == t else Enabled(j, steps[0]) && Leads(Apply(j, steps[0]), steps[1..], t)
  }

  /** A process that starts over these persisted intents, nothing cached. */
  function Start(intents: map<SubscriptionId, Record>): Joint {
    Joint(History.Initially(intents), map[], map[], [], map[], map[])
  }

  ghost predicate Reached(j: Joint) {
    exists intents, steps :: Proofs.StoreOk(intents) && Leads(Start(intents), steps, j)
  }

  // ---- Old values -------------------------------------------------------------

  /** What the store holds for n is from before some successful write to n. */
  predicate Outdated(j: Joint, n: NodeId) {
    n in j.origin && exists w | 0 <= w < |j.log| :: j.origin[n] < w && j.log[w] == Wrote(n)
  }

  predicate Pushes(o: Occurrence, n: NodeId) { o.Arrived? && o.node == n }

  /** The push at i came through to the store: its value has a tagged form, and the
      batch was written out before another push took its place. */
  predicate Landed(log: seq<Occurrence>, n: NodeId, i: nat) {
    && i < |log| && Pushes(log[i], n) && OnDisk(log[i].entry).Some?
    && exists k | i < k < |log| :: log[k].FlushedAll? && NoPush(log, n, i + 1, k)
  }

  predicate NoPush(log: seq<Occurrence>, n: NodeId, from: nat, to: nat)
    requires to <= |log|
  {
    forall x | from <= x < to :: !Pushes(log[x], n)
  }

  predicate Tagged(j: Joint, n: NodeId) { Get(j.bucket, n).Some? && Get(j.bucket, n).value.source.Subscription? }

  /** n was written, and no push of it has come through since. */
  ghost predicate UnpushedSinceWrite(j: Joint, n: NodeId) {
    exists w: nat | w < |j.log| && j.log[w] == Wrote(n) :: NoneLanded(j.log, n, w)
  }

  predicate NoneLanded(log: seq<Occurrence>, n: NodeId, w: nat) { forall i | w < i < |log| :: !Landed(log, n, i) }

  // ---- The invariant ----------------------------------------------------------

  /** The occurrence gave n this value. */
  predicate Gave(o: Occurrence, n: NodeId, e: Entry) {
    && (o == Arrived(n, e) || o == ReadLive(n, e))
    && (if o.Arrived? then e.source.Subscription? else e.source.Live?)
  }

  predicate BucketOk(j: Joint) {
    && j.origin.Keys == j.bucket.Keys
    && forall n | n in j.bucket :: HeldOk(j, n)
  }

  predicate HeldOk(j: Joint, n: NodeId)
    requires n in j.bucket && n in j.origin
  {
    Get(j.bucket, n).Some? && Held(j.log, n, j.origin[n], Get(j.bucket, n).value)
  }

  /** The server gave e at the occurrence `at`; read live, it is from after every
      write; pushed, it came through, as the last push that did. */
  predicate Held(log: seq<Occurrence>, n: NodeId, at: nat, e: Entry) {
    && at < |log| && Gave(log[at], n, e)
    && (e.source.Live? ==> forall w | at < w < |log| :: log[w] != Wrote(n))
    && (e.source.Subscription? ==> Landed(log, n, at))
    && forall i | 0 <= i < |log| && Landed(log, n, i) :: i <= at
  }

  predicate BatchOk(j: Joint) {
    && j.pending.Keys == j.batch.Keys
    && forall n | n in j.batch :: LastPush(j.log, n, j.pending[n], j.batch[n])
  }

  /** e is the last value pushed for n. */
  predicate LastPush(log: seq<Occurrence>, n: NodeId, at: nat, e: Entry) {
    && at < |log| && log[at] == Arrived(n, e)
    && e.source.Subscription? && Typed(e.value)
    && NoPush(log, n, at + 1, |log|)
  }

  /** A push not written out yet is in the batch, or replaced there. */
  ghost predicate PushesKept(j: Joint) {
    forall i, n | 0 <= i < |j.log| && Pushes(j.log[i], n) :: FlushAfter(j.log, i) || n in j.batch
  }

  predicate FlushAfter(log: seq<Occurrence>, i: nat) { exists k | i < k < |log| :: log[k].FlushedAll? }

  ghost predicate Inv(j: Joint) { BucketOk(j) && BatchOk(j) && PushesKept(j) }

  // ---- One more occurrence ----------------------------------------------------

  lemma LandedStays(log: seq<Occurrence>, o: Occurrence, n: NodeId, i: nat)
    requires Landed(log, n, i)
    ensures Landed(log + [o], n, i)
  {
    var k :| i < k < |log| && log[k].FlushedAll? && NoPush(log, n, i + 1, k);
    assert (log + [o])[k].FlushedAll? && NoPush(log + [o], n, i + 1, k);
  }

  /** Nothing comes through but by a flush. */
  lemma LandedBefore(log: seq<Occurrence>, o: Occurrence, n: NodeId, i: nat)
    requires !o.FlushedAll? && Landed(log + [o], n, i)
    ensures Landed(log, n, i)
  {
    var log' := log + [o];
    var k :| i < k < |log'| && log'[k].FlushedAll? && NoPush(log', n, i + 1, k);
    assert forall x | 0 <= x < |log| :: log'[x] == log[x];
    assert log[k].FlushedAll? && NoPush(log, n, i + 1, k);
  }

  lemma HeldStays(log: seq<Occurrence>, o: Occurrence, n: NodeId, at: nat, e: Entry)
    requires Held(log, n, at, e) && !o.FlushedAll? && (o == Wrote(n) ==> e.source.Subscription?)
    ensures Held(log + [o], n, at, e)
  {
    var log' := log + [o];
    if e.source.Subscription? { LandedStays(log, o, n, at); }
    forall i | 0 <= i < |log'| && Landed(log', n, i) ensures i <= at { LandedBefore(log, o, n, i); }
    assert forall w | at < w < |log'| :: if w < |log| then log'[w] == log[w] else log'[w] == o;
  }

  lemma LastPushStays(log: seq<Occurrence>, o: Occurrence, n: NodeId, at: nat, e: Entry)
    requires LastPush(log, n, at, e) && !Pushes(o, n)
    ensures LastPush(log + [o], n, at, e)
  {
    var log' := log + [o];
    assert forall x | at < x < |log'| :: if x < |log| then log'[x] == log[x] else log'[x] == o;
  }

  lemma PushesStay(j: Joint, t: Joint, o: Occurrence)
    requires PushesKept(j) && t.log == j.log + [o] && j.batch.Keys <= t.batch.Keys
    requires o.Arrived? ==> o.node in t.batch
    ensures PushesKept(t)
  {
    forall i, n | 0 <= i < |t.log| && Pushes(t.log[i], n) ensures FlushAfter(t.log, i) || n in t.batch {
      if i < |j.log| {
        assert Pushes(j.log[i], n);
        if FlushAfter(j.log, i) {
          var k :| i < k < |j.log| && j.log[k].FlushedAll?;
          assert t.log[k] == j.log[k];
        }
      }
    }
  }

  // ---- Each step but a flush --------------------------------------------------

  lemma PushKeeps(j: Joint, n: NodeId, e: Entry)
    requires Inv(j) && e.source.Subscription? && Typed(e.value)
    ensures Inv(Pushed(j, n, e))
  {
    var (t, o) := (Pushed(j, n, e), Arrived(n, e));
    PushesStay(j, t, o);
    forall k | k in t.bucket ensures HeldOk(t, k) {
      assert HeldOk(j, k);
      HeldStays(j.log, o, k, j.origin[k], Get(j.bucket, k).value);
    }
    forall k | k in t.batch ensures LastPush(t.log, k, t.pending[k], t.batch[k]) {
      if k != n { LastPushStays(j.log, o, k, j.pending[k], j.batch[k]); }
    }
  }

  lemma BatchStays(j: Joint, t: Joint, o: Occurrence)
    requires BatchOk(j) && t.log == j.log + [o] && !o.Arrived? && t.batch == j.batch && t.pending == j.pending
    ensures BatchOk(t)
  {
    forall k | k in t.batch ensures LastPush(t.log, k, t.pending[k], t.batch[k]) {
      LastPushStays(j.log, o, k, j.pending[k], j.batch[k]);
    }
  }

  lemma JustRead(log: seq<Occurrence>, n: NodeId, e: Entry)
    requires e.source.Live?
    ensures Held(log + [ReadLive(n, e)], n, |log|, e)
  {
  }

  lemma ReadKeepsHeld(j: Joint, n: NodeId, e: Entry, k: NodeId)
    requires BucketOk(j) && e.source.Live? && Typed(e.value) && k in Refreshed(j, n, e).bucket
    ensures HeldOk(Refreshed(j, n, e), k)
  {
    var stored := Put(j.bucket, n, e);
    if stored.Some? { PutThenGet(j.bucket, n, e); }
    if k == n && stored.Some? {
      JustRead(j.log, n, e);
    } else {
      assert HeldOk(j, k);
      HeldStays(j.log, ReadLive(n, e), k, j.origin[k], Get(j.bucket, k).value);
    }
  }

  lemma ReadKeeps(j: Joint, n: NodeId, e: Entry)
    requires Inv(j) && e.source.Live? && Typed(e.value)
    ensures Inv(Refreshed(j, n, e))
  {
    PushesStay(j, Refreshed(j, n, e), ReadLive(n, e));
    BatchStays(j, Refreshed(j, n, e), ReadLive(n, e));
    ReadKeepsBucket(j, n, e);
  }

  lemma ReadKeepsBucket(j: Joint, n: NodeId, e: Entry)
    requires BucketOk(j) && e.source.Live? && Typed(e.value)
    ensures BucketOk(Refreshed(j, n, e))
  {
    forall k | k in Refreshed(j, n, e).bucket ensures HeldOk(Refreshed(j, n, e), k) { ReadKeepsHeld(j, n, e, k); }
  }

  lemma WriteKeeps(j: Joint, n: NodeId)
    requires Inv(j)
    ensures Inv(Written(j, n))
  {
    PushesStay(j, Written(j, n), Wrote(n));
    BatchStays(j, Written(j, n), Wrote(n));
    WriteKeepsBucket(j, n);
  }

  lemma WriteKeepsBucket(j: Joint, n: NodeId)
    requires BucketOk(j)
    ensures BucketOk(Written(j, n))
  {
    var t := Written(j, n);
    forall k | k in t.bucket ensures HeldOk(t, k) {
      assert HeldOk(j, k) && Get(t.bucket, k) == Get(j.bucket, k);
      HeldStays(j.log, Wrote(n), k, j.origin[k], Get(j.bucket, k).value);
    }
  }

  // ---- Writing the batch out --------------------------------------------------

  /** What is found in the store afterwards. */
  lemma FlushThenGet(bucket: Bucket, batch: map<NodeId, Entry>, n: NodeId)
    requires n in batch ==> Typed(batch[n].value)
    ensures Get(FlushInto(bucket, batch), n)
            == if n in batch && OnDisk(batch[n]).Some? then Some(batch[n]) else Get(bucket, n)
  {
    if n in batch && OnDisk(batch[n]).Some? {
      PutThenGet(bucket, n, batch[n]);
    }
  }

  /** What comes through with it and had not before is a last push. */
  lemma LandedNow(log: seq<Occurrence>, n: NodeId, i: nat)
    requires Landed(log + [FlushedAll], n, i) && !Landed(log, n, i)
    ensures i < |log| && Pushes(log[i], n) && OnDisk(log[i].entry).Some? && !FlushAfter(log, i)
    ensures NoPush(log, n, i + 1, |log|)
  {
    var log' := log + [FlushedAll];
    assert forall x | 0 <= x < |log| :: log'[x] == log[x];
    var k :| i < k < |log'| && log'[k].FlushedAll? && NoPush(log', n, i + 1, k);
    assert k == |log|;
    assert forall k0 | i < k0 < |log| && log[k0].FlushedAll? :: NoPush(log, n, i + 1, k0);
  }

  /** Two last pushes are the same. */
  lemma OneLastPush(log: seq<Occurrence>, n: NodeId, at: nat, e: Entry, i: nat)
    requires LastPush(log, n, at, e) && i < |log| && Pushes(log[i], n) && NoPush(log, n, i + 1, |log|)
    ensures i == at
  {
    assert at > i ==> Pushes(log[at], n);
  }

  lemma HeldThroughFlush(log: seq<Occurrence>, n: NodeId, at: nat, e: Entry)
    requires Held(log, n, at, e)
    requires forall i | 0 <= i < |log| && Landed(log + [FlushedAll], n, i) :: Landed(log, n, i)
    ensures Held(log + [FlushedAll], n, at, e)
  {
    var log' := log + [FlushedAll];
    if e.source.Subscription? { LandedStays(log, FlushedAll, n, at); }
    assert forall w | at < w < |log'| :: if w < |log| then log'[w] == log[w] else log'[w] == FlushedAll;
  }

  lemma FlushKeepsOld(j: Joint, n: NodeId)
    requires Inv(j) && n in j.bucket && !(n in j.batch && OnDisk(j.batch[n]).Some?)
    ensures n in Flushed(j).bucket && n in Flushed(j).origin && HeldOk(Flushed(j), n)
  {
    assert HeldOk(j, n);
    FlushThenGet(j.bucket, j.batch, n);
    forall i | 0 <= i < |j.log| && Landed(j.log + [FlushedAll], n, i) ensures Landed(j.log, n, i) {
      if !Landed(j.log, n, i) {
        LandedNow(j.log, n, i);
        OneLastPush(j.log, n, j.pending[n], j.batch[n], i);
      }
    }
    HeldThroughFlush(j.log, n, j.origin[n], Get(j.bucket, n).value);
  }

  lemma JustLanded(log: seq<Occurrence>, n: NodeId, at: nat, e: Entry)
    requires LastPush(log, n, at, e) && OnDisk(e).Some?
    ensures Held(log + [FlushedAll], n, at, e)
  {
    var log' := log + [FlushedAll];
    assert forall x | 0 <= x < |log| :: log'[x] == log[x];
    assert log'[|log|].FlushedAll? && NoPush(log', n, at + 1, |log|);
    assert forall i | at < i < |log'| :: !Pushes(log'[i], n);
  }

  lemma FlushTakesIn(j: Joint, n: NodeId)
    requires BatchOk(j) && n in j.batch && OnDisk(j.batch[n]).Some?
    ensures n in Flushed(j).bucket && n in Flushed(j).origin && HeldOk(Flushed(j), n)
  {
    FlushThenGet(j.bucket, j.batch, n);
    JustLanded(j.log, n, j.pending[n], j.batch[n]);
  }

  lemma FlushKeepsPushes(j: Joint)
    ensures PushesKept(Flushed(j))
  {
    var log := Flushed(j).log;
    forall i, n | 0 <= i < |log| && Pushes(log[i], n) ensures FlushAfter(log, i) {
      assert log[|j.log|].FlushedAll?;
    }
  }

  lemma FlushKeys(j: Joint)
    requires j.origin.Keys == j.bucket.Keys && j.pending.Keys == j.batch.Keys
    ensures Flushed(j).origin.Keys == Flushed(j).bucket.Keys
  {
  }

  lemma FlushKeepsEach(j: Joint, n: NodeId)
    requires Inv(j) && n in Flushed(j).bucket
    ensures n in Flushed(j).origin && HeldOk(Flushed(j), n)
  {
    if n in j.batch && OnDisk(j.batch[n]).Some? { FlushTakesIn(j, n); } else { FlushKeepsOld(j, n); }
  }

  lemma FlushKeeps(j: Joint)
    requires Inv(j)
    ensures Inv(Flushed(j))
  {
    FlushKeys(j);
    FlushKeepsPushes(j);
    forall n | n in Flushed(j).bucket ensures HeldOk(Flushed(j), n) { FlushKeepsEach(j, n); }
  }

  /** What the store holds, decoded. */
  function Contents(bucket: Bucket): map<NodeId, Entry> {
    map n | n in bucket && Get(bucket, n).Some? :: Get(bucket, n).value
  }

  /** This is the pump's flush, whose puts fail for values without a tagged form. */
  lemma PumpFlushes(bucket: Bucket, batch: map<NodeId, Entry>)
    requires forall n | n in batch :: Typed(batch[n].value)
    ensures var failing := set n | n in batch && OnDisk(batch[n]).None?;
            Pump.Flushed(Pump.State(Contents(bucket), batch, map[], {}), failing).store
            == Contents(FlushInto(bucket, batch))
  {
    var failing := set n | n in batch && OnDisk(batch[n]).None?;
    var a := Pump.Flushed(Pump.State(Contents(bucket), batch, map[], {}), failing).store;
    var b := Contents(FlushInto(bucket, batch));
    forall n ensures Pump.At(a, n) == Pump.At(b, n) { FlushThenGet(bucket, batch, n); }
    Pump.SameEverywhere(a, b);
  }

  lemma StepKeeps(j: Joint, s: Step)
    requires Inv(j) && Enabled(j, s)
    ensures Inv(Apply(j, s))
  {
    match s
    case Manage(_) =>
    case Arrive(handle, value, at) =>
      var node := Pump.Lookup(j.sys.m, handle);
      if node.Some? && value.Some? {
        NormalizeKeepsTypes(value.value.value);
        PushKeeps(j, node.value, PushEntry(value.value, at));
      }
    case Flush => FlushKeeps(j);
    case Read(node, _, _, answer, at) =>
      NormalizeKeepsTypes(answer.value);
      ReadKeeps(j, node, LiveEntry(answer, at));
    case Write(node) => WriteKeeps(j, node);
  }

  lemma {:induction false} InvOverRuns(j: Joint, steps: seq<Step>, t: Joint)
    requires Inv(j) && Leads(j, steps, t)
    ensures Inv(t)
    decreases |steps|
  {
    if steps != [] {
      StepKeeps(j, steps[0]);
      InvOverRuns(Apply(j, steps[0]), steps[1..], t);
    }
  }

  lemma ReachedInv(j: Joint)
    requires Reached(j)
    ensures Inv(j)
  {
    var intents, steps :| Proofs.StoreOk(intents) && Leads(Start(intents), steps, j);
    InvOverRuns(Start(intents), steps, j);
  }

  // ---- When an old value is served --------------------------------------------

  /** A read is answered from the store with a value from before the last
      successful write exactly when the entry is tagged as pushed and no push of the
      node has come through since: whether anything still subscribes to the node
      makes no difference. */
  lemma OldValueIsServedIff(j: Joint, n: NodeId, maxAge: int, now: int)
    requires Reached(j)
    ensures Hit(j.bucket, n, maxAge, now).Some? && Outdated(j, n) <==> Tagged(j, n) && UnpushedSinceWrite(j, n)
  {
    ReachedInv(j);
    if n in j.bucket {
      assert HeldOk(j, n);
      OutdatedIff(j.log, n, j.origin[n], Get(j.bucket, n).value);
    }
  }

  lemma OutdatedIff(log: seq<Occurrence>, n: NodeId, at: nat, e: Entry)
    requires Held(log, n, at, e)
    ensures (exists w | 0 <= w < |log| :: at < w && log[w] == Wrote(n))
            <==> e.source.Subscription? && exists w: nat | w < |log| && log[w] == Wrote(n) :: NoneLanded(log, n, w)
  {
    if w :| 0 <= w < |log| && at < w && log[w] == Wrote(n) {
      assert NoneLanded(log, n, w);
    }
    if w: nat :| w < |log| && log[w] == Wrote(n) && NoneLanded(log, n, w) {
      assert e.source.Subscription? ==> at <= w;
      assert log[at] != log[w];
    }
  }

  // ---- How long it lasts ------------------------------------------------------

  lemma {:induction false} LogGrows(j: Joint, steps: seq<Step>, t: Joint)
    requires Leads(j, steps, t)
    ensures |j.log| <= |t.log| && t.log[..|j.log|] == j.log
    decreases |steps|
  {
    if steps != [] {
      var m := Apply(j, steps[0]);
      assert m.log[..|j.log|] == j.log;
      LogGrows(m, steps[1..], t);
      assert t.log[..|j.log|] == t.log[..|m.log|][..|j.log|];
    }
  }

  /** Nothing pushed for n from position `from` on. */
  predicate Unpushed(j: Joint, n: NodeId, from: nat) { forall i | from <= i < |j.log| :: !Pushes(j.log[i], n) }

  lemma StepSpares(j: Joint, s: Step, n: NodeId)
    requires Tagged(j, n) && n !in j.batch && Enabled(j, s) && Unpushed(Apply(j, s), n, |j.log|)
    ensures Get(Apply(j, s).bucket, n) == Get(j.bucket, n) && n !in Apply(j, s).batch
  {
    match s
    case Arrive(handle, value, at) =>
      var node := Pump.Lookup(j.sys.m, handle);
      if node.Some? && value.Some? {
        assert Apply(j, s).log[|j.log|] == Arrived(node.value, PushEntry(value.value, at));
      }
    case Flush => FlushThenGet(j.bucket, j.batch, n);
    case Read(node, _, _, answer, at) =>
      NormalizeKeepsTypes(answer.value);
      var e := LiveEntry(answer, at);
      if node != n && Put(j.bucket, node, e).Some? { PutThenGet(j.bucket, node, e); }
    case _ =>
  }

  /** An entry tagged as pushed outlives everything but the next push of its node:
      reads never refresh it and writes never remove it, subscription or not. */
  lemma {:induction false} OnlyAPushReplaces(j: Joint, steps: seq<Step>, t: Joint, n: NodeId, maxAge: int, now: int)
    requires Tagged(j, n) && n !in j.batch && Leads(j, steps, t) && Unpushed(t, n, |j.log|)
    ensures Get(t.bucket, n) == Get(j.bucket, n)
    ensures Hit(t.bucket, n, maxAge, now) == Some(ResultOf(n, Get(j.bucket, n).value, FromSubscription))
    decreases |steps|
  {
    if steps != [] {
      var m := Apply(j, steps[0]);
      LogGrows(m, steps[1..], t);
      LogGrows(j, [steps[0]], m) by { assert [steps[0]][1..] == []; }
      forall i | |j.log| <= i < |m.log| ensures !Pushes(m.log[i], n) { assert m.log[i] == t.log[i]; }
      StepSpares(j, steps[0], n);
      OnlyAPushReplaces(m, steps[1..], t, n, maxAge, now);
    }
  }

  // ---- It does happen ---------------------------------------------------------

  lemma {:induction false} ExtendRun(j: Joint, steps: seq<Step>, m: Joint, s: Step)
    requires Leads(j, steps, m) && Enabled(m, s)
    ensures Leads(j, steps + [s], Apply(m, s))
    decreases |steps|
  {
    if steps == [] {
      assert Leads(Apply(m, s), [s][1..], Apply(m, s));
      assert steps + [s] == [s];
    } else {
      assert (steps + [s])[1..] == steps[1..] + [s];
      ExtendRun(Apply(j, steps[0]), steps[1..], m, s);
    }
  }

  lemma Reach(j: Joint, s: Step) returns (t: Joint)
    requires Reached(j) && Enabled(j, s)
    ensures Reached(t) && t == Apply(j, s)
  {
    var intents, steps :| Proofs.StoreOk(intents) && Leads(Start(intents), steps, j);
    ExtendRun(Start(intents), steps, j, s);
    t := Apply(j, s);
  }

  const Granted := Reply(true, true, [Accepted(0)], true)

  /** The first subscription a process makes, to one node. */
  lemma FirstSubscription(n: NodeId)
    requires n.parses
    ensures var m := Subscribe(History.Initially(map[]).m, 0, [n], 100, 0, Granted).0;
            && Proofs.RoutingOk(m) && RoutesTo(m, 1, n)
            && m.subs == map[0 := Record(0, [n], 100, 0)] && m.groups.Keys == {100} && m.groups[100].refCount == 1
  {
    var m0 := History.Initially(map[]).m;
    var g := Group(0, map[1 := n], map[n := 1], map[n := 0], map[0 := 1]);
    History.InitiallyInvariant(map[]);
    Proofs.SubscribeKeeps(m0, 0, [n], 100, 0, Granted);
    assert [n][1..] == [] && ParsedPrefix([n]) == 1;
    assert Admit(EmptyGroup, [n], 0, Granted.results) == Admit(g, [], 1, []) == g;
    assert AcceptedNodes([n], Granted.results) == [n];
  }

  lemma Subscribed(n: NodeId) returns (j: Joint)
    requires n.parses
    ensures Reached(j)
    ensures j == Start(map[]).(sys := j.sys)
    ensures Pump.Lookup(j.sys.m, 1) == Some(n)
    ensures j.sys.m.subs == map[0 := Record(0, [n], 100, 0)] && j.sys.m.groups.Keys == {100}
    ensures j.sys.m.groups[100].refCount == 1
  {
    j := Start(map[]);
    assert Leads(j, [], j);
    FirstSubscription(n);
    j := Reach(j, Manage(Runs.DoSubscribe(0, [n], 100, 0, Granted)));
    Pump.LookupIs(j.sys.m, 1, Some(n));
  }

  /** The one subscription is given up: nothing is left of it. */
  lemma LastSubscription(m: Manager, n: NodeId)
    requires m.subs == map[0 := Record(0, [n], 100, 0)] && m.groups.Keys == {100} && m.groups[100].refCount == 1
    ensures var m' := Unsubscribe(m, 0, {}, true).value; m'.subs == map[] && m'.groups == map[]
  {
    var d := DropOne(m.groups[100], n);
    assert [n][1..] == [] && Drop(m.groups[100], [n]) == Drop(d, []) == d;
    assert m.groups - {100} == map[];
  }

  /** A value has been pushed and written out. */
  lemma PushedThrough(n: NodeId, v: DataValue) returns (j: Joint)
    requires n.parses && Typed(v.value) && OnDisk(PushEntry(v, 0)).Some?
    ensures Reached(j) && j.batch == map[] && j.log == [Arrived(n, PushEntry(v, 0)), FlushedAll]
    ensures j.origin == map[n := 0] && Get(j.bucket, n) == Some(PushEntry(v, 0))
    ensures j.sys.m.subs == map[0 := Record(0, [n], 100, 0)] && j.sys.m.groups.Keys == {100}
    ensures j.sys.m.groups[100].refCount == 1
  {
    var e := PushEntry(v, 0);
    NormalizeKeepsTypes(v.value);
    j := Subscribed(n);
    j := Reach(j, Arrive(1, Some(v), 0));
    assert j == Pushed(Start(map[]).(sys := j.sys), n, e);
    FlushThenGet(j.bucket, j.batch, n);
    j := Reach(j, Flush);
  }

  /** A node is subscribed to, a value pushed, the subscription given up, and a value
      written: whoever reads the node is given the pushed value still, however fresh
      he wants it, although nothing subscribes to the node any more. */
  lemma OldValueAfterUnsubscribe(n: NodeId, was: int) returns (j: Joint)
    requires n.parses && Low(Int32) <= was <= High(Int32)
    ensures Reached(j) && j.sys.m.subs == map[] && j.sys.m.groups == map[] && j.batch == map[]
    ensures Tagged(j, n) && Outdated(j, n)
    ensures forall maxAge, now ::
              Hit(j.bucket, n, maxAge, now).Some? && Hit(j.bucket, n, maxAge, now).value.value == Int(Int32, was)
  {
    j := PushedThrough(n, DataValue(Int(Int32, was), 0, 0, 0));
    LastSubscription(j.sys.m, n);
    j := Reach(j, Manage(Runs.DoUnsubscribe(0, {}, true)));
    assert Spared(j.bucket, n);
    j := Reach(j, Write(n));
    assert j.log[2] == Wrote(n);
  }
}
