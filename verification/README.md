# A verified model of an OPC-UA MCP server's core

The server keeps one OPC-UA connection alive, reads and writes through it, caches
what it reads, keeps subscriptions running across reconnects, walks the address
space into a searchable cache, and counts its tool calls. This project models those
parts and proves what they keep, in every interleaving where they are concurrent and
over every history where they are not.

| files | what they model |
|---|---|
| `Connection`, `ConnectionProofs`, `ConnectionSafety` | the generation-stamped connect, recover, disconnect and write protocol as a labelled transition system, its invariant, and what follows from it |
| `Watcher`, `WatcherUndo`, `Forwarding` | the reconnect watcher's event loop, the protocol and the watcher together after a Disconnect, and the states on their way between them |
| `Client` | the `Client` methods as they update its fields, each critical section tied to the protocol step it is |
| `BatchRead`, `ReadRecovery` | the batched read and its node-by-node fallback, and what session recovery makes of its outcome |
| `Subscriptions`, `SubscriptionProofs`, `SubscriptionRuns`, `SubscriptionHistory`, `SubscriptionRestore`, `SubscriptionReturn`, `SubscriptionRouting`, `SubscriptionReports` | the subscription manager's critical sections as functions on its state, the invariant, histories with any number of concurrent restores, what a restore brings back, when an Unsubscribe is final, what begins and ceases to route, and what a Subscribe reports |
| `SubscriptionManager`, `NotificationPump` | the manager, its interval groups and the pump as objects updated in place, proved to compute those functions |
| `Discovery`, `DiscoveryProofs`, `DiscoveryLimits`, `DiscoveryService` | the depth-limited walk, the sweep and the index; what the walk finds, and follows within its limits; the service in place |
| `Values`, `CachingClient` | normalising, the tagged form on disk, and the cache in front of reads and writes |
| `StaleReads` | manager, pump, store, reads and writes over one history: when an old value is served |
| `Aggregator`, `SnapshotReports` | telemetry counters under non-atomic snapshots, and what a snapshot reports |
| `WriteConversion` | validating and converting a value to be written, with Go's fixed widths |
| `Sums`, `Wrappers` | sums over finite maps, used by the counting arguments; a value that may be missing |

Where the code is concurrent, one transition is one critical section, one atomic
operation, one request or one dial; the server, the dialer, the store and the
scheduler do whatever the labels say. Where the code changes objects in place, the
model is a class whose methods are proved equal to the functions the histories are
made of.

## Where the code and its documentation part

- `internal/opcua/client.go:288-290` and the release notes (`README.md:270-271`) say
  that a user's disconnect stays disconnected. Session recovery does respect it
  (`DisconnectIsNotRecovered`). The watcher can still undo it, in two ways: a `Closed`
  that passed `stateForwarder`'s check just before the retirement is delivered
  afterwards (`DisconnectRace`); or the watcher fired before, and its callback was
  waiting for `connectMu` while the Disconnect held it (`RebuildRace`). In every state
  after a Disconnect the connection can come back by itself exactly when the states
  past the check are enough to fire or such a callback waits, and no user's connect has
  the lock anyway (`WatcherUndoesDisconnectIff`).
- `internal/opcua/value_convert.go:26-28` lists values that pass unchanged. A finite
  float32 does not: the code returns it as a float64 (`Float32Changes`); nor does a
  decoded extension object, which is replaced by its payload. Of the listed values
  those are the only ones (`SafeValuesPassIff`), and `PassesUnchangedIff` says of every
  value whether it passes.
- `internal/opcua/caching_client.go:303-306` spares a written node's entry while the
  node is subscribed, since the next push corrects it. The code looks at the entry's
  tag only, which outlives the subscription: after an Unsubscribe and a write the old
  value is served however fresh a value is asked for (`OldValueAfterUnsubscribe`), and
  only a push of that node ever replaces it (`OnlyAPushReplaces`).
  `OldValueIsServedIff` says exactly when a read is answered with a value from before
  the last write.
- `internal/opcua/client.go:430-432` has a stale session returned rather than masked by
  bad statuses. That holds of the batch request only: a session that goes stale while
  the nodes are read one by one shows up as bad results in a read that succeeds
  (`StaleIsHidden`), and that read never recovers it (`HiddenStaleIsNeverRecovered`).
  `StaleIsReportedIff` says exactly when it is reported, and `StaleIsRecoveredIff` when
  recovery starts.
- A restore is to restore every persisted intent (`internal/opcua/subscription.go:152-156`).
  One that is only partly accepted writes the shorter node list back as the
  intent (`ShortenedIntent`; `RestoreShortensIff` says exactly when).
- An Unsubscribe is undone by a restore that had listed the intent before it was
  deleted: two overlapping restores are enough (`RestoreUndoesUnsubscribe`). It is
  final exactly when no restore under way has the intent on its list
  (`UnsubscribeIsFinalIff`).
- Unsubscribe removes the routes of the nodes it drops, but only of the handle the
  reverse map names for each (`internal/opcua/subscription.go:300-302`): of a node
  requested twice the first handle goes on routing (`TwiceNamedStaysRouted`). It leaves
  nothing routed exactly when its group goes with it or there is no such handle
  (`UnroutesAllIff`).
- A telemetry snapshot reads the total and the tools one after the other
  (`internal/telemetry/aggregator.go:117-135`), so one that is taken at rest can still
  report calls of tools without counting them in its total, which an earlier snapshot
  has reported (`TotalsOutOfBalance`). The two agree exactly when what all earlier
  snapshots reported is in balance (`TotalIsSumIff`).
- `internal/opcua/discovery.go:204-207` describes the sweep as removing from both the
  cache and the index. A node swept while its batch fails stays indexed though later
  batches work (`SweptButIndexed`); the next walk is sure to repair the index
  exactly when nothing is indexed that is not cached (`IndexInStepIff`), and no failing
  batch does lasting harm exactly while there is nothing to sweep
  (`FailuresAreHarmlessIff`).

## Model

| member | source | states |
|---|---|---|
| ConnectionProofs.InvariantOverRuns | internal/opcua/client.go:97-130 | Any run from an invariant state ends in one: `connGen` equals `clientGen`, or is one ahead during a dial; a connected client publishes the connection dialed with `clientGen`; each generation yields at most one connection; every connection is live, in the hands of the lock holder, or closed |
| ConnectionProofs.StepPreserves | internal/opcua/session_recovery.go:47-88 | One step of one call, with any number of others at any point, keeps that invariant |
| ConnectionSafety.RecoveryHitsFailedConnection | internal/opcua/session_recovery.go:47-59 | Recovery about to dial is about to replace the very connection its caller's last attempt failed on, which is still published and not closed: a newer healthy connection is never replaced |
| ConnectionSafety.OneRecoveryDialPerGeneration | internal/opcua/session_recovery.go:43-58 | However many calls fail on one generation, recovery dials for it at most once, whether or not the dial succeeds |
| ConnectionSafety.AttemptsAreBounded | internal/opcua/session_recovery.go:75-88 | A read-only operation makes at most two attempts, the second only after a stale first; a write or a probe at most one |
| ConnectionSafety.EveryRetiredConnectionIsClosed | internal/opcua/client.go:122-129 | A connected client's connection was never closed; with `connectMu` free, a connection ever dialed has been closed exactly when it is not the live one |
| ConnectionSafety.NoTransientDisconnect | internal/opcua/client.go:101-104 | Once connected, in a run with no Disconnect and no failed dial every snapshot finds a connection, however many reconnects go on |
| ConnectionSafety.DisconnectIsNotRecovered | internal/opcua/session_recovery.go:43-56 | From the step of a Disconnect that retires the connection, as long as neither Connect nor EnsureConnected nor the watcher's callback starts a dial, nothing is dialed, whatever generation any recovery has read |
| ConnectionSafety.GenerationsOnlyGrow | internal/opcua/client.go:105-106 | Over any run `connGen` never decreases and a connection keeps the generation it was dialed with |
| ConnectionSafety.RetiredStatesAreDropped | internal/opcua/client.go:156-167 | Once a connection is being closed or has been, no state it reports is forwarded in any later state of any run |
| Forwarding.ReportIsTakenIff | internal/opcua/client.go:160-167 | A reported state is taken if and only if its generation is the current one, a dial of which may still be under way; nothing else changes |
| Forwarding.StatesAreConserved | internal/opcua/client.go:160-167 | Over every run, as multisets: the states reported by the generation current at the time, no more and no less, are in flight, in the channel, or received |
| Forwarding.StatesKeepTheirOrder | internal/opcua/reconnect_watcher.go:58-62 | Over every run the watcher receives the states in the order they were sent, all but those still in the channel |
| Forwarding.FiringsFromTheStart | internal/opcua/reconnect_watcher.go:58-74 | Over every run from the start the watcher has fired once for each Closed it received with a Connected since its last firing |
| Forwarding.DeathIsNoticed | internal/opcua/reconnect_watcher.go:62-74 | After a generation, a reconnect's included, has reported Connected and later, while current, Closed, the watcher has all it needs to fire, or its callback has been started and has not dialed yet |
| Forwarding.NoticedDeathFires | internal/opcua/reconnect_watcher.go:58-74 | An idle watcher that has all it needs can go on to fire |
| Watcher.Watch | internal/opcua/reconnect_watcher.go:55-79 | The loop fires exactly at each Closed with a Connected since its last firing, in order |
| Watcher.WatcherFiresIff | internal/opcua/reconnect_watcher.go:58-74 | After a Disconnect an idle watcher can fire, with no dial but recovery's before, if and only if the states already past the generation check are enough |
| WatcherUndo.WatcherUndoesDisconnectIff | internal/opcua/client.go:288-306 | In any reachable state after a Disconnect, some run without a user's dial (the watcher's callback running freely) connects again if and only if the states past the generation check are enough to fire or an earlier callback waits to dial, and no user's connect holds `connectMu` |
| WatcherUndo.DisconnectRetires | internal/opcua/client.go:291-306 | Every state from a Disconnect's retirement to the next dial that is not recovery's is one of those |
| WatcherUndo.DisconnectRace | internal/opcua/client.go:160-167 | A run from the start to a state after a Disconnect in which a Closed past the check can still make the watcher reconnect |
| WatcherUndo.RebuildRace | internal/opcua/reconnect_watcher.go:64-72 | A run to a state after a complete Disconnect in which no state is left to deliver, and the callback of an earlier firing still reconnects |
| Watcher.NeverFires | internal/opcua/reconnect_watcher.go:58-74 | From a disconnected state without such states pending, no run in which only recovery may dial makes the watcher fire |
| Client.Client.ConnectLocked | internal/opcua/client.go:105-130 | In one undisturbed call: generation up by one and published with the dial's outcome, the previous connection closed whether or not the dial succeeds, the object in the state the protocol's steps lead to |
| Client.Client.Connect | internal/opcua/client.go:91-95 | The same under `connectMu`, which is free again afterwards |
| Client.Client.Disconnect | internal/opcua/client.go:291-306 | Unconnected under a fresh generation, the connection still pointed at but closed, `Close` called exactly if it was live |
| Client.Client.RecoverConnection | internal/opcua/session_recovery.go:47-73 | Dials exactly when the failed generation is still current and connected; success without dialing when it was already replaced; failure, and nothing changed, when disconnected |
| Client.Client.WithSessionRecovery | internal/opcua/session_recovery.go:78-88 | How many attempts are made, when the call succeeds, and that a stale first attempt replaces and closes the connection |
| Client.Client.SendWrite | internal/opcua/session_recovery.go:141-163 | One request at most, reported applied exactly if the server took that one; a stale answer replaces the connection without a second request |
| Client.Client.EnsureConnected | internal/opcua/session_recovery.go:189-208 | Reports what it had to do; keeps a healthy connection, otherwise publishes the dial's outcome and closes what was there |
| BatchRead.ReadNodes | internal/opcua/client.go:390-445 | Computes the read outcome the lemmas speak of, with one request, one more per node when falling back, and none when it fails before asking |
| BatchRead.FailuresIff | internal/opcua/client.go:390-445 | Each of the four failures is reported if and only if its own cause is there; success in exactly the other cases |
| BatchRead.GoodBatchesPass | internal/opcua/client.go:440-445 | A batch the server answers is passed on value by value, in its order |
| BatchRead.BadNodesCostThemselves | internal/opcua/client.go:461-465 | When falling back there is one result per node, bad if and only if that node alone could not be read, and else the first value its own read gave |
| BatchRead.StaleIsReportedIff | internal/opcua/client.go:430-437 | Told by the server that the session is stale, a read reports it if and only if the batch request was the one told; otherwise it succeeds with that node bad |
| BatchRead.StaleIsHidden | internal/opcua/client.go:479-493 | Two nodes whose single reads find the session stale: the read succeeds with two bad results |
| BatchRead.ReadIndividually | internal/opcua/client.go:466-495 | Each node's own answer or a bad status, in order; a pause exactly before the first node and after each failed one |
| ReadRecovery.StaleIsRecoveredIff | internal/opcua/session_recovery.go:78-88 | A read on its first attempt, told by the server that the session is stale, goes on to replace the connection if and only if the batch request was the one told; otherwise the call is over and counts as a success |
| ReadRecovery.HiddenStaleIsNeverRecovered | internal/opcua/client.go:466-495 | In every interleaving after a read whose session went stale during the fallback, that call starts no recovery |
| SubscriptionProofs.SubscribeKeeps | internal/opcua/subscription.go:210-281 | Every outcome of a Subscribe, partial and failed ones included, keeps the manager's invariant |
| SubscriptionProofs.UnsubscribeKeeps | internal/opcua/subscription.go:285-326 | So does every Unsubscribe, whatever items the server actually removes |
| SubscriptionProofs.AdmitCovers | internal/opcua/subscription.go:248-261 | Taking in the server's answer adds, for each node, exactly as many routed and monitored handles as it accepted items for it, despite the overwritten reverse maps |
| SubscriptionProofs.ReleaseCosts | internal/opcua/subscription.go:294-311 | Dropping a record's nodes costs a node at most the one handle the reverse map names, and a node not in the record nothing |
| SubscriptionRouting.AdmitRoutes | internal/opcua/subscription.go:250-261 | Exactly the handles of the accepted requests begin to route, each to the node it was requested for; the others route as before |
| SubscriptionRouting.AdmitNames | internal/opcua/subscription.go:258-260 | The reverse maps name, for each node, the handle and the item of its last accepted request |
| SubscriptionRouting.AdmitItems | internal/opcua/subscription.go:244-261 | Exactly the accepted items are monitored in addition |
| SubscriptionRouting.ReleasedExactly | internal/opcua/subscription.go:294-312 | Dropping a record's nodes ends the routes of exactly the handles the reverse maps name for them, clears exactly their reverse entries, and costs exactly the items the server was asked for and removed |
| SubscriptionRouting.UnsubscribeGroups | internal/opcua/subscription.go:285-326 | What becomes of every group, record, intent and handle in an Unsubscribe: the group is gone exactly when it loses its last reference |
| SubscriptionRouting.UnsubscribeEndsRouting | internal/opcua/subscription.go:300-302 | The handle an unsubscribed node was known by routes nowhere afterwards |
| SubscriptionRouting.RoutingStaysEnded | internal/opcua/subscription.go:300-302 | In no later state of any history does it route again |
| SubscriptionRouting.UnroutesAllIff | internal/opcua/subscription.go:294-318 | An Unsubscribe leaves nothing at its interval routed to the record's nodes if and only if the group goes with it or every handle routed to one of them is the one its reverse map names |
| SubscriptionRouting.TwiceNamedStaysRouted | internal/opcua/subscription.go:258-260 | A history from the start in which a node requested twice stays routed after its only subscription is given up |
| SubscriptionRouting.RoutedIffNamed | internal/opcua/subscription.go:210-326 | Over every history in which no node is requested twice at one interval, a node is routed at an interval if and only if a live record there names it |
| SubscriptionRouting.UnnamedNodesAreSilent | internal/opcua/subscription.go:400-411 | In such histories no notification item updates a node that no live record names |
| SubscriptionProofs.AdmitKeeps | internal/opcua/subscription.go:250-260 | Old handles keep their route; a new one lies in the range issued for this call and routes to the node it was requested for |
| SubscriptionProofs.IssueAll | internal/opcua/subscription.go:232-240 | A call issues exactly the handles after the last one, one per node that parses up to the first that does not, each for its node |
| SubscriptionRuns.RunKeeps | internal/opcua/subscription.go:193-326 | The invariant (routing, coverage, reference counts, store) holds over every interleaving of Subscribe, Unsubscribe and any number of restores |
| SubscriptionRuns.HeldNodesAreCovered | internal/opcua/subscription.go:285-326 | After any history, lost sessions included, for a node a live record names in a group opened since the last loss there are at least as many handles routed to it with a live monitored item as live records name it: unsubscribing one subscription never silences another |
| SubscriptionRuns.GroupsOutliveTheirRecords | internal/opcua/subscription.go:312-318 | After any history the reference count is at least the number of records at the interval, and an interval without a group has no records |
| SubscriptionRuns.SubscribeOutcome | internal/opcua/subscription.go:214-281 | A Subscribe is taken in if and only if there is or can be a group, every node parses, Monitor works and at least one node is accepted; then, and only then, are the accepted nodes recorded, and persisted if the store works |
| SubscriptionReports.OutcomesIff | internal/opcua/subscription.go:210-281 | Each of the six outcomes of a Subscribe if and only if its own cause is there, a bad node being the first |
| SubscriptionReports.WhatIsLeft | internal/opcua/subscription.go:214-266 | How many handles a Subscribe uses up, when its group is there afterwards, and that no other changes |
| SubscriptionReports.AcceptedInPlace | internal/opcua/subscription.go:248-261 | The accepted nodes are those of the accepted results, in their order |
| SubscriptionReports.RejectedInPlace | internal/opcua/subscription.go:253-257 | The rejected nodes are those of the rejected results, in their order, each with its own status |
| SubscriptionRuns.SubscribeExactIff | internal/opcua/subscription.go:268-270 | A Subscribe keeps reference counts equal to record counts if and only if it is not taken in or its id is not yet on record |
| SubscriptionRuns.UnsubscribeExact | internal/opcua/subscription.go:289-322 | An Unsubscribe keeps equal counts equal |
| SubscriptionRuns.OrderlyCountsAreExact | internal/opcua/subscription.go:193-200 | In runs with no Subscribe and no second restore inside a restore, reference counts equal record counts throughout |
| SubscriptionHistory.InitiallyInvariant | internal/opcua/subscription.go:109-125 | The manager a process starts with, over any well-formed store, satisfies every invariant |
| SubscriptionHistory.LookupIsUnambiguous | internal/opcua/subscription.go:421-428 | At most one group holds a handle, so a lookup does not depend on map iteration order |
| SubscriptionHistory.HandlesStandForOneNode | internal/opcua/subscription.go:238-258 | Over any history a handle once issued routes to the one node it was issued for or nowhere, and never again once it has stopped |
| SubscriptionHistory.RestoreRetiresHandles | internal/opcua/subscription.go:193-200 | A handle issued before a restore never routes from its reset onwards |
| SubscriptionRestore.RestoreLosesNoIntent | internal/opcua/subscription.go:157-200 | With any server and store and no call in between: the persisted ids are unchanged; each intent is taken in if and only if it gets a group, Monitor works and some node is accepted; then with exactly the accepted nodes, persisted so if the put works, and otherwise it is left as it was; to an intent the server grants a group, the others make no difference |
| SubscriptionRestore.OpeningsAreByReply | internal/opcua/subscription.go:214-266 | Whether an intent gets a group, told from the replies alone: the server grants it one, or an earlier intent of its interval got one and that was not dropped again for want of an accepted node |
| SubscriptionRestore.RestoreShortensIff | internal/opcua/subscription.go:268-278 | A restore changes a persisted intent if and only if it gets a group, Monitor and the put work, and some but not all of its nodes are accepted |
| SubscriptionRestore.ShortenedIntent | internal/opcua/subscription.go:268-278 | An intent of two nodes that a restore leaves persisted with one |
| SubscriptionRestore.FaithfulRestore | internal/opcua/subscription.go:157-200 | With an accepting server and a working store the records equal the persisted intents, which are unchanged |
| SubscriptionHistory.RecordsArePersisted | internal/opcua/subscription.go:268-278 | While puts succeed, every record on hand is persisted in the same words, in every interleaving |
| SubscriptionReturn.GoneStaysGone | internal/opcua/subscription.go:321-325 | A subscription on no record, in no intent and on no restore's list never comes back |
| SubscriptionReturn.UnsubscribeSticks | internal/opcua/subscription.go:285-326 | After an Unsubscribe that deletes the intent while no restore has it on its list, the subscription is gone for good |
| SubscriptionReturn.UnsubscribeIsFinalIff | internal/opcua/subscription.go:157-200 | In every history from the start: after such an Unsubscribe the subscription can come back only if some restore under way has its intent on the list, and if one has, and handles last, it can |
| SubscriptionReturn.RestoreUndoesUnsubscribe | internal/opcua/subscription.go:193-200 | A history from the start in which one of two overlapping restores takes an intent in, the user unsubscribes, and the other brings it back |
| SubscriptionReturn.RestoreReaches | internal/opcua/subscription.go:163-167 | A restore can go on to every intent on its list and take it in, whatever became of the ones before |
| SubscriptionHistory.NothingSilentlyDropped | internal/opcua/subscription.go:202-205 | Each node the server answered for is reported accepted or rejected, exactly as often as it was asked for |
| SubscriptionManager.IntervalGroup.TakeIn | internal/opcua/subscription.go:248-261 | The result loop, updating the group's three maps in place, computes the admission function and the accepted and rejected lists |
| SubscriptionManager.IntervalGroup.Release | internal/opcua/subscription.go:294-312 | The node loop of Unsubscribe, in place, computes the release function on the group |
| SubscriptionManager.SubscriptionManager.Subscribe | internal/opcua/subscription.go:210-281 | In place, on every path, the state and outcome the histories' Subscribe has, and the rejected nodes |
| SubscriptionManager.SubscriptionManager.Unsubscribe | internal/opcua/subscription.go:285-326 | In place, the state the histories' Unsubscribe has; unknown ids change nothing |
| SubscriptionManager.SubscriptionManager.RestoreFromIntent | internal/opcua/subscription.go:193-200 | The reset and the loop over the intents, failures skipped, compute the restore the lemmas speak of |
| SubscriptionManager.SubscriptionManager.LookupNodeID | internal/opcua/subscription.go:421-428 | Searching the groups in any order finds a route if there is one |
| NotificationPump.Pump.Flush | internal/opcua/subscription.go:357-367 | In any order, every pending value is written but those whose put fails, and nothing else changes |
| NotificationPump.Pump.HandleNotification | internal/opcua/subscription.go:385-413 | The batch it is given, with each routed item that has a value written in order; errors and other notifications change nothing |
| NotificationPump.Pump.Step | internal/opcua/subscription.go:369-382 | One turn in place is one turn of the loop the lemmas speak of, under the routing of that turn |
| NotificationPump.LoopIsInvisible | internal/opcua/subscription.go:350-383 | At the end of every run, the routing changing between turns at will: the store under the batch is what writing each routed update at once would have made it, except at nodes one of whose puts failed; the batch is empty or below `BatchMaxItems`; after a stop the store alone is so |
| NotificationPump.NothingIsLost | internal/opcua/subscription.go:357-382 | When no put fails, the store a stopped pump leaves is exactly what writing each update at once would have made it |
| NotificationPump.TurnKeeps | internal/opcua/subscription.go:369-382 | The same of one turn, under the routing of its moment |
| NotificationPump.UpdateIff | internal/opcua/subscription.go:399-411 | An item updates a node if and only if it has a value and its handle routes there, and with that value |
| NotificationPump.TurnShows | internal/opcua/subscription.go:369-375 | After a notification a reader of the store under the batch finds for each node whose put does not fail the value of the last item that brings one, or what was there before |
| NotificationPump.StoreWaits | internal/opcua/subscription.go:369-375 | Nothing is written before the batch is full or the window over |
| NotificationPump.Pump.Run | internal/opcua/subscription.go:350-383 | The loop in place, over a stretch with the routing at rest, is a stretch of the loop the lemmas speak of, and stops at its first stop |
| DiscoveryProofs.WalkIsExact | internal/opcua/discovery.go:172-318 | On a finite graph, cycles included, with no browse failures, room for every out-degree and a depth limit of at least the node count less one, the cache afterwards holds exactly the nodes reachable by one or more edges |
| DiscoveryProofs.WalkExplores | internal/opcua/discovery.go:237-246 | The depth test never stops the walk short of a node it has not visited: there are at least as many visited nodes as the depth |
| DiscoveryProofs.WalkIsSound | internal/opcua/discovery.go:237-318 | Under any limits and failures: each entry of this walk has a browsed path of its depth, its parent is the predecessor on it and its names are those of the reference it was found by, one of the first `MaxNodesPerBrowse`; each node is browsed once, a failed critical one twice; no key is lost during the walk |
| DiscoveryProofs.WalkCounts | internal/opcua/discovery.go:243-316 | The same two counts for any part of a walk |
| DiscoveryProofs.WalkGrows | internal/opcua/discovery.go:188-196 | At every point of a walk the cache has lost no key and no entry of the walk |
| DiscoveryLimits.FirstReferencesAreFollowed | internal/opcua/discovery.go:271-301 | Of every node a walk browses, each of the first `MaxNodesPerBrowse` references the server answers with is cached afterwards, whatever else fails |
| DiscoveryLimits.FoundNodesAreBrowsed | internal/opcua/discovery.go:237-261 | A walk browses the root, every node it caches above the depth limit, and no node it has not found |
| DiscoveryLimits.ReportsWhatItFollows | internal/opcua/discovery.go:273-316 | `discovered` is the sum over the browsed nodes of the out-degree the server answers with, cut off at `MaxNodesPerBrowse` |
| DiscoveryLimits.LimitOfOne | internal/opcua/discovery.go:275-280 | A node with two references and a limit of one: the first is cached |
| DiscoveryProofs.SweptNodes | internal/opcua/discovery.go:204-217 | What the sweep removes are exactly the nodes cached before the walk that it did not see |
| DiscoveryProofs.IndexAfterWalk | internal/opcua/discovery.go:323-359 | After a successful batch the index holds exactly the cached nodes, as they are cached, and whatever was indexed without having been cached |
| DiscoveryProofs.IndexAfterAnyWalk | internal/opcua/discovery.go:172-230 | What any round leaves of the index, the generation and, unconnected, of everything, also when the batch refuses some nodes |
| DiscoveryProofs.DocumentsTell | internal/opcua/discovery.go:337-345 | Two documents are the same if and only if names, parent and depth are |
| DiscoveryProofs.InStepAfterWalkIff | internal/opcua/discovery.go:222-228 | Index and cache agree after a walk whose batch works if and only if everything indexed before was cached before or is now |
| DiscoveryProofs.IndexInStepIff | internal/opcua/discovery.go:204-228 | The next walk whose batch works brings the index in step, whatever it finds, if and only if nothing is indexed that is not cached |
| DiscoveryProofs.FailedBatchIff | internal/opcua/discovery.go:354-357 | A failed batch leaves the index as it was, and the next walk repairs an index that was in step if and only if the failed one swept nothing |
| DiscoveryProofs.FailuresAreHarmlessIff | internal/opcua/discovery.go:354-357 | From an index in step, every failing batch is repaired by the next walk if and only if nothing is cached |
| DiscoveryProofs.SweptButIndexed | internal/opcua/discovery.go:204-228 | Three walks, the second swept the only node with a failing batch, the third succeeds, and the node is still indexed |
| DiscoveryProofs.RoundsKeepIndexInStep | internal/opcua/discovery.go:172-230 | Over any sequence of walks every entry carries the current generation, and an index in step stays so while batches succeed |
| DiscoveryProofs.OrphansStay | internal/opcua/discovery.go:345-352 | An indexed node that is not cached stays indexed until some walk finds it again |
| DiscoveryService.DiscoveryService.DiscoverNodeRecursive | internal/opcua/discovery.go:237-318 | The recursion over the shared cache and visited set computes the walk the lemmas speak of, with its count |
| DiscoveryService.DiscoveryService.Sweep | internal/opcua/discovery.go:208-217 | In place, leaves exactly this generation's entries and returns the others' keys |
| DiscoveryService.DiscoveryService.UpdateSearchIndex | internal/opcua/discovery.go:323-359 | All additions and deletions go in together or, when the batch fails, not at all |
| DiscoveryService.DiscoveryService.DiscoverNodes | internal/opcua/discovery.go:172-230 | The whole walk, sweep and index update on the object's own fields is one round of the model |
| DiscoveryService.DiscoveryService.ConvertSearchResults | internal/opcua/discovery.go:473-485 | The cached nodes among the hits, in order: never a node that is not cached |
| DiscoveryService.CachedKeepsOrder | internal/opcua/discovery.go:478-484 | Every cached hit and no other has its place among the results, in the order of the hits |
| Values.NormalizeIsIdempotent | internal/opcua/value_convert.go:29-99 | Normalising twice is normalising once, and leaves no non-finite float or wrapper at any depth |
| Values.NormalizeRendersIff | internal/opcua/value_convert.go:29-99 | The normalised value is the one, and the only one, that says what the raw value says: numbers as numbers, non-finite floats by their names, wrappers by their texts, an undecoded object by its description, arrays element by element |
| Values.ElementsKeepTheirPlaces | internal/opcua/value_convert.go:79-85 | A typed slice becomes an array of the same length, each element normalised in its place |
| Values.PassesUnchangedIff | internal/opcua/value_convert.go:29-58 | Normalising leaves a value as it is if and only if it is normal at every depth |
| Values.SafeValuesPassIff | internal/opcua/value_convert.go:26-28 | Of the values listed as passing unchanged, exactly the float32 and the extension objects do not |
| Values.Float32Changes | internal/opcua/value_convert.go:33-34 | Every finite float32 becomes a float64 |
| Values.NullsComeFromNulls | internal/opcua/value_convert.go:85-99 | Only a null or a nil extension object becomes a null |
| Values.EncodesIff | internal/store/value_encoding.go:15-66 | A normalised value is encoded if and only if it has no null or opaque leaf at any depth |
| Values.RoundTrip | internal/store/value_encoding.go:69-126 | What was encoded is decoded to the same value with the same kinds, integers through their decimal text |
| Values.DecodedIsTyped | internal/store/value_encoding.go:69-126 | Whatever is on disk, a decoded value fits its types |
| Values.ParsePrintInt | internal/store/value_encoding.go:60-66 | Every integer's decimal text reads back as that integer |
| Values.StoredReadsComeBack | internal/opcua/value_convert.go:76-78 | Any server value, once normalised, is storable under exactly that condition and then comes back unchanged |
| CachingClient.CachingClient.Read | internal/opcua/caching_client.go:84-141 | One result per requested node, in order, for any mix of hits, misses and repeats: each tells, value, status and times, what the server answered for its node or what the entry says; which live answers enter the store and the history; and every result from the cache is what an earlier live read told at most `maxAge` ago with no effective write since |
| CachingClient.CachingClient.ReadLive | internal/opcua/caching_client.go:145-183 | All live results in order, each telling what the server answered for its node, or an error and nothing stored |
| CachingClient.CachingClient.Write | internal/opcua/caching_client.go:307-329 | A failed write changes nothing; a successful one removes the node's entry unless the entry is tagged as pushed, whoever still subscribes to the node, or the store fails |
| CachingClient.CachingClient.Push | internal/opcua/subscription.go:361-365 | A pushed value replaces the entry if it has a tagged form and the put works, changes nothing otherwise, and keeps every other entry backed |
| CachingClient.HitIsBacked | internal/opcua/caching_client.go:113-116 | In any state whose live entries are backed, an answer marked as from the cache is fresh enough and backed by the history |
| CachingClient.AnsweredIff | internal/opcua/caching_client.go:84-129 | A position is answered from the store if and only if caching is on, the store can be read, and its entry was pushed or is live and fresh enough |
| CachingClient.LastAnswerIsFound | internal/opcua/caching_client.go:155-180 | After a batch of live answers a node's entry is the last of its answers that could be stored |
| CachingClient.OthersAreFoundAsBefore | internal/opcua/caching_client.go:155-180 | And what it was before for a node without one |
| CachingClient.InvalidatesExactly | internal/opcua/caching_client.go:316-327 | Invalidation removes the node's entry unless it was pushed, and no other |
| CachingClient.CoherentWhenInvalidationsWork | internal/opcua/caching_client.go:303-329 | While invalidations have worked, backed means no successful write to the node since the read |
| CachingClient.PutThenGet | internal/store/value_encoding.go:69-126 | An entry the store takes is got back whole, and no other node's entry changes |
| CachingClient.MissesShape | internal/opcua/caching_client.go:91-130 | The positions left for the live read are exactly the misses, in order, without repetition |
| StaleReads.OldValueIsServedIff | internal/opcua/caching_client.go:307-329 | Over every joint history with a working store: a node is served from the store with a value from before the last successful write to it if and only if its entry is tagged as pushed and no push of it has come through to the store since that write |
| StaleReads.OldValueAfterUnsubscribe | internal/opcua/subscription.go:285-326 | A history from the start: subscribe, push, unsubscribe, write; nothing subscribes to the node any more and every read of it is answered with the old value |
| StaleReads.OnlyAPushReplaces | internal/opcua/caching_client.go:104-112 | Once such an entry is in the store it is what every read gets, whatever is read, written, subscribed or restored, until the next push of its node |
| StaleReads.InvOverRuns | internal/opcua/subscription.go:350-413 | In every joint history each stored value is one the server gave, read live after every write to its node or pushed and come through last |
| StaleReads.PumpFlushes | internal/opcua/subscription.go:357-367 | Writing the batch into the tagged store is the pump's flush, failing for values without a tagged form |
| StaleReads.PushesAreTold | internal/opcua/subscription.go:404-411 | A pushed value's entry tells what was pushed and when, and is tagged so |
| Aggregator.CountsAreConserved | internal/telemetry/aggregator.go:79-143 | In every interleaving of recorders and snapshots, what all snapshots reported for a tool plus its live counter equals the increments made |
| Aggregator.TotalsAgreeAtRest | internal/telemetry/aggregator.go:120-143 | With no recorder in flight, flushed plus live total calls equal the sum over tools of flushed plus live counts, although a snapshot is not atomic |
| Aggregator.RunKeeps | internal/telemetry/aggregator.go:101-104 | Every tool has one counter that is never replaced, and whoever is about to add holds the current one, in every reachable state |
| SnapshotReports.SnapshotReportsTheRest | internal/telemetry/aggregator.go:120-143 | By itself, a snapshot reports of each tool exactly the increments no earlier one has reported, naming the tools that have any, and the total since the last one taken |
| SnapshotReports.SnapshotEmptiesCounters | internal/telemetry/aggregator.go:130-135 | A snapshot during which nothing is recorded, others running or not, leaves every counter at zero and everything recorded reported |
| SnapshotReports.TotalIsSumIff | internal/telemetry/aggregator.go:120-143 | By itself and begun with no recorder in flight, its total is the sum of its tools if and only if what earlier snapshots reported is in balance |
| SnapshotReports.TotalsOutOfBalance | internal/telemetry/aggregator.go:79-83 | A run from the start after which such a snapshot reports one call of a tool and a total of none |
| SnapshotReports.IncrementsAreRecorders | internal/telemetry/aggregator.go:79-83 | Over every run each tool has been incremented once for each recorder of it that is through |
| SnapshotReports.RecorderMovesOn | internal/telemetry/aggregator.go:79-83 | A recorder can always take its next step until it is through, and each step leads to the next |
| WriteConversion.ConversionsLandInRange | internal/opcua/client.go:1516-1780 | Whatever is converted, a successful integer conversion lands in the target's range, on any machine |
| WriteConversion.IntegersConvertIff | internal/opcua/client.go:1516-1780 | A Go integer of any kind converts if and only if it is in range, to itself |
| WriteConversion.FloatsConvertIff | internal/opcua/client.go:1516-1780 | A float within int64 (for UInt64 non-negative and below 2^64) converts if and only if its truncation is in range, to that |
| WriteConversion.BothFloatsConvertIff | internal/opcua/client.go:1516-1780 | float32 and float64 alike |
| WriteConversion.StringsConvertIff | internal/opcua/client.go:1516-1780 | A string converts if and only if it reads as a number in range, to that |
| WriteConversion.NativeKinds | internal/opcua/client.go:1456-1491 | The Go kind of each integer type, which holds exactly its range |
| WriteConversion.ValidateAgreesWithConvert | internal/opcua/client.go:1116-1220 | For every integer and float64 validation and conversion agree if and only if an integer is below 2^64 plus the target's lowest value, and a float for UInt64 is a number |
| WriteConversion.IntegersAreWrittenIff | internal/opcua/client.go:1280-1306 | Both passes together accept exactly the integers in range; where the cast in `isInRange` wraps, conversion refuses |
| WriteConversion.ValidationWraps | internal/opcua/client.go:1280-1306 | The largest uint64 passes validation as an Int32 and is refused by the conversion |
| WriteConversion.OthersAreRefused | internal/opcua/client.go:1253-1260 | Values of any other kind are never written as an integer, whether or not they would convert |
| WriteConversion.OtherTypesValidateIff | internal/opcua/client.go:1116-1220 | What validation takes for floats, strings, times, GUIDs and byte strings |
| WriteConversion.BooleansAreWrittenIff | internal/opcua/client.go:1116-1220 | To a boolean node a Go bool is written as itself, and nothing else is |
| WriteConversion.BooleansConvertIff | internal/opcua/client.go:1494-1513 | What converts to true, and what to nothing |
| WriteConversion.FloatsAreFaithfulIff | internal/opcua/client.go:1732-1780 | A float is written as nothing but its truncation on every machine if and only if it is in the int64 range; for UInt64, if and only if it is below 2^64 or not at least zero, and so refused |
| WriteConversion.ConvertArray | internal/opcua/client.go:1423-1449 | Converts exactly when every element does, keeping length and order, every element of the one Go type named for the data type |
| WriteConversion.ValidateArray | internal/opcua/client.go:1223-1250 | Accepts exactly arrays of the declared length whose elements all validate |
| WriteConversion.WriteIntegerArray | internal/opcua/client.go:1223-1250 | An integer array goes out exactly when its length is right and every element is in range, as the same numbers in the same order |

## Left out

- gopcua, bbolt, Bleve and the MCP library: the server, the dialer, the store and the index answer as the labels and parameters say, within what OPC 10000-4 section 5.12.2 promises (item ids unique in a subscription).
- A server that answers Monitor with more results than requests, on which the code indexes out of range.
- Monitored items a server creates although its Monitor call then fails.
- Dialing itself: endpoint selection, certificates, retries; a dial yields a fresh connection or fails.
- Timers, contexts, cancellation, the length of pauses: only where the code pauses is modelled, in `BatchRead`.
- 32-bit wrap-around of client handles and 64-bit wrap-around of generations and counters: handles stay below 2^32.
- Calls of the class `Client` run without interference; every interleaving of the same steps is in the transition system.
- SubscriptionRuns.HeldNodesAreCovered: says nothing of groups opened over a session since lost, whose items died with it until a restore replaces the group; what else happens over such a group is over-approximated.
- Subscribe, Unsubscribe and each step of a restore hold the manager's lock throughout in the code, so they are single steps.
- NotificationPump.Pump.Run: in place, a stretch of turns with the routing at rest; `LoopIsInvisible` is for routing that changes between turns.
- CachingClient.CachingClient.ReadLive: the server answers one value per node; of fewer or more, which `BatchRead` lets through, the code makes empty results or a panic.
- StaleReads.OldValueIsServedIff: a store that works; items of a notification are taken one by one, and a write is one step.
- CachingClient.CachingClient.Read: uses one time for all its lookups, and reads and writes follow one another; a write between a live read and its storing is not modelled.
- `TypeInfo` and `Browse` caches: the same freshness test on one entry, without the scatter and gather.
- Values.RoundTrip: floats, times, strings and byte slices have an assumed JSON text; the printing of floats, float32 rounding, time zones and years JSON refuses, and invalid UTF-8 are not modelled.
- Values.RoundTrip: takes `decode` to return the variable after it is filled, which is what its callers rely on; Go leaves that order open (`internal/store/value_encoding.go:71-73`).
- Typed nil pointers in a variant, and values of kinds gopcua never produces.
- WriteConversion.ConvertArray: conversions to other types than integers and booleans are opaque results of the right Go type; strings carry what strconv makes of them.
- The access-level check and the fallback write without type information, which bypasses validation.
- Aggregator: parameter, cache and error counters, which repeat the tool counters; the node gauge and its buckets.
- Discovery: browse names, times of last update, search tiers and ranking, which are known to miss hits; `GetNodeHierarchy`, which does not end on a cyclic parent chain; concurrent readers of the cache.
- Browse continuation points; node-id parsing beyond whether it succeeds.
- `SetConnectedForTesting`, statistics, debug functions, MCP handlers, resource formatting, tool policy, configuration and logging: no property of their own.
