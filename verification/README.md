# Verification of k8s-vectordb-sync

A Dafny model of the sync pipeline of k8s-vectordb-sync and proofs about it. The controller watches
a cluster, turns informer notifications into events, debounces them per resource, batches them into
payloads, and posts the payloads to a receiver that keeps a store of instances. The core of the
model is the debounce buffer as a concurrent machine; around it stand the watcher with its update
suppression, the metadata extraction, the REST client with bounded retry, and the sequential
sender. `dafny verify dfyconfig.toml` checks everything.

## How the model is built

* `Metadata` — `Extract`, the identifier and its inverse, the annotation filter. A Go map is `nil`
  or allocated; the difference is kept, and `Watcher.Seen` forgets it where the receiver does.
* `Downstream` — changes, events, payloads, the receiver's store, direct replay of events.
* `Pending` — the table of debounced changes. Go leaves the order of a `range` over a map open, so
  a visiting order is a parameter, and `OrderIrrelevant` shows that it never shows.
* `Machine` — a buffer as an interleaved transition system. Each step is one region under
  `pendingMu` or `payloadsMu`, one timer expiry, one receive by the sender, or the passing of time.
  Taking a batch out of the table and enqueuing it are separate steps, and every timer callback is a
  thread of its own that may be overtaken anywhere. `Stop` keeps a timer from firing only if it has
  not fired yet. Timers are named by the position of their event. Both buffers are this machine:
  the two source files differ in how an upsert chooses its generation (`Policy`) and in what a
  payload carries. Generations wrap at 2^64. History (events handled, payloads enqueued or dropped,
  what became of each event) is recorded beside the buffer's own fields. `Core` is the part of a step
  that moves events and payloads; what is left of a step only moves threads and the clock, so each
  invariant is proved for handling, taking and emitting alone.
  Theorems about whole runs that follow from invariants already proved carry `{:induction false}`, so that
  Dafny does not set out to prove them by an induction over the run.
* `Coherence`, `Overlap`, `Ledger`, `Loss`, `Protocol`, `Latency`, `Generations`, `Guarantee`, `EarlyFlush` — the
  theorems about every run of the machine. `Runs` builds concrete runs for the theorems that say one exists.
* `Buffer` — the buffer as the code keeps it, a class whose methods update its fields in place and
  loop over the table. Each method says what it does to the fields, and is proved to perform exactly the
  machine steps it stands for, in order: a ghost trace records them and the fields always show the state
  of that trace (`Fields`). Where a method lets go of its lock, the other threads may take any number of
  their own steps. `Wakes` says what each thing that can wake Run must do to the fields, and which steps it
  must add to the run.
* `Channels` — a bounded channel among threads that send without blocking and a consumer.
* `Watcher`, `RestClient`, `Sender` — the other stages, with the loops and channel sends of the source.
  What their functions compute is also said without them: by codes, identities, listings, doubling delays.
* `Pipeline` — the stages composed, from informer notifications to the receiver's store.

## Where the code is weaker than it may seem

* The documentation calls `BATCH_MAX_SIZE` the largest number of upserts in a payload. A flush does
  not cut its batch: with c callbacks at work the largest flush is exactly max(0, maxBatch - 1) + c
  (`LargestFlush`), so the limit can be exceeded exactly when two are at work (`ExceedsExactlyWhen`).
* An instance generation restarts at 0 once its key has left the table. A callback that is left over
  can mark an entry it was not armed for: `MisfiresExactlyWhen` says when, `EveryFiredCallbackCanMisfire`
  that none is safe, `InstanceTakesEarly` shows a flush inside the window. An upsert keeps its window,
  however the run goes on, exactly when no older callback of its key that carries the generation it gets is
  still to mark (`NeverEarlyExactlyWhen`). The CRD buffer's counter rules that out for 2^64 adds
  (`CrdNeverThreatened`).
* An event handled while an older payload for its key is in flight can lose to it, with nothing
  dropped. It prevails in every continuation exactly when no payload in flight for the key says
  otherwise (`PrevailsExactlyWhen`; for a delete, exactly when none is in flight), and `SomeRunLoses` is
  a run that leaves a deleted key downstream. A key is `stained` while such a race, or a drop, can
  make it disagree with replay; `StainedExactlyWhen` says it of the run alone: the key's next
  undisturbed event repairs it.
* An event is lost exactly when the thread that holds it emits it into a channel that is full or closed
  (`LostExactlyWhen`). Run never emits after the close (`DeleteLostExactlyWhen`), so the closed flag costs
  only what callbacks still hold. `DeleteCanBeLost`, `UpsertCanBeLost` and `HeldUpsertLost` are runs that
  lose a delete and an upsert to a full channel, and an upsert to the close with the channel empty.
* `mapsEqual` reads a missing key as an empty value: it decides equality exactly when the first map
  has no empty value (`MapsEqualExactlyWhen`), and of two maps exactly when the second still has every key that the
  first gives an empty value (`LooksEqualExactlyWhen`). A suppressed update is invisible to the receiver exactly
  when it keeps the label keys and the annotation keys that are synced (`SuppressedExactlyWhen`); the objects
  without empty values are exactly those of which every one is (`SuppressionExactlyWhen`).
* With the largest possible `maxRetries` the attempt count wraps and nothing is posted; with every
  other setting a non-empty payload that marshals is posted at least once (`PostsExactlyWhen`).
* A resync gets all its events into the channel exactly when there is room at each of its sends
  (`ResyncAcceptedExactlyWhen`). One that meets no consumer loses events exactly when it does not fit into what
  is left of the 10000 (`UnreceivedResyncExactlyWhen`).

## Model

| member | source | states |
|---|---|---|
| Metadata.IdParsesBack | internal/metadata/extract.go:54-58 | splitting an identifier at its first slash and its last two recovers namespace, apiVersion, kind and name, whatever the apiVersion holds |
| Metadata.IdIsIdentity | internal/metadata/extract.go:31-58 | two objects get the same identifier exactly when their identities agree, but for cluster scope against a namespace called `_cluster` |
| Metadata.InstanceMatchesId | internal/metadata/extract.go:31-101 | an instance's identifier is namespace/apiVersion/kind/name and reads back as its own fields, which are the object's; its annotations are the object's that are not skipped, nil if there are none; its API group is the prefix of its apiVersion |
| Metadata.ExtractApiGroup | internal/metadata/extract.go:60-68 | the part before the first slash, nothing for a core apiVersion |
| Metadata.ShouldSkipAnnotation | internal/metadata/extract.go:103-110 | the loop decides whether some skipped prefix begins the key |
| Metadata.SkippedExactlyWhen | internal/metadata/extract.go:73-110 | a key is skipped exactly when it begins with one of the six prefixes, each written out |
| Metadata.FilterAnnotations | internal/metadata/extract.go:84-101 | the loop keeps exactly the entries that are not skipped, in any order of iteration, and yields nil rather than an empty map |
| Metadata.Extract | internal/metadata/extract.go:31-52 | the imperative extraction computes `Extracted`, the function the pipeline theorems speak of |
| Downstream.ReplayIsLastEvent | internal/controller/debounce.go:26-31 | replay keeps the outcome of each key's last event: what last-state-wins is measured against |
| Downstream.ApplyIdempotent | internal/client/rest.go:80-123 | applying a payload twice is applying it once, on every store |
| Pending.CollectedMap | internal/controller/debounce.go:185-194 | a batch says for each taken key what the table said, and nothing else |
| Pending.OrderIrrelevant | internal/controller/debounce.go:187-192 | batches collected in different iteration orders have one element per taken key, no key twice, and the same effect on every store |
| Machine.BasicAlways | internal/controller/debounce.go:104-149 | in every reachable state an entry is its key's last event under its own timer and generation, one timer exists per upsert, threads hold payloads exactly where their control state says, and the table is empty once Run shuts down |
| Coherence.CoalescingAgrees | internal/controller/debounce.go:104-207 | with no overlap and no drop for a key, reading the table, then what is in flight, then the store built from the enqueued payloads equals replaying every event, at every moment of every run, from any store |
| Coherence.CoalescingAgreesWithReplay | internal/controller/debounce.go:104-266 | the same for every key that is not stained, whatever happened to it before |
| Coherence.StainedExactlyWhen | internal/controller/debounce.go:177-266 | a key is stained exactly when it has been disturbed, by an overlap or a drop, since its last undisturbed event, or since the beginning |
| Coherence.UnstainedWhen | internal/controller/debounce.go:177-207 | a run without overlap or drop for a key leaves it unstained |
| Coherence.LastStateWins | internal/controller/debounce.go:104-149 | a pending entry is the instance of its key's most recent event, drops and races included |
| Coherence.BatchIsLatest | internal/controller/debounce.go:177-194 | each element of a batch is its key's latest state when the batch is taken |
| Coherence.ReturnedStays | internal/controller/debounce.go:241-266 | after Run has returned the table stays empty and nothing is handled or enqueued any more, whatever callbacks still do |
| Coherence.ShutdownComplete | internal/controller/debounce.go:74-100 | when Run has returned, by either exit, nothing is pending; with nothing in flight and no stain the enqueued payloads build the replayed store |
| Overlap.OverlapCanLose | internal/controller/debounce.go:151-207 | whenever a callback holds a payload for a key while Run selects, and any event of the key is handled next, the run can go on without another event of the buffer or a drop, and come to rest with the older payload downstream |
| Overlap.PrevailsExactlyWhen | internal/controller/debounce.go:104-207 | an event is what its key is left with downstream, in every continuation without another event or drop for the key, exactly when no payload in flight for the key says otherwise |
| Overlap.DeletePrevailsExactlyWhen | internal/controller/debounce.go:106-118 | a delete prevails exactly when no payload for its key is in flight |
| Overlap.UpsertsPrevailExactlyWhen | internal/controller/debounce.go:120-149 | every upsert of a key prevails, whatever it carries, exactly when no payload for the key is in flight |
| Overlap.SomeFollowUp | internal/controller/debounce.go:74-266 | such a continuation, to rest and without a drop, always exists |
| Overlap.HoldingReachable | internal/controller/debounce.go:151-161 | for every configuration and change some run without losses has a callback hold exactly that change while Run selects over an empty table |
| Overlap.SomeRunLoses | internal/controller/debounce.go:104-207 | some run drops nothing, delivers everything, and leaves a deleted key downstream |
| Ledger.EveryEventInOnePlace | internal/controller/debounce.go:104-266 | each handled event is waiting, in flight, enqueued, dropped, superseded or cancelled, and each place has it exactly when the ledger says so; a delete is in flight with Run, enqueued or dropped |
| Ledger.EnqueuedIsHonest | internal/controller/debounce.go:196-203 | an enqueued payload carries the very changes, each key once, or the very delete, of the events it stands for |
| Ledger.PlacesMoveForward | internal/controller/debounce.go:177-266 | at every step places only move forward, and an event is dropped only by a full or closed channel |
| Ledger.LostExactlyWhen | internal/controller/debounce.go:196-266 | at every step of every run any event, upsert or delete, is lost exactly when the thread that holds it emits into a full or closed channel, and enqueued exactly when it emits into one that is neither |
| Ledger.CountsAddUp | internal/controller/debounce.go:104-266 | the six places add up to the upserts handled, and in flight, enqueued and dropped to the deletes handled |
| Ledger.DeleteLostExactlyWhen | internal/controller/debounce.go:106-118 | at every step of every run a delete is lost exactly when Run emits it into a full channel, enqueued exactly when Run emits it into one with room; the channel is open whenever Run emits |
| Loss.EmittedDeleteLostExactlyWhen | internal/controller/debounce.go:252-266 | a delete handled and emitted is lost exactly when the channel is full, and the receiver then keeps what it had |
| Loss.DeleteCanBeLost | internal/controller/debounce.go:252-266 | some run handles and emits a delete that no store ever sees |
| Loss.UpsertCanBeLost | internal/controller/debounce.go:177-266 | some run handles and flushes an upsert that no store ever sees, for every configuration and change |
| Loss.HeldUpsertLost | internal/controller/debounce.go:196-266 | some run loses an upsert that a callback holds when Run returns, with the channel empty: the closed flag alone loses it |
| Protocol.ChannelProtocol | internal/controller/debounce.go:239-266 | the channel closes at most once, holds at most 100, is first in first out, and carries only non-empty payloads of upserts only or exactly one delete |
| Protocol.NothingAfterClose | internal/controller/debounce.go:252-257 | however a run goes on after the close, the channel stays closed, nothing more is enqueued, and what was in it only leaves, in order |
| Protocol.BatchBound | internal/controller/debounce.go:151-207 | a flush takes at most max(0, maxBatch - 1) plus the callbacks that have marked and not finished; at most max(maxBatch, 1) when one callback works at a time |
| Protocol.BoundIsTight | internal/controller/debounce.go:151-207 | for every maxBatch and every number of callbacks at work some run has exactly that many ready entries |
| Protocol.LargestFlush | internal/controller/debounce.go:151-207 | so with c callbacks at work the largest flush is max(0, maxBatch - 1) + c |
| Protocol.ExceedsExactlyWhen | internal/controller/debounce.go:151-207 | a flush can exceed max(maxBatch, 1) exactly when at least two callbacks are at work |
| Protocol.BatchOfAnySize | internal/controller/debounce.go:175-207 | for every maxBatch and every n some run flushes n upserts at once |
| Latency.QuietKeyLeaves | internal/controller/debounce.go:74-90 | with prompt callbacks and ticks a key leaves the table within a window and an interval of its last event |
| Latency.TicksSpareUnready | internal/controller/debounce.go:177-194 | over any number of ticks, flushes, events of other keys and callbacks of other entries, an entry that is not ready stays as it is and its timer goes on |
| Generations.RefinesIdeal | internal/controller/debounce.go:139-147 | a run in which marking only marks its own entry is, up to generations, a run of the debouncer without generations |
| Generations.CrdRefinesIdeal | internal/controller/crd_debounce.go:121-148 | every run of the CRD buffer with fewer than 2^64 adds is such a run, across deletes, re-adds and late callbacks |
| Generations.InstanceRefinesIdeal | internal/controller/debounce.go:123-148 | so is every run of the instance buffer in which no live callback of a key is left when the key returns |
| Guarantee.CrdDebounceGuarantee | internal/controller/crd_debounce.go:41-205 | what a flush takes from the CRD buffer was last added at least a window earlier |
| Guarantee.InstanceDebounceGuarantee | internal/controller/debounce.go:123-207 | the same for the instance buffer in the runs without left-over callbacks |
| Guarantee.MisfiresExactlyWhen | internal/controller/debounce.go:127-144 | after n + 1 more upserts of its key a fired callback marks the entry of another timer exactly when the counter has come round to its generation |
| Guarantee.LeftOverMisfires | internal/controller/debounce.go:127-144 | in the instance buffer every fired callback whose key has left the table can be made to mark a foreign entry |
| Guarantee.EveryFiredCallbackCanMisfire | internal/controller/debounce.go:104-144 | and so can every other fired callback, by a delete of its key first |
| Guarantee.InstanceTakesEarly | internal/controller/debounce.go:109-144 | for every window some run of the instance buffer flushes a key before its window is over |
| EarlyFlush.NeverEarlyExactlyWhen | internal/controller/debounce.go:120-194 | under every policy an upsert handled at Run's select keeps its window, in every continuation without another event of its key, exactly when no older callback of the key with the generation it gets is still to mark, or there is no window |
| EarlyFlush.CrdNeverThreatened | internal/controller/crd_debounce.go:130-148 | in the CRD buffer there is no such callback in any run with fewer than 2^64 - 1 adds |
| EarlyFlush.ReturnNeverEarlyExactlyWhen | internal/controller/debounce.go:127-148 | in the instance buffer the first upsert of a key that is not pending keeps its window, in every such continuation, exactly when no callback of generation 0 is left over that has fired, or was armed earlier and will |
| Buffer.DebounceBuffer.HandleEvent | internal/controller/debounce.go:104-149 | an upsert stands in the table under a new timer armed for a window, the timer it replaces is stopped, and nothing else changes; a delete leaves neither entry nor armed timer and goes out at once, whatever the other threads do in between; and these are exactly the steps of the event |
| Buffer.DebounceBuffer.ChooseGen | internal/controller/crd_debounce.go:130-135 | the next generation, per key (0 for a new one) or from the buffer's counter, modulo 2^64 |
| Buffer.DebounceBuffer.EmitPayload | internal/controller/debounce.go:252-266 | appends to an open channel with room for it among 100 and otherwise loses the payload |
| Buffer.DebounceBuffer.ReadyCount | internal/controller/debounce.go:165-173 | the loop counts the ready entries |
| Buffer.DebounceBuffer.TakeReady | internal/controller/debounce.go:185-192 | the loop takes exactly the ready entries and collects them in the order met |
| Buffer.DebounceBuffer.FlushPending | internal/controller/debounce.go:177-207 | Run's flush: no ready entry stays in the table and, if the other threads do nothing meanwhile, one payload with exactly the ready entries goes out, if there are any and the channel takes it |
| Buffer.DebounceBuffer.FlushAllPending | internal/controller/debounce.go:211-232 | empties the table, stops every entry's timer, and sends one payload with all of it, the other threads going on in between |
| Buffer.DebounceBuffer.ClosePayloads | internal/controller/debounce.go:241-248 | performs the close |
| Buffer.DebounceBuffer.TimerFired | internal/controller/debounce.go:139-147 | undisturbed, marks the entry of the captured generation, and flushes all ready entries exactly if at least maxBatch are ready then |
| Buffer.DebounceBuffer.CheckFlush | internal/controller/debounce.go:153-161 | flushes exactly when at least maxBatch entries are ready |
| Buffer.DebounceBuffer.FlushByCallback | internal/controller/debounce.go:177-207 | the same flush on a callback's thread, which leaves Run where it was |
| Buffer.DebounceBuffer.MoveOn | internal/controller/debounce.go:139-161 | a callback at work goes through its next locked region, which its place determines: mark, count, take, or emit; an idle one does nothing; Run stays where it was |
| Buffer.DebounceBuffer.HandleWake | internal/controller/debounce.go:78-99 | every wake is acted on: an event is handled, a flush tick leaves no entry that was ready and, undisturbed, sends exactly those, a due timer fires and its callback marks and flushes; the steps this adds to the run are those of the wake and no others |
| Buffer.DebounceBuffer.Run | internal/controller/debounce.go:74-100 | the run is the answers to its wakes, one after another, and then the final flush and the close: each event is handled once and each tick answered once, in their order. It returns with an empty table and a closed channel, whatever timers, callbacks and the sender did between its locked regions: for every key that is undisturbed and not held by a callback, what was received and what is still in the channel say what direct replay says, from any store; if no callback got in between and nothing was dropped, they build the replayed store |
| Wakes.RanThroughTurns | internal/controller/debounce.go:78-99 | in any run that answers its wakes, Run handled exactly the events that arrived and flushed exactly at the ticks, in their order |
| Watcher.IsCrdExactlyWhen | internal/controller/watcher.go:207-212 | an object is taken for a CRD exactly when its kind is CustomResourceDefinition and its API group apiextensions.k8s.io, at any version |
| Watcher.MapsEqual | internal/controller/watcher.go:333-343 | the loop decides equal size and equal reads, missing read as empty |
| Watcher.MapsEqualExactlyWhen | internal/controller/watcher.go:333-343 | the test is equality with the first map exactly when that map has no empty value |
| Watcher.LooksEqualExactlyWhen | internal/controller/watcher.go:333-343 | two maps that look equal are equal exactly when the second has every key that the first gives an empty value |
| Watcher.MetadataChanged | internal/controller/watcher.go:315-331 | changed: different resource versions, and labels or annotations that do not look equal |
| Watcher.SameMetadataSuppressed | internal/controller/watcher.go:315-331 | an update that changes no label and no annotation is never reported |
| Watcher.ChangedValueReported | internal/controller/watcher.go:315-343 | a label or annotation that reads differently afterwards is reported as an update of the new object, unless the resource version is the same |
| Watcher.SuppressedIsInvisible | internal/controller/watcher.go:315-343 | a suppressed update of an object without empty values extracts to the same instance as the receiver reads it, and to the very same instance exactly when the labels are nil in both or in neither |
| Watcher.SuppressedExactlyWhen | internal/controller/watcher.go:315-343 | a suppressed update is invisible to the receiver exactly when no label key, and no annotation key that is synced, appears or disappears |
| Watcher.EmptyKeysKept | internal/controller/watcher.go:315-343 | which is so whenever the keys with an empty value are still there |
| Watcher.SuppressionExactlyWhen | internal/controller/watcher.go:315-343 | exactly the objects without empty label or annotation values have all suppressed updates invisible |
| Watcher.Watcher.Emit | internal/controller/watcher.go:278-287 | appends to a channel with room among 10000, drops otherwise; a stopped watcher may do either |
| Watcher.Watcher.EmitCrd | internal/controller/watcher.go:292-311 | a delete goes in as soon as the other threads have made room among 1000, and waits until then, unless the watcher stopped; an add is dropped by a full channel |
| Watcher.Watcher.Notify | internal/controller/watcher.go:216-274 | each notification goes to the channel its routing names and nowhere else; an added or deleted CRD, by kind and group, goes by its name to the CRD channel; CRD updates and suppressed updates go nowhere |
| Watcher.RoutedByIdentity | internal/controller/watcher.go:216-274 | an object that comes or goes is reported on the CRD channel, by name, exactly if it is a CRD by kind and group, and as an instance on the other exactly if not; one in a tombstone goes like one that was seen to go |
| Watcher.IgnoredNotices | internal/controller/watcher.go:216-258 | updates of CRDs, and whatever is not an object or one tombstone of an object, are reported nowhere |
| Watcher.NotifyAll | internal/controller/watcher.go:216-311 | the informers' side: the channels end where the sends of the notifications handed over take them, among whatever consumers and other senders do; it stops short only at a CRD delete that is waiting for room |
| Watcher.NotifiedExactlyWhen | internal/controller/watcher.go:216-311 | where nobody else sends, each channel accepts exactly the events of the notifications, in order, exactly when there is room at each send |
| Watcher.Watcher.TriggerResync | internal/controller/watcher.go:349-383 | counts the objects of every type that could be listed, whatever other types could not, and leaves both channels as sending an ADD for each, in listing order, does, with consumers taking events and informers sending theirs meanwhile at any pace; nothing accepted is lost or reordered |
| Watcher.AllItemsHoldEvery | internal/controller/watcher.go:358-378 | what a resync goes through is exactly the objects of the listings that succeeded, each in its place behind those of the listings before |
| Watcher.EachListedIsSent | internal/controller/watcher.go:358-378 | for each of them an ADD is sent, by name for a CRD and as an instance for any other, whatever other listings failed |
| Watcher.ResyncAcceptedExactlyWhen | internal/controller/watcher.go:349-383 | with informers silent, all its events are accepted, in listing order, exactly when there is room at each of its sends |
| Watcher.UnreceivedResyncExactlyWhen | internal/controller/watcher.go:349-383 | with no consumer either, exactly when they all fit: the input on which a resync loses events |
| Channels.AcceptedExactlyWhen | internal/controller/watcher.go:278-287 | a channel that several threads send to without blocking accepts everything sent, in order, exactly when there is room at each send |
| RestClient.ConfigurationSound | internal/client/rest.go:46-78 | every sequence of options leaves 0 < initialDelay <= maxDelay and maxRetries >= 0 |
| RestClient.LastOptionWins | internal/client/rest.go:30-78 | among any options the last that asks for a retry count, a ceiling or a timeout in range gets it; if none does, the setting stays |
| RestClient.InitialDelayAsked | internal/client/rest.go:39-62 | the initial delay is what was asked for last, cut off at the ceiling |
| RestClient.Unconfigured | internal/client/rest.go:64-73 | without options: 30 s timeout, 3 retries, 1 s initial delay, 30 s ceiling |
| RestClient.RestClient.New | internal/client/rest.go:64-78 | the option loop computes those settings |
| RestClient.RestClient.Configure | internal/client/rest.go:39-62 | one option, out-of-range values ignored |
| RestClient.CapsGrow | internal/client/rest.go:150-154 | the delays before jitter are positive, nondecreasing and at most maxDelay |
| RestClient.CapsDouble | internal/client/rest.go:150-154 | the first delay before jitter is the initial one, and each further one is twice the one before, up to maxDelay, where it stays |
| RestClient.CapSumExactly | internal/client/rest.go:150-154 | the delays of n retries add up to the geometric series as far as it is below maxDelay, and to maxDelay each from there on |
| RestClient.EveryDelayDrawn | internal/client/rest.go:155-158 | every delay from three quarters of the cap up to below the cap is the delay for some random number in [0, 1) |
| RestClient.JitterMonotone | internal/client/rest.go:155-158 | a larger random number never shortens the delay |
| RestClient.RestClient.BackoffDelay | internal/client/rest.go:150-158 | a delay is between the truncated 75% of its cap and the cap, at the drawn jitter |
| RestClient.LastResponseDecides | internal/client/rest.go:104-146 | a send is rejected exactly when some post met a 4xx, delivered exactly when some post met a code below 400, and that post was its last; it is interrupted or exhausted exactly when every post met a 5xx or no response |
| RestClient.InterruptedExactlyWhen | internal/client/rest.go:93-122 | a send is interrupted in front of attempt k exactly when k is the first backoff the context ends and every earlier attempt met a 5xx or no response; it is exhausted exactly when the whole budget did, uninterrupted |
| RestClient.PostedExactlyWhen | internal/client/rest.go:82-122 | a payload is skipped exactly when it is nil or has neither upserts nor deletes, and is posted at least once exactly when it has some, marshals, and maxRetries is not the largest int; an exhausted send posted maxRetries + 1 times |
| RestClient.RestClient.Send | internal/client/rest.go:82-123 | a nil or empty payload posts nothing, one that cannot be marshalled is an error at once, any other is posted until success, a client error, a cancelled backoff, or the end of the budget; the receiver has it applied exactly when some attempt took effect; waits are bounded on both sides |
| RestClient.SendIsDetermined | internal/client/rest.go:82-123 | that description leaves one outcome and one number of posts |
| RestClient.RetryBounds | internal/client/rest.go:93-122 | at most maxRetries + 1 posts, and total waiting within n * maxDelay and initialDelay * (2^n - 1) |
| RestClient.WaitsAtLeast | internal/client/rest.go:93-158 | from below, what was waited for is at least three quarters of the doubling delays, less a nanosecond each |
| RestClient.PostsExactlyWhen | internal/client/rest.go:93-93 | a client posts every non-empty payload that marshals at least once exactly when its maxRetries is not the largest int |
| RestClient.LargestBudgetPostsNothing | internal/client/rest.go:47-93 | the largest int is a setting an option can make, and with it the loop makes no attempt |
| Sender.RetriesDoNotShow | cmd/main.go:231-254 | what the receiver saw, repeats included, leaves the store of applying each effective payload once, in order |
| Sender.ExactlyOnce | cmd/main.go:231-254 | where every send succeeds, the store of applying every payload once, in order |
| Sender.EachIsPosted | cmd/main.go:231-254 | whatever became of the others, each payload is posted at least once exactly when it has an upsert or a delete and maxRetries is not the largest int |
| Sender.RunSenderLoop | cmd/main.go:231-254 | the loop sends every payload in channel order and goes on after failures |
| Pipeline.EmittedMirrors | internal/controller/watcher.go:216-274 | replaying what the watcher emits mirrors the cluster: live objects shown, gone ones absent, nothing else touched |
| Pipeline.CrdsMirrored | internal/controller/watcher.go:218-266 | replaying the CRD events names exactly the CRDs that exist, though the updates, which show a CRD too, are ignored |
| Pipeline.CrdEndToEnd | cmd/main.go:231-254 | in a drained run without drops or overlap, every send succeeding, the receiver names exactly the CRDs that exist |
| Pipeline.EndToEnd | cmd/main.go:231-254 | in a drained run without drops or overlap, every send succeeding, the receiver mirrors the cluster the notifications describe |
| Pipeline.KeyEndToEnd | cmd/main.go:231-254 | the same for one object, whatever drops, overlaps and failed sends other keys suffered: if its key is undisturbed and at rest and the payloads that touch it took effect, the receiver shows it, or not if it is gone |
| Pipeline.ListedExactlyWhen | internal/controller/watcher.go:358-378 | an identifier counts as listed exactly when some listing that succeeded has an object of that identity that is not a CRD |
| Pipeline.LastListedIsLast | internal/controller/watcher.go:358-378 | its last listed object is one of that identity with none behind it |
| Pipeline.ReplayListed | internal/controller/watcher.go:365-375 | after a resync's events each listed identifier has its last listed object, and the others what they had |
| Pipeline.ResyncReplays | internal/controller/watcher.go:345-383 | once the events of a resync were the last ones handled, the payloads enqueued in all say of an unstained key at rest what was listed last, or else what the earlier events say |
| Pipeline.ResyncRepairs | internal/controller/watcher.go:345-383 | whatever happened before the resync and whatever store the receiver has come to: once its events were the last ones handled, undisturbed for the key, the key is at rest, and the payloads enqueued since that touch the key took effect, a listed identifier has its last listed object, and one that was not listed and was at rest keeps what the receiver had; other sends may fail and Run goes on |

## Left out

- Buffer.DebounceBuffer: stands for both buffer types of the source, which repeat each other but for the choice of a generation and the payload's element.
- Guarantee.InstanceDebounceGuarantee: needs that no live callback is left when a key returns; without that it is false, as `InstanceTakesEarly` shows, and `NeverEarlyExactlyWhen` says of each upsert exactly when it holds.
- Pipeline.EndToEnd: assumes that the events channel took every event and that Run handled them all, which the code does not promise; `NotifiedExactlyWhen` says when the first holds, and `ResyncRepairs` what a later resync restores.
- Sender.RunSenderLoop: the choice of a fresh context during shutdown is not modelled; whatever a context does to a send is part of that send's attempts.
- RestClient.RestClient.Send: whether marshalling fails is an input; logging is not modelled.
- RestClient.RestClient.BackoffDelay: reals with truncation stand for float64; rounding is not modelled.
- Discovery, informers and cache sync (`Start`, `discoverResources`): an arbitrary plausible sequence of notifications stands for them.
- The timestamp format of `createdAt`: the formatted string is part of the object.
- Metrics, health probes, the resync HTTP server, configuration parsing and the resource filter: plumbing.
- The receiver's own processing: a map from identifier to instance, deletes before upserts.
