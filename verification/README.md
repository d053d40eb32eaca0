# airc event bus: a verified model

airc runs one daemon per machine that owns an in-memory publish/subscribe router. A publish
call reserves room in a bounded write-behind queue (durable events only), takes a
generational `(epoch, counter)` number, records the event id, pushes the event under a shard
lock into its channel's hot ring and into the bounded queues of matching subscribers, then
hands it to the write-behind task and to a LAN forwarder. A durable ring entry is pinned until
the writer confirms that it is stored. This project models that router as a state machine whose
steps are the atomic actions between two locks or awaits, so that every sequence of steps is a
run and every interleaving of calls, writer, subscribers and restarts is one, and proves what
holds in every run. The parts under it (ring, store, id window, subscriber index, ephemeral
cache, sequence source) are classes or functions of their own, proved against specifications.
Four smaller pieces of the repository are modelled beside it: the mesh flood, the build
timestamp, the blob store's bounded reader and garbage collector, and the daemon keeper.

`dafny verify dfyconfig.toml` verifies everything.

## How the model is organised

| module | models |
|---|---|
| `Envelopes`, `HeaderFilters`, `Selection` | events, cursors, filters; order-preserving selection |
| `Ring`, `Sink`, `RecentIds`, `SubscriberIndexes`, `Ephemeral`, `SeqSources` | the router's parts, one by one |
| `Channel` | what one channel's ring, stored rows and accepted log owe each other |
| `Bus` | the router as steps over one state, with a history that no step reads |
| `Persistence`, `Holders`, `Floor`, `Retention` | invariants of every run: nothing lost, one holder per pinned entry, bounded floor, nothing evicted while there is room |
| `Provenance`, `Settling` | where accepted events come from; that the writer can always finish |
| `Restarts` | exactly what a restart loses, over any number of restarts |
| `Replay`, `HistoryReads`, `StoreOrder` | reads over whole runs; when the store fills in order |
| `Subscription`, `Fanout`, `Delivery`, `Streams`, `Lagging` | the stream's legs, live delivery and on which fields it turns, the stream against the run's history, and recovery after a refused push |
| `Dedup`, `Order` | at-most-once publishing; when ring order is sequence order |
| `Scenarios` | runs showing that the assumptions are needed |
| `Forward`, `Mesh` | latest-wins forwarding; flooding over LAN links |
| `CivilDate`, `Blobs`, `BlobGc`, `Keeper` | the secondary pieces |

The theorems about runs name their assumptions. `FreshIds`: no channel rings one id twice.
`InOrder`: pushes on the channel followed sequence order (`Replay.InOrderExactlyWhen` says
exactly when, in terms of each push). `InOrderSends`, or `SendsInOrder` for one channel: permits
were filled in the order of acceptance. `DisciplinedRun`: plain publishes mint fresh ids, and an
id that a later `publish_if_new` of the same daemon carries has not left the window before it was
stored. `SerializedRun`: no push overtakes a call of its channel that was stamped earlier.
`AtMostOnce` derives the first from the fourth, `SerializedPushesAreInOrder` the second from the
fifth, and `NoEventIsLost` puts them together. The histories `log`, `shown`, `accepted` and
`published` are those of the current daemon and begin with what the store kept; `ever` is never
reset.

## Where the code does not do what its comments say

- The number is taken before the shard lock, so ring order need not be sequence order. Two
  crossing publishes can then leave an accepted durable event that no replay shows, although it
  is stored (`Scenarios.CrossedPushesLeaveAGap`); the module comment promises that replay never
  misses one. Whatever the order, a replay is whole exactly when every accepted durable that has
  left the ring precedes its oldest entry (`Replay.ReplayIsWholeExactlyWhen`), and repeats nothing
  exactly when no stored ring entry does (`Replay.ReplayRepeatsExactlyWhen`).
- `subscribe` promises every matching envelope exactly once. Whatever the order, ids, ring and
  reads, an unlagged subscriber yields an event if and only if it was replayed, or was sent at a
  position after the replay's watermark and after everything sent before it
  (`Streams.YieldedExactlyWhen`). The promise fails in two ways. If two publishes cross before the
  lock, the one stamped first and pushed second is never yielded, however full the ring
  (`Scenarios.CrossedPushesDropALiveEvent`). If the ring was empty at registration, the stored leg
  has no entry to stop at and can overtake a live event, durable or not
  (`Scenarios.EmptyRingCanLoseALiveEvent`, exactly when: `Streams.DroppedExactlyWhen`). With pushes
  in order it is kept on a ring that holds anything (`Streams.StreamOfRun`) and, if permits are
  filled in order too, for durables on an empty one (`Streams.EmptyRingDurables`).
- A lagged subscriber is told to resume from its cursor. If a durable event was refused and a
  later one delivered, that cursor lies past the refused one and no catch-up from it holds it
  (`Scenarios.LaggedResumeMissesTheRefused`). Delivery plus catch-up is whole if and only if
  nothing was delivered past a refused durable (`Lagging.ResumeCoversExactlyWhen`).
- A full forward queue is called harmless because "an earlier wake is still queued". That wake
  need not exist for the refused key (`Forward.RefusedWakeStrandsItsValue`);
  `Forward.DrainedUnlessStranded` gives the exact condition.
- The ring comment says the newest entry always stays. Under count pressure a lossy newest entry
  behind a pinned head is dropped; `Ring.NewestSurvives` says exactly when.
- The ring is said to exceed its capacity only by its unpersisted floor. Permits are filled after
  the lock, and crossed sends can leave a ring above both its capacity and its pinned entries
  (`Scenarios.CrossedSendsOverfillTheRing`). In every run the bound holds exactly when the ring is
  within capacity or its unpersisted durables are its newest (`Floor.FloorExactlyWhen`), which
  sends in the order of acceptance guarantee (`Floor.FloorBounded`).
- A rejected `publish_if_new` is meant to leave no trace. If the id window was full, it has lost
  its oldest id (`RecentIds.UnmarkRestores`, `Dedup.RejectionLeavesNoTrace`).
- `mark_persisted` unpins the first slot with the id. It leaves no slot of the id pinned exactly
  when no later slot of it was (`Ring.UnpinnedExactlyWhen`); two plain publishes of one id leave
  a slot pinned after everything is stored and confirmed (`Scenarios.RepeatedIdStaysPinned`).
- The 4096-id window alone does not make publishing at-most-once. A `publish_if_new` publishes
  exactly when its id is in neither window nor store and a durable finds room in the write-behind
  queue (`Scenarios.PublishedExactlyWhen`), so an id
  that rolled off before it was stored can always be published again
  (`Scenarios.RollingOffReopens`, `Scenarios.RolledIdOfTheWindow`).

## Model

| member | source | states |
|---|---|---|
| `Order.NoEventIsLost` | crates/airc-bus/src/router.rs:13-22 | in every disciplined, serialized run with any restarts: a durable that any daemon accepted is missing from ring and store if and only if a restart came before it was stored, and it was pinned then; every pinned entry has exactly one holder; and replay from any cursor with the store read at any later time is exactly the durables the daemon holds after it, in order (after an empty-ring snapshot, followed only by later ones) |
| `Restarts.OnlyRestartsLose` | crates/airc-bus/src/seq.rs:5-10 | over any number of restarts, an event that some daemon accepted is missing if and only if a restart came while it was accepted and not stored |
| `Restarts.RestartLosesTheTail` | crates/airc-bus/src/seq.rs:5-10 | one restart loses those accepted durables and only those that were not stored; each was pinned, and there are at most the write-behind buffer plus one writer batch |
| `Restarts.AtRiskIsPinned` | crates/airc-bus/src/ring.rs:7-11 | an accepted durable that is not stored is pinned |
| `Replay.NoGap` | crates/airc-bus/src/router.rs:15-22 | in every run with fresh ids and in-order pushes: stored rows between the cursor and the snapshot's oldest entry, read now or later, then the snapshot's durables, are exactly the durables accepted after the cursor, once each and in order |
| `Replay.NoGapBehindEmptyRing` | crates/airc-bus/src/ring.rs:191-196 | with an empty ring at the snapshot, a later read of the store begins with exactly what was accepted before it, and everything after that was accepted since |
| `Replay.SeamAtAnyRead` | crates/airc-bus/src/router/subscribe.rs:11-22 | whatever the ring held, a snapshot and any later read of the store fit together, and what the reader sees begins with every durable accepted before the snapshot |
| `Replay.ReplayIsWholeExactlyWhen` | crates/airc-bus/src/router.rs:17-22 | in every run with fresh ids, whatever the order of pushes, a replay shows every accepted durable after the cursor if and only if each one that left the ring precedes its oldest entry |
| `Replay.ReplayRepeatsExactlyWhen` | crates/airc-bus/src/router.rs:17-22 | and shows nothing twice if and only if no stored ring entry after the cursor precedes the oldest |
| `Replay.InOrderExactlyWhen` | crates/airc-bus/src/router.rs:617-660 | ring order is sequence order throughout a run if and only if no push carries a cursor below one its channel holds |
| `Replay.SeamOfRun` | crates/airc-bus/src/router.rs:15-22 | in every such run the stored rows before the ring's oldest entry are exactly the accepted durables that left the ring |
| `Replay.Growth` | crates/airc-bus/src/router/write_behind.rs:31-71 | between restarts no accepted event and no stored row ever disappears |
| `Channel.PushOk` | crates/airc-bus/src/ring.rs:82-87 | pushing a fresh event keeps every accepted durable in ring or store, unpinned durables stored, and evicted durables before everything retained |
| `Channel.AppendOk` | crates/airc-bus/src/sink.rs:246-262 | storing an accepted event keeps the same, and the event is then stored |
| `Channel.MarkOk` | crates/airc-bus/src/ring.rs:92-99 | unpinning a stored event keeps the same |
| `Channel.SeamLater` | crates/airc-bus/src/router/subscribe.rs:14-17 | whatever is accepted and stored after the snapshot lies at or past its oldest entry |
| `Channel.SeamExact` | crates/airc-bus/src/router.rs:17-22 | for any selection, stored rows before the ring plus the ring's durables are the accepted durables, no gap and no repeat |
| `Channel.StoreExtends` | crates/airc-bus/src/ring.rs:191-196 | rows stored since an empty-ring snapshot come after all that was accepted before it |
| `Bus.CallsStayOffLock` | crates/airc-bus/src/router.rs:594-631 | off the shard lock a publish call touches only the counter, the id window, the queue, the shed count and itself: never a ring, the store, the writer or a subscriber; only a send queues and only a stamp counts |
| `Bus.ApplyWriter` | crates/airc-bus/src/router/write_behind.rs:10-71 | the writer touches only its pipeline, the store while writing and the rings while confirming; no call, counter, window or subscriber |
| `Bus.ApplySub` | crates/airc-bus/src/router/subscribe.rs:51-105 | registering, reading and leaving touch only the registrations |
| `Provenance.EveryEventWasPublished` | crates/airc-bus/src/router.rs:594-660 | in every run, restarts included, every event shown, ringed or stored has the fields some publish call handed in; the call was let in, a durable only by a running writer with room, a `publish_if_new` only with an id in neither window nor store; and it carries the number that was next and the clock's time at its stamping |
| `Settling.EverythingSettles` | crates/airc-bus/src/router/write_behind.rs:10-71 | from every reached state with fresh ids, filling the permits under way and letting the writer run, with nothing new published, ends in finitely many steps with every accepted durable stored and no entry pinned |
| `Settling.BatchesFill` | crates/airc-bus/src/router/write_behind.rs:20-29 | a collecting writer takes the oldest entries in order until its batch holds 64 or the queue is empty |
| `Settling.BatchIsKept` | crates/airc-bus/src/router/write_behind.rs:31-71 | once a batch is being stored, whatever fails and whatever else happens, it is kept as it is and nothing newer leaves the queue until its last entry has been confirmed |
| `Persistence.CapacityStep` | crates/airc-bus/src/router.rs:603-616 | every step keeps queued entries plus reserved permits within the write-behind buffer |
| `Persistence.BaseAlways` | crates/airc-bus/src/router/write_behind.rs:20-60 | in every run the batch is at most 64, only durables travel to the store, the writer's progress stays within its batch, and the queue bound holds |
| `Persistence.SafeAlways` | crates/airc-bus/src/router.rs:20-22 | in every run with fresh ids each channel's ring, store and log agree, everything in the pipeline was accepted, and a batch is confirmed only when all of it is stored |
| `Holders.PinnedOrPersisted` | crates/airc-bus/src/router.rs:599-602 | in every run with fresh ids a durable that the current daemon accepted or found stored is in its ring or the store, an unpinned durable is stored, and an entry is pinned if and only if one pipeline place or one unfilled permit holds it, never two |
| `Holders.HeldAlways` | crates/airc-bus/src/router.rs:715-720 | the invariant behind it, step by step over every run |
| `Holders.PushedPins` | crates/airc-bus/src/ring.rs:82-87 | a push adds exactly its own event to the pinned list, and only if durable |
| `Holders.MarkedPins` | crates/airc-bus/src/ring.rs:92-99 | a confirmation removes exactly its own event from the pinned list |
| `Floor.FloorBounded` | crates/airc-bus/src/ring.rs:7-15 | with in-order sends the unpersisted durables of a ring are exactly the newest accepted ones, and the ring never exceeds the larger of capacity and pinned count |
| `Floor.FloorExactlyWhen` | crates/airc-bus/src/ring.rs:7-15 | in every run whatsoever a ring is within the larger of capacity and pinned count if and only if it is within capacity or its unpersisted durables are its newest |
| `Floor.PinnedTotalBounded` | crates/airc-bus/src/router.rs:310-313 | in every run with fresh ids the pinned entries of all rings number at most the write-behind buffer plus one writer batch |
| `Floor.RingKeepsADurableSuffix` | crates/airc-bus/src/ring.rs:114-118 | in every run whatsoever the durables a ring retains are the newest of all it accepted, with no hole |
| `Floor.SettledAlways` | crates/airc-bus/src/ring.rs:101-146 | in every run every ring is within both bounds or stuck behind a pinned head with no lossy entry but possibly the newest |
| `Floor.NextIsOldest` | crates/airc-bus/src/router/write_behind.rs:31-36 | with in-order sends the event confirmed next is its ring's oldest pinned one |
| `StoreOrder.StoredInOrder` | crates/airc-bus/src/router/write_behind.rs:20-60 | with pushes and sends of a channel in order, its stored rows are at every moment, failed and retried batches included, a prefix of its accepted durables |
| `Ring.CountRetainedBytes` | crates/airc-bus/src/ring.rs:53-61 | payload, header and coalesce-key bytes, whatever order the headers are visited in |
| `Ring.HotRing.constructor` | crates/airc-bus/src/ring.rs:68-75 | an empty ring with capacity at least one |
| `Ring.HotRing.Push` | crates/airc-bus/src/ring.rs:82-87 | an append when count and bytes have room for the new entry; in any case the specified contents, byte total equal to the sum over slots, pinned list extended by a durable event only, never empty, settled |
| `Ring.HotRing.MarkPersisted` | crates/airc-bus/src/ring.rs:92-99 | within both bounds only the first slot with the id is unpinned and nothing else changes; otherwise what may go is then reclaimed; stays settled and non-empty |
| `Ring.HotRing.EvictToCapacity` | crates/airc-bus/src/ring.rs:119-146 | nothing leaves a ring within its count and bytes; otherwise the loop computes the eviction that `EvictTrace` and `EvictUnique` characterise, and keeps the byte total exact |
| `Ring.HotRing.ReplayAfter` | crates/airc-bus/src/ring.rs:153-162 | exactly the retained events after the cursor, in ring order and once each |
| `Ring.EvictExact` | crates/airc-bus/src/ring.rs:114-146 | eviction keeps every pinned entry and a complete suffix of the durables, never empties the ring, and stops only within both bounds or behind a pinned head with no lossy entry but possibly the newest |
| `Ring.EvictTrace` | crates/airc-bus/src/ring.rs:119-146 | every entry that leaves, leaves a ring above its count, or above its byte sum with more than one entry, and is the unpinned head, or behind a pinned head the oldest lossy one (the newest only under count pressure) |
| `Ring.EvictUnique` | crates/airc-bus/src/ring.rs:119-146 | any sequence of such removals that ends settled ends with the same ring |
| `Ring.EvictUnpinned` | crates/airc-bus/src/ring.rs:119-124 | with nothing pinned, what stays is the longest run of newest entries within both bounds |
| `Ring.NothingLeavesWithinBounds` | crates/airc-bus/src/ring.rs:101-105 | if count and bytes have room, a push is exactly an append and a confirmation exactly an unpinning |
| `Ring.ConfirmWithinBounds` | crates/airc-bus/src/ring.rs:92-99 | such a confirmation changes the pin of the first slot with the id and nothing else |
| `Ring.BytesOfRing` | crates/airc-bus/src/ring.rs:53-61 | the byte sum grows by payload, coalesce key and every header name and value of an added entry |
| `Retention.RingHoldsWhatFits` | crates/airc-bus/src/ring.rs:77-87 | in every run, from any moment a ring is empty until the next restart: while what the channel has shown since, but for coalesced ephemerals, is within count and bytes, the ring holds exactly that, in order |
| `Retention.CoalescedIsNeverRinged` | crates/airc-bus/src/router.rs:651-660 | in every run no ring holds a coalesced ephemeral |
| `Ring.EvictSubset` | crates/airc-bus/src/ring.rs:119-146 | survivors come from the ring, in order and still distinct |
| `Ring.EvictedDurable` | crates/airc-bus/src/ring.rs:119-146 | a durable that was evicted was unpinned and precedes every survivor of a sorted ring |
| `Ring.NewestSurvives` | crates/airc-bus/src/ring.rs:126-142 | the pushed entry is dropped if and only if it is lossy and the durables from the first pinned entry on already fill the ring |
| `Ring.NewestDurable` | crates/airc-bus/src/ring.rs:183-189 | the cursor of the last durable retained |
| `Ring.UnpinOldest` | crates/airc-bus/src/ring.rs:92-95 | confirming the oldest pinned entry removes exactly the head of the pinned list |
| `Ring.UnpinnedExactlyWhen` | crates/airc-bus/src/ring.rs:92-95 | a confirmation leaves no slot of its id pinned if and only if no slot of the id after the first was pinned |
| `Ring.UnpinTwice` | crates/airc-bus/src/ring.rs:93-95 | a second confirmation of an id changes nothing |
| `Ring.SettledLength` | crates/airc-bus/src/ring.rs:114-118 | a settled ring whose unpersisted durables are its newest holds at most capacity or exactly its pinned entries |
| `Sink.AppendedValid` | crates/airc-bus/src/sink.rs:246-262 | one append keeps the bucket strictly sorted with unique ids and adds the event unless its id is stored |
| `Sink.BucketIsFirstPerId` | crates/airc-bus/src/sink.rs:246-262 | after any appends in any order the bucket is exactly the first envelope per id |
| `Sink.PartialRetry` | crates/airc-bus/src/sink.rs:44-54 | a batch applied in part and retried whole ends as if applied once |
| `Sink.PageTailIsLastN` | crates/airc-bus/src/sink.rs:352-370 | a tail page is the end of what precedes the gate |
| `Sink.PageTailOfKinds` | crates/airc-bus/src/sink.rs:372-398 | the back-to-front scan returns the newest rows of the kinds before the gate: what it leaves out precedes a full page |
| `Sink.InMemoryDurableSink.ReadForward` | crates/airc-bus/src/sink.rs:329-350 | forward paging with any positive limit reads exactly what follows the cursor |
| `Sink.RowsAfter` | crates/airc-bus/src/sink.rs:329-350 | what follows a cursor: in order, exactly the rows whose cursor it precedes |
| `Selection.PredLaws` | crates/airc-bus/src/envelope.rs:257-269 | a cursor splits events into before, after and at it; a missing bound or kind list admits all; durable means none of the four lossy classes |
| `Selection.NewestRows` | crates/airc-bus/src/sink.rs:352-370 | the newest `n` of a sorted selection: in order, all selected, and whatever is left out precedes `n` that are not |
| `Sink.ReadTail` | crates/airc-bus/src/sink.rs:352-370 | the newest rows before the gate, in order; what it leaves out precedes a full page |
| `Sink.ReadBackward` | crates/airc-bus/src/sink.rs:352-370 | backward tail paging with any positive limit rebuilds the bucket |
| `Sink.InMemoryDurableSink.Append` | crates/airc-bus/src/sink.rs:246-262 | the bucket changes to the specified one, the counter only for a new id, other channels not at all |
| `Sink.InMemoryDurableSink.AppendBatch` | crates/airc-bus/src/sink.rs:49-54 | each channel's bucket receives exactly its own events of the batch, in order |
| `Sink.InMemoryDurableSink.ReadPage` | crates/airc-bus/src/sink.rs:329-350 | the scan returns stored rows after the cursor in order, at most `limit`, and every such row it leaves out follows a full page; only the page counter changes |
| `Sink.InMemoryDurableSink.HeadCursor` | crates/airc-bus/src/sink.rs:264-271 | the cursor of a stored event that no other passes, none exactly for an empty bucket |
| `RecentIds.RecentEventIds.Insert` | crates/airc-bus/src/router.rs:162-173 | true exactly for an id not in the window, which is then appended, a full window losing its first entry; otherwise nothing changes |
| `RecentIds.RecentEventIds.Remove` | crates/airc-bus/src/router.rs:180-184 | exactly that id leaves the window, set and queue in step |
| `RecentIds.UnmarkRestores` | crates/airc-bus/src/router.rs:793-806 | marking then unmarking restores the window if and only if it was not full |
| `RecentIds.WindowIsNewest` | crates/airc-bus/src/router.rs:162-173 | after any number of different ids the window is the newest of them, as many as it holds |
| `HistoryReads.DurableTailFiltered` | crates/airc-bus/src/router/history.rs:157-221 | the newest `limit` accepted durables of the wanted kinds before the gate, on the events' own fields: in order, and whatever is left out precedes a full page; though taken half from the ring and half from the store, for every ring and later read that `Replay.SeamAtAnyRead` covers |
| `HistoryReads.DurableTip` | crates/airc-bus/src/router/history.rs:61-72 | whenever the store is read, the tip is the cursor of an accepted event and no durable accepted before the snapshot lies past it; exactly the newest one if nothing was stored meanwhile |
| `HistoryReads.ResumeFromCursor` | crates/airc-bus/src/router/history.rs:290-343 | for the same reads, the first `limit` of stored rows behind the ring and ring entries after the cursor; a short page holds every durable after it |
| `Subscription.GatedInOrder` | crates/airc-bus/src/router/subscribe.rs:185-195 | on an ordered leg the moving watermark drops nothing but what the first gate drops |
| `Subscription.GatedExactlyWhen` | crates/airc-bus/src/router/subscribe.rs:185-209 | whatever the order of a leg, it yields exactly the events at positions that satisfy the filter, lie after the first gate and come after everything before them that does |
| `Subscription.LiveLegIsWhole` | crates/airc-bus/src/router/subscribe.rs:197-209 | the live leg yields every event if and only if they arrive in cursor order and after everything replayed |
| `Subscription.DrainGated` | crates/airc-bus/src/router/subscribe.rs:186-209 | the loop computes the gated leg and leaves the watermark at its last event |
| `Subscription.DrainPage` | crates/airc-bus/src/router/subscribe.rs:151-173 | for any page, the gated wanted rows before the first row at or past the ring's oldest entry, and whether that row was reached |
| `Subscription.DeepReplay` | crates/airc-bus/src/router/subscribe.rs:135-183 | for any successive states of the store, the paging loop computes the specified stored leg and leaves the watermark at its last row |
| `Subscription.DeepIsExact` | crates/airc-bus/src/router/subscribe.rs:128-183 | while rows behind the ring are only added at the end, a leg that ends by itself yields exactly the wanted rows after the cursor, one cut short by a failure a prefix |
| `Subscription.DeepIsSound` | crates/airc-bus/src/router/subscribe.rs:151-173 | however the store changes between reads, the leg is in order and every row was read, is wanted, and lies after the cursor and before the ring |
| `Subscription.EnoughReads` | crates/airc-bus/src/router/subscribe.rs:135-183 | the stored leg ends by itself: with pages of `n`, more reads than there are full pages behind the ring always reach the last page |
| `Subscription.Stream` | crates/airc-bus/src/router/subscribe.rs:123-210 | for any reads, ring and live queue, the three loops yield the specified stream, whose meaning `Streams` proves |
| `Subscription.StreamIsExact` | crates/airc-bus/src/router/subscribe.rs:11-22 | if every read shows the same rows behind the ring and the legs follow one another, each wanted event after the cursor is yielded once, in order |
| `Streams.YieldedExactlyWhen` | crates/airc-bus/src/router/subscribe.rs:123-210 | for every unlagged registration, with no assumption on order, ids, ring or reads: sent are exactly the matching events shown since, and an event is yielded if and only if it was replayed, or sent at a position after the replay watermark and after everything sent before it |
| `Streams.LiveLegOfRun` | crates/airc-bus/src/router/subscribe.rs:197-209 | and everything sent is yielded in the order it was sent if and only if it was sent in cursor order and after everything replayed |
| `Streams.StreamOfRun` | crates/airc-bus/src/router/subscribe.rs:6-22 | for a registration on a ring that holds anything, in every run with fresh ids and pushes in order, wherever the pages are read: an unlagged stream is sorted, its durables are (unless a read failed) exactly the accepted durables on the filter after the cursor, and every matching event shown since is in it |
| `Streams.DroppedExactlyWhen` | crates/airc-bus/src/router/subscribe.rs:197-209 | for a registration on an empty ring the stream is sorted, and an event sent to the subscriber is never yielded if and only if the stored leg missed it and yielded a row that sorts after it |
| `Streams.EmptyRingDurables` | crates/airc-bus/src/router/subscribe.rs:6-22 | with sends in order too, an empty-ring registration loses and repeats no durable |
| `Fanout.UnlaggedIsComplete` | crates/airc-bus/src/router.rs:663-699 | in every run a subscriber never flagged as lagging has been sent exactly the matching events of its channel since it registered, in lock order, once each |
| `Fanout.SentIsSubsequence` | crates/airc-bus/src/router.rs:684-698 | in every run a subscriber, lagged or not, has been sent a subsequence of the matching events since it registered |
| `Delivery.SentExactlyWhen` | crates/airc-bus/src/filter.rs:58-73 | in every run, on the fields of filter and event: a subscriber is sent only events of its channel, listed kinds, listed classes and matching headers shown since it registered; unlagged and open, every one of them |
| `HeaderFilters.FilterLaws` | crates/airc-bus/src/filter.rs:29-73 | the channel filter takes exactly the channel; adding a kind list, class list or header predicate keeps exactly the members of the list or those that satisfy it |
| `HeaderFilters.ListLaws` | crates/airc-core/src/headers.rs:127-139 | `Not` is the complement; `All` and `AnyOf` split at their last member and start from true and false |
| `HeaderFilters.ListDuality` | crates/airc-core/src/headers.rs:134-137 | `All` and `AnyOf` are dual under `Not` |
| `HeaderFilters.HeaderValues` | crates/airc-core/src/headers.rs:127-137 | an exact value, and one that begins with the prefix, match and no other; an exact value is a prefix of itself; the empty prefix only asks for the header |
| `Delivery.FewEventsNeverLag` | crates/airc-bus/src/router.rs:684-693 | in every run a queue stays within its buffer, and while the channel has shown no more of what a subscriber wants than that, it has not lagged |
| `Delivery.ReaderDrains` | crates/airc-bus/src/router/subscribe.rs:197-209 | reading as often as events are queued receives them all, in order |
| `Delivery.GoneGetsNothing` | crates/airc-bus/src/router.rs:694-698 | once its receiver is gone a registration is sent nothing more and not flagged; once it has left it does not come back |
| `Lagging.ResumeCoversExactlyWhen` | crates/airc-bus/src/router/subscribe.rs:31-34 | in every run in sequence order, what was delivered plus a catch-up from the last of it is exactly the durables owed, once each, if and only if nothing was delivered past a refused durable |
| `Lagging.CatchUpIsReplayed` | crates/airc-bus/src/router/history.rs:223-226 | that catch-up is what replaying ring and store from the cursor shows |
| `Fanout.StreamFits` | crates/airc-bus/src/router/subscribe.rs:6-22 | in every run with fresh ids and in-order pushes an unlagged registration on a non-empty ring meets what `StreamIsExact` asks: unchanging rows behind the ring, legs in order, live leg exactly the matching events since |
| `Fanout.BehindIsFixed` | crates/airc-bus/src/router/subscribe.rs:14-17 | every later read of the store shows the same rows behind the registration's ring |
| `Fanout.FanOut` | crates/airc-bus/src/router.rs:679-699 | visiting the index, testing each whole filter and offering gives every subscriber what offering to everyone would |
| `Fanout.Register` | crates/airc-bus/src/router/subscribe.rs:84-92 | registering keeps the index and the registrations in step |
| `Fanout.CandidatesSuffice` | crates/airc-bus/src/router.rs:679-682 | who is not a candidate of the index would have refused the event |
| `Fanout.OfferKeeps` | crates/airc-bus/src/router.rs:679-698 | one offer keeps an unlagged subscriber complete, and a refused one flags it |
| `Dedup.AtMostOnce` | crates/airc-bus/src/router.rs:743-763 | at every point of a disciplined run no id has been reported published twice by one daemon, no channel has accepted it twice (what earlier daemons stored included), an accepted id that a transport brings in again is in window or store, and the window holds only accepted and in-flight ids |
| `Dedup.RejectionLeavesNoTrace` | crates/airc-bus/src/router.rs:599-608 | in every state a run can reach, a publish refused for capacity changes the shed count alone, and for `publish_if_new` also a window that was full |
| `Dedup.WindowIsBounded` | crates/airc-bus/src/router.rs:166-170 | in every run the window holds at most its capacity |
| `Dedup.OnceStartIfNew` | crates/airc-bus/src/router.rs:777-792 | marking a new id before the store is asked keeps the invariant |
| `Dedup.OnceProbe` | crates/airc-bus/src/router.rs:807-814 | so do a failed, a positive and a negative store probe |
| `Dedup.OncePush` | crates/airc-bus/src/router.rs:639-713 | and the push, whose id no other call and no earlier event of its channel carries |
| `Order.SerializedPushesAreInOrder` | crates/airc-bus/src/router.rs:617-642 | if no push overtakes an earlier-stamped call of its channel, every channel shows and rings events in sequence order, restarts included |
| `Order.OrderAlways` | crates/airc-bus/src/seq.rs:86-108 | every stamp in use was issued by this daemon or an earlier one, and waiting calls exceed all that was shown |
| `Scenarios.CrossedPushesLeaveAGap` | crates/airc-bus/src/router.rs:617-642 | a run with fresh ids in which an accepted durable is stored and yet in neither half of a replay |
| `Scenarios.CrossedPushesDropALiveEvent` | crates/airc-bus/src/router/subscribe.rs:197-209 | from any cursor, a run with fresh ids and a non-empty ring in which an unlagged subscriber is sent two crossed durables and never yields one |
| `Scenarios.LaggedResumeMissesTheRefused` | crates/airc-bus/src/router.rs:24-28 | a run in which a lagged subscriber was neither delivered a durable nor finds it by catching up from its last cursor |
| `Scenarios.EmptyRingCanLoseALiveEvent` | crates/airc-bus/src/router/subscribe.rs:139-209 | for every delivery class that goes through the ring, a run with pushes in order and no failed read in which an unlagged subscriber never yields an event it was sent |
| `Scenarios.RolledIdIsPublishedTwice` | crates/airc-bus/src/router.rs:166-170 | for every window size, a run that fills the window and then publishes its first id again |
| `Scenarios.RolledIdOfTheWindow` | crates/airc-bus/src/router.rs:142 | the same for the window of 4096 |
| `Scenarios.PublishedExactlyWhen` | crates/airc-bus/src/router.rs:777-822 | a `publish_if_new` of any class that runs alone reports Published if and only if its id is in neither window nor store and, when durable, queued entries plus reserved permits are below the write-behind buffer |
| `Scenarios.RollingOffReopens` | crates/airc-bus/src/router.rs:166-170 | from any reached state, a published id in neither window nor store can be published and shown again, as an event of any class for which there is room |
| `Scenarios.CrossedSendsOverfillTheRing` | crates/airc-bus/src/router.rs:715-720 | a run in which two sends cross and the ring ends above both its capacity and its pinned count |
| `Scenarios.RepeatedIdStaysPinned` | crates/airc-bus/src/ring.rs:92-95 | a run in which one id occupies two slots and, with all stored and confirmed, the second is still pinned |
| `SeqSources.SeqSource.Next` | crates/airc-bus/src/seq.rs:105-108 | the next pair of this epoch, the counter advancing modulo 64 bits |
| `SeqSources.EpochStore.BumpAndLoad` | crates/airc-bus/src/seq.rs:62-65 | the persisted epoch grows by one and is returned |
| `SeqSources.RunLifetimes` | crates/airc-bus/src/seq.rs:79-108 | driving the objects through any daemon starts issues the specified sequence |
| `SeqSources.GenerationalOrder` | crates/airc-bus/src/seq.rs:86-108 | over any starts and seeds the issued pairs strictly increase if and only if no lifetime runs its counter past 64 bits |
| `SeqSources.LaterDaemonsExceed` | crates/airc-bus/src/seq.rs:86-90 | every pair issued by starts over an epoch store carries a higher epoch than the store held before them, whatever the seeds |
| `SeqSources.LaterStampsFollow` | crates/airc-bus/src/envelope.rs:250-263 | an event stamped later has the later cursor whatever the ids |
| `SeqSources.CursorsAreTotallyOrdered` | crates/airc-bus/src/envelope.rs:257-269 | cursor comparison is a strict total order: by epoch, then counter, then event id |
| `SubscriberIndexes.ExactKey` | crates/airc-bus/src/subscriber_index.rs:14-24 | no header map without the named pair can match the filter, at any nesting |
| `SubscriberIndexes.KeyedExactlyWhen` | crates/airc-bus/src/subscriber_index.rs:14-24 | a filter is filed under a header value if and only if it is an exact value or a conjunction that holds one at some depth |
| `SubscriberIndexes.SubscriberIndex.Insert` | crates/airc-bus/src/subscriber_index.rs:39-54 | the new registration is filed where its filter says and nowhere else |
| `SubscriberIndexes.SubscriberIndex.Remove` | crates/airc-bus/src/subscriber_index.rs:56-81 | exactly that registration goes, no empty bucket remains, and a stale request changes nothing |
| `SubscriberIndexes.SubscriberIndex.Visit` | crates/airc-bus/src/subscriber_index.rs:92-107 | visited are, at most once each, exactly the registered subscribers whose named header value, if any, the event carries; so every one whose filter matches |
| `SubscriberIndexes.TakeBuckets` | crates/airc-bus/src/subscriber_index.rs:56-81 | removal empties one bucket entry, leaves all others, and leaves no empty bucket |
| `Ephemeral.SweepIsUnobservable` | crates/airc-bus/src/ephemeral.rs:54-120 | for any writes and sweeps, a read no earlier than any of them sees the last write per key judged by its own time to live, as if no sweep had run |
| `Ephemeral.BackwardClockShowsSweep` | crates/airc-bus/src/ephemeral.rs:88-93 | with a clock that runs backwards a sweep is visible |
| `Ephemeral.LiveExactlyWhen` | crates/airc-bus/src/ephemeral.rs:54-120 | whatever else is written and swept, the last value under a key can be read until exactly its time to live after it was written, and for ever if that is zero; the time is its header's number, else the cache's own |
| `Ephemeral.ParsedExactlyWhen` | crates/airc-bus/src/ephemeral.rs:60-64 | the header number is read back from its decimal text, signed or not, exactly if it fits 64 bits; any other text is no number |
| `Ephemeral.SharedSlot` | crates/airc-bus/src/ephemeral.rs:51-59 | keyed values share a slot exactly if their keys agree, keyless ones exactly if they are the same event |
| `Ephemeral.RunOps` | crates/airc-bus/src/ephemeral.rs:54-93 | the cache object computes the specified map |
| `Ephemeral.EphemeralCache.Coalesce` | crates/airc-bus/src/ephemeral.rs:54-72 | the newest value per key with its own time to live from its header, zero meaning never |
| `Ephemeral.EphemeralCache.Get` | crates/airc-bus/src/ephemeral.rs:75-83 | the live value of the key, none when absent or expired |
| `Ephemeral.EphemeralCache.Sweep` | crates/airc-bus/src/ephemeral.rs:88-93 | exactly the expired entries go, and their number is returned |
| `Ephemeral.EphemeralCache.Snapshot` | crates/airc-bus/src/ephemeral.rs:98-104 | each live value once |
| `Ephemeral.EphemeralCache.LiveLen` | crates/airc-bus/src/ephemeral.rs:107-112 | the number of live keys |
| `Forward.LatestWins` | crates/airc-bus/src/router.rs:215-230 | in every interleaving emissions of a slot strictly advance in put order, a stored value is the last one put, and uncoalesced items leave in queue order |
| `Forward.SharedSlot` | crates/airc-bus/src/router.rs:205-281 | two items share a slot if and only if both are latest-only, both carry a coalesce key, and room, publisher and key agree, whatever link they came in on; anything else has no slot |
| `Forward.OfferLeavesOthers` | crates/airc-bus/src/router.rs:530-532 | in every run an offer replaces the pending value of its own room, publisher and key and leaves every other one as it was |
| `Forward.EmitsItsOwn` | crates/airc-bus/src/router.rs:253-261 | in every run what a wake emits is of its own room, publisher and key |
| `Forward.LastOfferIsEmitted` | crates/airc-bus/src/router.rs:205-261 | once drained, the last value a publisher offered in a room under a key has gone out if and only if no refusal stranded it |
| `Forward.NothingLostWithRoom` | crates/airc-bus/src/router.rs:530-570 | with room for every wake, once drained, every uncoalesced item ever offered has gone out and the last value of every room, publisher and key; both loss counters are zero |
| `Forward.RefusedIsCounted` | crates/airc-bus/src/router.rs:534-570 | a wake is refused exactly by a full queue, and counted as superseded or dropped by its class and key |
| `Forward.EmitsTheNewest` | crates/airc-bus/src/router.rs:244-261 | a wake that emits at all emits the last value put for its key |
| `Forward.DrainedUnlessStranded` | crates/airc-bus/src/router.rs:530-570 | once drained, the last value of a key was emitted if and only if no refusal met it without another wake of its key on the way |
| `Forward.RefusedWakeStrandsItsValue` | crates/airc-bus/src/router.rs:538-554 | a run in which a full queue without a wake of the key strands its value |
| `Forward.SoundAlways` | crates/airc-bus/src/router.rs:530-570 | the invariant behind these, over every interleaving of offers, sends, takes and resolves |
| `Forward.Drive` | crates/airc-bus/src/router.rs:514-570 | the shared map, its queue and the forwarder, driven through any interleaving, emit exactly what the machine of these theorems emits, whose slots `Forward.SharedSlot` pins to room, publisher and key |
| `Forward.ForwardPath.Offer` | crates/airc-bus/src/router.rs:530-536 | the value is put before its wake is offered, as the machine's offer step |
| `Forward.ForwardLatest.Resolve` | crates/airc-bus/src/router.rs:253-261 | an unkeyed item unchanged; a keyed one replaced by the stored value, which is consumed |
| `Mesh.FloodIsBounded` | crates/airc-bus/src/router.rs:768-776 | over any finite link graph each node accepts an event once and total forwards are at most the directed links |
| `Mesh.ForwardedExactlyWhen` | crates/airc-lib/src/route_forwarder.rs:29-39 | in every run, lossy or not, the frames ever sent are exactly one per link out of an accepting node, except back over the link its first arrival came from |
| `Mesh.EveryStepShrinks` | crates/airc-lib/src/route_forwarder.rs:29-39 | every delivery and loss strictly shrinks the remaining work, so the flood ends |
| `Mesh.FloodReachesEveryone` | crates/airc-lib/src/route_forwarder.rs:29-39 | when a loss-free flood stops, the accepting nodes are exactly those reachable from the origin |
| `Mesh.AcceptedIsReachable` | crates/airc-bus/src/router.rs:768-776 | whatever is lost, only reachable nodes accept |
| `CivilDate.CivilIsExact` | crates/airc-cli/build.rs:88-98 | every integer day count gives a valid proleptic Gregorian date whose day count it is |
| `CivilDate.CivilInvertsDayNumber` | crates/airc-cli/build.rs:88-98 | every valid date comes back from its day count |
| `CivilDate.CivilFollowsTheCalendar` | crates/airc-cli/build.rs:88-98 | the next day count gives the calendar's next day |
| `CivilDate.EpochDay` | crates/airc-cli/build.rs:88-98 | day zero is 1970-01-01 |
| `CivilDate.YearsByFormula` | crates/airc-cli/build.rs:92-94 | counting years one by one, 365 or 366 days each, agrees with the 4/100/400 closed form before year 1 as well |
| `CivilDate.YearOfEraExact` | crates/airc-cli/build.rs:92-94 | the year formula finds the year that contains the day of the era |
| `CivilDate.TimestampInverts` | crates/airc-cli/build.rs:80-101 | every second gives valid fields that give the second back |
| `CivilDate.TimestampsIncrease` | crates/airc-cli/build.rs:80-101 | a later second gives a strictly later timestamp |
| `Blobs.ReadVerifiedInto` | crates/airc-blobs/src/fs.rs:72-152 | ends under any chunking and finitely many interruptions; on a file that does not change, whatever the chunks: Ok if and only if the size is within the limit, the content has it and its digest is the referenced one, and each error, with what it carries, exactly in its own case; not-found only for a missing file; on a changing file success still means the right size and digest, and output never exceeds the size |
| `Blobs.VerifyJudges` | crates/airc-blobs/src/lib.rs:108-140 | the one-shot check gives Ok and each of its errors exactly when it should |
| `BlobGc.Run` | crates/airc-blobs/src/gc.rs:98-159 | the age phase tries exactly the blobs more than the maximum age older than now (those before the epoch if that time cannot be represented), copy for copy; what it could not delete and the young ones go on; freed, remaining and already-gone bytes are the scanned bytes; capacity deletes go oldest first, each was still needed, and stop at the cap or the end |
| `BlobGc.DeleteAged` | crates/airc-blobs/src/gc.rs:98-109 | the age phase, in terms of now, maximum age and modification time |
| `BlobGc.DeleteOldest` | crates/airc-blobs/src/gc.rs:111-138 | the capacity phase of a run: a permutation of the list, tried oldest first, stopping exactly when the cap is met or the list used up |
| `BlobGc.OneMoreBlob` | crates/airc-blobs/src/gc.rs:148-159 | what one more blob adds to the sums the report speaks of |
| `BlobGc.AgePhase` | crates/airc-blobs/src/gc.rs:99-109 | keeps exactly the young blobs and those whose delete was refused |
| `BlobGc.CapacityPhase` | crates/airc-blobs/src/gc.rs:114-130 | stops exactly when the cap is met or the list is used up |
| `BlobGc.DeleteOne` | crates/airc-blobs/src/gc.rs:148-159 | a missing file is a success that frees nothing |
| `BlobGc.WithoutRefusalsTheCapHolds` | crates/airc-blobs/src/gc.rs:114-130 | without refused deletes the run ends within the cap |
| `BlobGc.SortPermutes` | crates/airc-blobs/src/gc.rs:117 | sorting by age is a permutation |
| `Keeper.NeverHammers` | crates/airc-cli/src/commands.rs:440-479 | under a monotone clock any two restarts are a retry interval apart, resets by long-held connections included |
| `Keeper.WaitsOnce` | crates/airc-cli/src/commands.rs:468-478 | a wait is positive, at most the interval, and followed by a restart |
| `Keeper.DecidedExactlyWhen` | crates/airc-cli/src/commands.rs:462-479 | the keeper waits if and only if it restarted the daemon less than the interval ago, and the wait ends exactly one interval after that restart |
| `Keeper.KeepDaemon` | crates/airc-cli/src/commands.rs:370-393 | the loop takes the specified decision at every turn |
| `Keeper.DaemonKeeper.OnClosed` | crates/airc-cli/src/commands.rs:462-466 | only a connection held a full interval clears the memory |
| `Keeper.DaemonKeeper.OnDown` | crates/airc-cli/src/commands.rs:468-478 | restart at once or wait out the interval, remembering a restart |

## Left out

- Tokio channels, tasks, atomics and mutexes as mechanisms: they are bounded sequences, atomic steps and plain fields.
- Shards: a lock stripe changes which calls wait for each other, not what a step does.
- Cancellation of `publish_if_new` while it awaits the store, and a forward receiver that has gone away.
- The 64-bit wrap of the counter inside the router (`SeqSources` has it), and `usize` overflow of byte totals.
- Ephemeral coalescing inside the router machine: such events are only fanned out there; the cache is modelled on its own.
- `matching_history` and `count_matching`: the same merge as the modelled reads with a richer predicate.
- The `target` and `correlation_id` fields of an envelope, serialisation, and validation of header text.
- Retry delays of the writer: a failed attempt is a step, and when it is retried does not matter.
- Acknowledgements, re-signing and retries of the LAN forwarder, and the daemon's other transports.
- Ids of a mesh node's window that roll off: in the flood a node remembers an accepted id for ever.
- SHA-256, hexadecimal printing, file layout, directory walking and `put`; scanned metadata and delete outcomes are inputs.
- Zero-padded printing of the timestamp, and a clock before the epoch, which the original clamps to zero.
- The rest of the command line, ACP transport, Windows code, JavaScript widgets, tracing, diagnostics and retention snapshots: they change no state the properties speak about.
- Bus.CallsStayOffLock: the forward offer that ends a publish is not a step of the router machine; it is a step of `Forward`, which needs nothing else of the router.
- Fanout.StreamFits: asks for a ring that holds something; `Streams.DroppedExactlyWhen` covers an empty one.
- Channel.SeamLater: asks for a ring that holds something; `Channel.StoreExtends` and `Replay.SeamAtAnyRead` cover an empty one.
- Streams.StreamOfRun: asks for pushes in order, without which the promise is false; `Streams.YieldedExactlyWhen` asks for nothing and is exact.
- Streams.DroppedExactlyWhen: likewise the in-order reading of `Streams.YieldedExactlyWhen` for an empty ring.
- Lagging.ResumeCoversExactlyWhen: asks for pushes in order; without them replay from a cursor is itself not whole.
