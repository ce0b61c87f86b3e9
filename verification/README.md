# A verified model of wazo-chatd's connectors and presence initiator

wazo-chatd keeps chat rooms and presence for Wazo users. This project models its two intricate parts and proves
what they promise.

**The connector subsystem** carries messages between rooms and outside networks.

- `ConnectorStore.dfy`: the cache of connector objects with time to live, single-flight fetch and epochs. Each block
  under the fetch lock, the reading of the configuration between them, and each return is one step of an arbitrary
  interleaving of any number of threads; classes show the blocks on the object, the protocol proves what every run
  keeps. `StoreExpiry.dfy`: the time to live over the same runs.
- `AsyncQueue.dfy`: the lock-free queue of many producers and one consumer, at the grain of single reads and writes.
- `KeyedLock.dfy`: the map of asyncio locks that cleans itself up, with waiters that are woken but not yet resumed, and
  cancellation.
- `DeliveryRunner.dfy` and `NotifyPayload.dfy`: LISTEN/NOTIFY with a recovery scan, tasks and timers of deliveries.
- `DeliveryStatus.dfy`, `OutboundRetry.dfy` and `InboundProcessing.dfy`: the retry machine, status updates, recovery and
  inbound deduplication.
- `Cadence.dfy`: the poller's interval as a controlled quantity, in real arithmetic.
- `Visibility.dfy`: who is sent a message's created event and who may see the message.
- `RoomConvergence.dfy`: the two ways in which a room's members are computed and a room is found.
- `ConnectorRegistry.dfy` and `Reachability.dfy`: the registry's cache, and who can send to whom.

**The presence initiator** replaces cached tables by a snapshot fetched from other services.

- `Batching.dfy`: fetching page by page from an arbitrary server; bulk statements in chunks.
- `PresenceCache.dfy`: the tables, their keys and cascades; reconciliation of one table by creating, then deleting.
- `Initiator.dfy`: each step as a function of database and snapshot. `InitiatorMethods.dfy`: the same steps as methods
  that work on the database in place. `InitiatorProofs.dfy`, `InitiationProofs.dfy` and `Reinitialization.dfy`: what each
  step, the whole run and a second run leave. `SnapshotTables.dfy`: what that is, row by row, in terms of the snapshot.

How things are modelled: an exception is a result; a clock reading, a random sample, an answer of the network or of a
remote service, and the order in which a set or an unordered query is traversed, are parameters or arbitrary choices; a
transaction is one step that commits or changes nothing; SHA-256 and uuid5 are functions about which nothing is known
(where derived ids must differ from user ids or from each other, the lemma says so); instances of connectors carry the step at which their
builder read its epoch.

## Where a promise fails

Wherever a condition decides, it is stated exactly and over all inputs; otherwise a run or input shows the failure.

- A caller that joins a fetch can be handed an instance older than a `drop` that preceded its call
  (`GetIsStaleExactlyWhen`, `StaleFollowerRun`); the cache itself is always fresh.
- With several producers a queue can exceed its maximum size (`MaximumKeptExactlyWhen`).
- A cancelled waiter can leave a map entry behind (`UnusedExactlyWhen`, `CancelledWaiterLeavesEntry`).
- An aborted task forgets its delivery unless a timer was set and fires only after the done callback
  (`AbortForgetsExactlyWhen`). A later scan brings it back, unless its ended task is still booked as the scan
  re-enqueues the row it read: a pending row without a timer is then skipped (`ScanAnchorsExactlyWhen`). That happens
  when the task aborts while the scan is under way (`AbortDuringScanForgets`, `ForgottenInARun`).
- Recovery replaces the delay a provider asked for by the table's (`RecoveryRepeatsDelay`).
- A late send attempt overwrites DELIVERED (`DeliveredIsFinalForUpdates`).
- A rate limit raises the floor above the poller's interval. The interval is then out of range, and idle polls that
  are split up can move it further than one poll over the same time (`SplittingMovesNoFurtherExactlyWhen`,
  `RateLimitSpeedsUp`), nor need the gap shrink by the product of (1 - rate) in the first step
  (`GapDecaysExactlyWhen`). The same goes for an interval left above the maximum, after work.
- An identity shared between a user of the tenant and another user can split a conversation in two rooms
  (`MembersAgreeExactlyWhen`). The recipient of an answer is looked up without backend and tenant, although the table
  only keeps a number from being bound twice on one backend: a number that two users have on different backends can
  take the answer to the wrong room or tenant (`ReplyFindsItsRoomExactlyWhen`).
- A sender offered between two users may have no recipient on its backend, and one offered toward a bound external
  identity may be refused (`OfferedBetweenUsers`, `OfferedToBoundIdentity`).
- A listing whose source shrinks meanwhile misses items (`ShrinkingSourceLosesAnItem`), as the note in the code warns;
  one that only grows at its end does not (`GrowingSourceLosesNothing`).
- A user that changes tenant, or a session that changes user, both owners being kept, makes the initialization fail
  (`InitializationMirrors`), for a user again on every retry (`FailsAgain`); a session that names another tenant than
  its user's, or a refresh token that does, makes the next run fail (`RepeatableExactlyWhen`,
  `TokensRepeatableExactlyWhen`).

## Model

| member | source | states |
|---|---|---|
| `StoreBlocks.ConnectorStore.GetCached` | wazo_chatd/plugins/connectors/store.py:196-200 | the lock-free read answers the cached instance exactly if there is one and its expiry (zero if missing) has not passed, and changes nothing |
| `StoreBlocks.ConnectorStore.Drop` | wazo_chatd/plugins/connectors/store.py:157-163 | the critical section of `drop`: instance and expiry of the key go, its epoch moves on only if a fetch is pending |
| `StoreBlocks.ConnectorStore.EnterFetch` | wazo_chatd/plugins/connectors/store.py:206-213 | the critical section of `_fetch`: cached again, joins the pending future, or becomes the leader of a new one (`StoreExpiry.EnterServesExactlyWhen` says which) |
| `StoreBlocks.ConnectorStore.ReadEpoch` | wazo_chatd/plugins/connectors/store.py:236-237 | a leader reads the epoch of its key under the lock; no epoch counts as zero |
| `StoreBlocks.ConnectorStore.ForgetOnHttpError` | wazo_chatd/plugins/connectors/store.py:246-249 | an HTTP error removes the cached instance and its expiry and leaves epochs and pending fetches |
| `StoreBlocks.ConnectorStore.Publish` | wazo_chatd/plugins/connectors/store.py:262-267 | the instance is cached exactly when the epoch is still the one read before building it |
| `StoreBlocks.ConnectorStore.LeaveFetch` | wazo_chatd/plugins/connectors/store.py:225-228 | the leader takes its future and the epoch of the key out of the maps, success or failure |
| `StoreProtocol.RunInv` | wazo_chatd/plugins/connectors/store.py:157-281 | what every interleaved step of any number of threads keeps, over whole runs |
| `StoreProtocol.CachedAfterEveryDrop` | wazo_chatd/plugins/connectors/store.py:157-281 | in every run a cached instance was built by a leader that read its epoch after every drop of the key so far |
| `StoreProtocol.CacheHitAfterDropIsFresh` | wazo_chatd/plugins/connectors/store.py:165-168 | a `get` that starts after a drop and is served from the cache never returns a pre-drop instance, whatever the others do meanwhile |
| `StoreProtocol.GetIsStaleExactlyWhen` | wazo_chatd/plugins/connectors/store.py:157-216 | a `get`, however it returns, hands out an instance older than a drop that preceded the call if and only if it joined a fetch whose leader had by then read its epoch, and before the last such drop; drops during the call make no difference |
| `StoreProtocol.FollowerStaleExactlyWhen` | wazo_chatd/plugins/connectors/store.py:210-216 | the same for a call that joined at a known step |
| `StoreProtocol.StaleFollowerRun` | wazo_chatd/plugins/connectors/store.py:157-216 | a run in which a call that starts after a drop does get an instance older than that drop: freshness holds of the cache only |
| `StoreProtocol.OneLeaderPerKey` | wazo_chatd/plugins/connectors/store.py:202-228 | single flight: two threads that lead a fetch of one key are the same thread |
| `StoreProtocol.DomainsAgree` | wazo_chatd/plugins/connectors/store.py:157-281 | outside locked blocks cache and expiry have equal domains and every epoch has a pending fetch |
| `StoreProtocol.FollowerHasHope` | wazo_chatd/plugins/connectors/store.py:215-228 | no orphan: a waiting follower can return, or its leader can step, and every step of the leader brings it nearer to settling the future |
| `StoreProtocol.SharedOutcome` | wazo_chatd/plugins/connectors/store.py:215-228 | all who return through one future return the same instance or exception |
| `StoreProtocol.OutcomeIsTheLeaders` | wazo_chatd/plugins/connectors/store.py:215-281 | what they return is the instance the leader built, cached or not, or the error it met; and the leader leaves no future or epoch behind |
| `StoreExpiry.EntryChanges` | wazo_chatd/plugins/connectors/store.py:157-281 | at every event of every run: a drop or an HTTP error removes the entry of its key, a fetch replaces it with what it built and its expiry exactly if the key was not dropped since the epoch was read, and nothing else touches it |
| `StoreExpiry.CachedWasPublished` | wazo_chatd/plugins/connectors/store.py:262-267 | in every run whatever is cached was built and published for its key, expires when its publisher said, and the key has seen neither drop nor HTTP error since |
| `StoreExpiry.EnterServesExactlyWhen` | wazo_chatd/plugins/connectors/store.py:196-213 | under the lock an entry that is there and has not expired is served without a fetch; otherwise the call joins the pending fetch or starts one |
| `StoreExpiry.ServedUnderLock` | wazo_chatd/plugins/connectors/store.py:206-208 | what is served under the lock was published before for that key with an expiry that has not passed |
| `StoreExpiry.LookServesExactlyWhen` | wazo_chatd/plugins/connectors/store.py:165-168 | without the lock the cache is looked at exactly if the expiry seen has not passed, and what is cached by then is served |
| `StoreExpiry.LooksOnlyUnexpired` | wazo_chatd/plugins/connectors/store.py:196-200 | a call looks at the cache without the lock only after an expiry published before for the key that has not passed (at a positive clock) |
| `StoreExpiry.ServedInTime` | wazo_chatd/plugins/connectors/store.py:165-213 | a whole call served from the cache got an instance published for its key, under an expiry that had not passed when it looked at the clock |
| `QueueProtocol.RunInv` | wazo_chatd/plugin_helpers/queue.py:46-78 | the invariant of producers and consumer at the granularity of their single reads and writes, over whole runs |
| `QueueProtocol.SuspendedConsumerWillWake` | wazo_chatd/plugin_helpers/queue.py:46-78 | no lost wake-up: with an item queued, a suspended consumer's future is done or a producer stands between its append and the `set_result` of that very future; that it then takes the item is `ConsumerGoesOn` |
| `QueueProtocol.ResolverResolves` | wazo_chatd/plugin_helpers/queue.py:46-60 | such a producer has that future done within three of its own steps |
| `QueueProtocol.NothingStranded` | wazo_chatd/plugin_helpers/queue.py:46-78 | with all producers at rest a consumer that waits on an unfinished future has consumed everything appended |
| `QueueProtocol.ConsumerGoesOn` | wazo_chatd/plugin_helpers/queue.py:69-78 | progress: with an item queued a consumer inside that does not wait on an unfinished future has a step of its own, and each brings it nearer to taking the oldest item, or takes it |
| `QueueProtocol.ConsumerGoesOnToWait` | wazo_chatd/plugin_helpers/queue.py:69-78 | in an empty queue it goes on until it waits on a future it has published |
| `QueueProtocol.OthersLeaveTheConsumer` | wazo_chatd/plugin_helpers/queue.py:46-78 | nobody else moves the consumer, except by cancelling it where it waits, and nobody else takes an item |
| `QueueProtocol.TakenWithinThreeSteps` | wazo_chatd/plugin_helpers/queue.py:69-78 | over a run: from such a moment the oldest item is taken within three of the consumer's own steps, whatever happens in between, unless it is cancelled |
| `QueueProtocol.EveryCallTakesOneItem` | wazo_chatd/plugin_helpers/queue.py:69-78 | calls begun are items taken plus calls cancelled, plus one while a call is under way, in every run |
| `QueueProtocol.CreatedFutureIsNew` | wazo_chatd/plugin_helpers/queue.py:71-72 | the future of each wait is known to nobody and unfinished when it is created |
| `QueueProtocol.Conservation` | wazo_chatd/plugin_helpers/queue.py:46-78 | consumed followed by queued is what was appended, in order; `reset` leaves the items and forgets the future |
| `QueueProtocol.LengthBound` | wazo_chatd/plugin_helpers/queue.py:46-52 | with P producers the length never exceeds maxsize + P - 1, hence not maxsize when P is 1, and is 0 when maxsize is |
| `QueueProtocol.BoundReached` | wazo_chatd/plugin_helpers/queue.py:46-52 | for every number of producers and every positive maximum some run reaches the bound |
| `QueueProtocol.MaximumKeptExactlyWhen` | wazo_chatd/plugin_helpers/queue.py:46-52 | the maximum is respected in every run if and only if there is at most one producer or the maximum is 0 |
| `QueueProtocol.AppendAlone` | wazo_chatd/plugin_helpers/queue.py:46-60 | one append without interleaving refuses at the maximum, otherwise enqueues and resolves the published future |
| `AsyncQueues.AsyncQueue.Append` | wazo_chatd/plugin_helpers/queue.py:46-60 | `append` on the object: full or enqueued, and the wake future finished exactly when something was enqueued |
| `AsyncQueues.AsyncQueue.Reset` | wazo_chatd/plugin_helpers/queue.py:62-64 | `reset` forgets the wake future and keeps the items |
| `AsyncQueues.AsyncQueue.Advance` | wazo_chatd/plugin_helpers/queue.py:69-78 | one pass of the consumer: the oldest item, or an empty queue and a new unfinished future |
| `KeyedLocks.KeyedLock.GetLock` | wazo_chatd/plugin_helpers/async_lock.py:23-28 | the lock of a key, created on demand |
| `KeyedLocks.KeyedLock.DropIfUnused` | wazo_chatd/plugin_helpers/async_lock.py:30-33 | an entry without holder and waiters is dropped, any other kept |
| `KeyedLocks.KeyedLock.AEnter` | wazo_chatd/plugin_helpers/async_lock.py:42-44 | entering takes a free lock that nobody waits for, otherwise queues behind the waiters |
| `KeyedLocks.KeyedLock.AExit` | wazo_chatd/plugin_helpers/async_lock.py:46-49 | leaving releases, wakes the first waiter and drops the entry if nobody wants it |
| `LockProofs.RunInv` | wazo_chatd/plugin_helpers/async_lock.py:16-49 | the invariant of map, locks and coroutines over whole runs, cancellations included |
| `LockProofs.MutualExclusion` | wazo_chatd/plugin_helpers/async_lock.py:16-49 | at most one coroutine per key is in the guarded body |
| `LockProofs.SameLockObject` | wazo_chatd/plugin_helpers/async_lock.py:23-49 | everyone who holds or waits for a key does so on the lock object now in the map, despite drops and re-creations |
| `LockProofs.ReleaseFindsItLocked` | wazo_chatd/plugin_helpers/async_lock.py:46-49 | `release` never finds its lock unlocked |
| `LockProofs.WaiterEntersInTurn` | wazo_chatd/plugin_helpers/async_lock.py:36-49 | no step puts an uncancelled waiter back; the holder or the first waiter can always step, and each of their steps lowers the number of turns the waiter has to wait, or lets it enter |
| `LockProofs.UnusedExactlyWhen` | wazo_chatd/plugin_helpers/async_lock.py:30-49 | an entry becomes unused by one kind of step only, and always by that one: the last waiter of a free lock resumes cancelled |
| `LockProofs.EntriesAreInUse` | wazo_chatd/plugin_helpers/async_lock.py:30-33 | in runs without cancellation an entry exists if and only if its key has a holder or waiter |
| `LockProofs.CancelledWaiterLeavesEntry` | wazo_chatd/plugin_helpers/async_lock.py:30-49 | a run with a cancellation that leaves an unused entry behind |
| `Cadence.PollerCadence.Step` | wazo_chatd/plugins/connectors/cadence.py:40-49 | one Euler step of the interval and the clock, the deadline of the rate limit untouched |
| `Cadence.PollerCadence.Penalize` | wazo_chatd/plugins/connectors/cadence.py:34-35 | only the deadline of the rate limit moves |
| `Cadence.PollerCadence.ResetStepClock` | wazo_chatd/plugins/connectors/cadence.py:37-38 | only the step clock moves |
| `Cadence.PollerCadence.ReadEffectiveMin` | wazo_chatd/plugins/connectors/cadence.py:29-32 | the floor is raised while the rate limit lasts |
| `Cadence.PollerCadence.ReadNextInterval` | wazo_chatd/plugins/connectors/cadence.py:51-52 | what is read is never below the floor in force |
| `Cadence.NoOvershoot` | wazo_chatd/plugins/connectors/cadence.py:40-49 | a step moves toward its goal without passing it, and reaches it when at least the time constant has elapsed |
| `Cadence.StepBySettings` | wazo_chatd/plugins/connectors/cadence.py:40-49 | from an interval in range, dt seconds of work take off dt / tau_speedup of the distance to the floor, dt seconds of idleness dt / tau_slowdown of the distance to the maximum, and all of it after a time constant |
| `Cadence.FloorOfLastPenalty` | wazo_chatd/plugins/connectors/cadence.py:29-35 | in every run the floor is the larger of minimum and rate-limit floor exactly while the last penalty lasts |
| `Cadence.FloorWithoutPenalty` | wazo_chatd/plugins/connectors/cadence.py:29-32 | without a penalty the floor is the minimum |
| `Cadence.StepClockOfLastStep` | wazo_chatd/plugins/connectors/cadence.py:37-42 | elapsed time is counted from the last step or reset |
| `Cadence.IntervalStaysInRange` | wazo_chatd/plugins/connectors/cadence.py:29-52 | over any calls with a monotone clock the stored interval stays between the minimum and the larger of maximum and rate-limit floor |
| `Cadence.EveryStepApproaches` | wazo_chatd/plugins/connectors/cadence.py:40-49 | hence every step of every run approaches its goal without overshoot |
| `Cadence.NextIntervalBounds` | wazo_chatd/plugins/connectors/cadence.py:51-52 | over any calls `next_interval` is the stored interval if that lies between the floor in force and the maximum, the floor if it is below, and the larger of maximum and floor if it is above |
| `Cadence.GapDecaysExactlyWhen` | wazo_chatd/plugins/connectors/cadence.py:40-49 | with target and floor fixed, the remaining gap is the initial gap times the product of (1 - rate), for every split of the time, if and only if the interval starts between floor and maximum; without a time constant, or already at a floor above the maximum, if and only if steps arrive at their target |
| `Cadence.GapDecaysFromTheSecondStep` | wazo_chatd/plugins/connectors/cadence.py:40-49 | from any interval the first step under a floor not above the maximum brings it into range, and from there on the product law holds |
| `Cadence.SplittingDecaysLess` | wazo_chatd/plugins/connectors/cadence.py:40-49 | the product of (1 - rate) over a split is at least 1 minus the rate of the whole, and at most 1 |
| `Cadence.SplittingMovesNoFurtherExactlyWhen` | wazo_chatd/plugins/connectors/cadence.py:40-49 | from any interval, many steps never move further than one over the same time, for every split, if and only if the interval is not beyond the end of the range that its target is away from (below the floor when idle, above the maximum after work); always so without a range or a time constant |
| `Cadence.RateLimitSpeedsUp` | wazo_chatd/plugins/connectors/cadence.py:29-49 | for all settings whose rate-limit floor lies between minimum and maximum: after a penalty on a fresh poller two idle steps move further than one over the same time |
| `Cadence.SleepBounds` | wazo_chatd/plugins/connectors/helpers.py:16-29 | the jittered sleep stays within the ratio of the interval and is positive |
| `NotifyPayload.IdsOfJoin` | wazo_chatd/database/queries/room.py:143-147 | splitting the payload at its commas and dropping empty parts gives back exactly the ids that were joined, for any number of them |
| `Runners.DeliveryRunner.ScheduleOutboundDelivery` | wazo_chatd/plugins/connectors/runner.py:449-456 | a delivery gets a task unless it has one |
| `Runners.DeliveryRunner.ScheduleOutboundDeliveryLater` | wazo_chatd/plugins/connectors/runner.py:458-470 | a new timer replaces the delivery's old one, which is cancelled |
| `Runners.DeliveryRunner.OnTimer` | wazo_chatd/plugins/connectors/runner.py:462-468 | a timer that fires leaves both books and starts its delivery |
| `Runners.DeliveryRunner.OnDeliveryNotify` | wazo_chatd/plugins/connectors/runner.py:416-425 | every id of the payload is scheduled |
| `Runners.DeliveryRunner.Recover` | wazo_chatd/plugins/connectors/runner.py:427-447 | a retrying delivery is set a timer, a pending one is started at once |
| `Runners.DeliveryRunner.FinishTask` | wazo_chatd/plugins/connectors/runner.py:472-490 | a task that ends with a delay sets the delivery's timer; it stays booked |
| `Runners.DeliveryRunner.OnTaskDone` | wazo_chatd/plugins/connectors/runner.py:453-456 | the done callback clears whatever task is booked for the delivery |
| `DeliveryProtocol.OneTaskPerDelivery` | wazo_chatd/plugins/connectors/runner.py:449-456 | in every run the event loop has at most one task per delivery, ended ones counted until their done callback, and the booked tasks are exactly the loop's |
| `DeliveryProtocol.OneTimerPerDelivery` | wazo_chatd/plugins/connectors/runner.py:458-470 | in every run at most one live timer per delivery, and the outbound timers are among all timers |
| `DeliveryProtocol.TimerStartsItsTask` | wazo_chatd/plugins/connectors/runner.py:462-468 | in every run a timer that fires is gone from both books and its delivery has a task, a new running one unless one was booked |
| `DeliveryProtocol.InboundRetryWaits` | wazo_chatd/plugins/connectors/runner.py:528-539 | in every run the retry of an inbound event gets a timer of its own that stays live until it fires, whatever is scheduled or cancelled meanwhile |
| `DeliveryProtocol.PickedUpIsAnchored` | wazo_chatd/plugins/connectors/runner.py:449-490 | from any moment at which a delivery is secure, not picked up or settled: as long as none of its own tasks aborts after it, a picked-up delivery that is still PENDING or RETRYING has a running task or a live timer, even when a timer fires while its task is in flight |
| `DeliveryProtocol.ScanAnchorsExactlyWhen` | wazo_chatd/plugins/connectors/runner.py:427-470 | a row that a scan found is anchored by it if and only if it is retrying, has no ended task still booked, or has a timer; and secure if and only if that timer was set after the task ended |
| `DeliveryProtocol.ReenqueuedStaysAnchored` | wazo_chatd/plugins/connectors/runner.py:427-490 | a delivery that a scan re-enqueued and did not skip stays anchored while it needs work and no task of it aborts after that scan, whatever aborted before |
| `DeliveryProtocol.AbortForgetsExactlyWhen` | wazo_chatd/plugins/connectors/runner.py:449-490 | over a run: once the done callback of an aborted task has run, the delivery is anchored if and only if it had a timer and the timer did not fire before that callback |
| `DeliveryProtocol.AbortDuringScanForgets` | wazo_chatd/plugins/connectors/runner.py:427-456 | whenever the task of a pending row without timer aborts between the reading of the rows and their re-enqueueing, the scan skips the row |
| `DeliveryProtocol.ForgottenInARun` | wazo_chatd/plugins/connectors/runner.py:346-456 | a run that ends, after a successful scan, with a pending delivery that has no task, timer or notification |
| `DeliveryProtocol.NoMissedDelivery` | wazo_chatd/plugins/connectors/runner.py:346-447 | under every interleaving of senders, connection losses and reconnects, after a scan each committed delivery that needs work was handed to the scheduler since this LISTEN or is notified on the live connection |
| `DeliveryProtocol.NothingForgotten` | wazo_chatd/plugins/connectors/runner.py:346-490 | from any moment before a scan has read its rows: after that scan a delivery that needs work has a task, a timer or a queued notification, unless since that moment a task of it aborted or a scan skipped it |
| `OutboundRetry.MessageDelivery.PersistStatus` | wazo_chatd/plugins/connectors/executor.py:518-534 | a record is appended, the external id replaced if one is given |
| `OutboundRetry.MessageDelivery.RecordSendFailure` | wazo_chatd/plugins/connectors/executor.py:335-357 | counts the failure; RETRYING with a delay up to three times, then DEAD_LETTER |
| `OutboundRetry.MessageDelivery.RouteOutbound` | wazo_chatd/plugins/connectors/executor.py:105-180 | one attempt, by what it meets: nothing, dead letter, accepted, failed or rate-limited (`DriveEnds` and `EventsOnlyAppend` say what each leaves) |
| `OutboundRetry.MessageDelivery.ApplyUpdate` | wazo_chatd/plugins/connectors/executor.py:242-309 | a status update or echo is recorded unless the delivery is DELIVERED |
| `OutboundRetry.RetryCountCounts` | wazo_chatd/plugins/connectors/executor.py:335-357 | in every committed state the count is the number of RETRYING plus max-retries DEAD_LETTER records, and RETRYING records are at most three |
| `OutboundRetry.AtMostThreeDelays` | wazo_chatd/plugins/connectors/executor.py:335-357 | for every status map, with any duplicates, updates and re-enqueueing, at most three attempts in a delivery's life ask for another: as many as the retry count says |
| `OutboundRetry.OneRecordPerDelay` | wazo_chatd/plugins/connectors/executor.py:335-357 | with the documented statuses the attempts that ask for another are as many as the RETRYING records |
| `OutboundRetry.DriveEnds` | wazo_chatd/plugins/connectors/executor.py:105-180 | a delivery driven by its delays makes at most four minus its count attempts; unless the last found nothing, it ends ACCEPTED with the provider's id exactly if the last attempt was accepted, and DEAD_LETTER exactly if that had no sender identity, no backend, or was the one failure too many |
| `OutboundRetry.FreshDeliveryEnds` | wazo_chatd/plugins/connectors/executor.py:105-180 | a fresh delivery makes at most four attempts and ends ACCEPTED exactly if the last was accepted, DEAD_LETTER exactly if it had no sender identity, no backend, or was the fourth and failed; it then has a RETRYING record for each attempt before the last |
| `OutboundRetry.EveryRoundButTheLastFails` | wazo_chatd/plugins/connectors/executor.py:105-180 | every attempt but the last failed with a passing error |
| `OutboundRetry.EveryRoundButTheLastRetries` | wazo_chatd/plugins/connectors/executor.py:335-357 | and each of these left one RETRYING record, which no documented update does |
| `OutboundRetry.ExternalIdOfLastAccepted` | wazo_chatd/plugins/connectors/executor.py:177-180 | in every history the external id is that of the last accepted send |
| `OutboundRetry.NoExternalIdUnlessAccepted` | wazo_chatd/plugins/connectors/executor.py:177-180 | and there is none without an accepted send |
| `OutboundRetry.EventsOnlyAppend` | wazo_chatd/plugins/connectors/executor.py:105-180 | every event appends one record, except an attempt that found nothing and an update of a DELIVERED row, which change nothing; an update appends the status it reports, a passing failure counts |
| `OutboundRetry.DelayMeaning` | wazo_chatd/plugins/connectors/executor.py:58-60 | a delay is the requested one capped at 3600 if rate-limited, else 30, 120 or 300 by the number of RETRYING records, with documented statuses |
| `OutboundRetry.RecoveryRepeatsDelay` | wazo_chatd/plugins/connectors/executor.py:311-325 | after a crash behind a commit, recovery uses the delay the attempt had returned; for a rate-limited attempt if and only if the capped request equals the table entry |
| `OutboundRetry.RecoveryDelayMeaning` | wazo_chatd/plugins/connectors/executor.py:311-325 | recovery re-enqueues a RETRYING delivery after 30, 120 or 300 seconds by its RETRYING records, a PENDING one at once and no other, in every history with documented statuses |
| `OutboundRetry.UpdatesRecorded` | wazo_chatd/plugins/connectors/executor.py:242-309 | updates are recorded in order, each with the status reported, up to the first DELIVERED |
| `OutboundRetry.DeliveredIsFinalForUpdates` | wazo_chatd/plugins/connectors/executor.py:242-309 | DELIVERED absorbs every update and echo; a late send attempt overwrites it exactly when it finds row and room |
| `InboundProcessing.WaitsAsTabled` | wazo_chatd/plugins/connectors/executor.py:63-87 | the retries of one event wait 2, 5 and 10 seconds in this order, at most 17 in all, over whole runs |
| `InboundProcessing.AttemptsCounted` | wazo_chatd/plugins/connectors/runner.py:496-557 | the attempts begun for an event are counted by its attempt number, over whole runs |
| `InboundProcessing.AtMostFourAttempts` | wazo_chatd/plugins/connectors/runner.py:496-557 | every message or update is attempted at most four times and the delay table is indexed in range |
| `InboundProcessing.AtMostOneMessagePerKey` | wazo_chatd/database/models.py:367-373 | at any time at most one message is stored per (external_id, backend), for every order of events, failures and deletions; while nothing is deleted only one event ever stores it |
| `InboundProcessing.OneTaskPerKey` | wazo_chatd/plugins/connectors/runner.py:496-526 | two tasks never work on one event at the same attempt, with ended tasks booked until their done callback |
| `InboundProcessing.RefusedOnlyWhenTaken` | wazo_chatd/plugins/connectors/executor.py:182-240 | a message is refused as a duplicate only if that message was stored before or an outbound delivery had its key; stored if and only if its row was written; status updates are never refused (`WriteStores` has the converse) |
| `InboundProcessing.WriteStores` | wazo_chatd/plugins/connectors/executor.py:217-232 | in every run: after a write that reaches the database the table has exactly one row of the message's key, this ticket's, which is then stored, exactly if there was none before; otherwise nothing is written and it is a duplicate; a status update is stored |
| `InboundProcessing.TableChanges` | wazo_chatd/plugins/connectors/executor.py:217-232 | nothing else touches the rows but outbound deliveries that get an id, under a free key, and deletions |
| `InboundProcessing.TicketGoesOn` | wazo_chatd/plugins/connectors/runner.py:496-557 | a received event waits for its first attempt; a start runs it unless its key is booked; a storage failure queues the next attempt, and the fourth ends it; nobody touches another's ticket |
| `InboundProcessing.BookedFromStartToCallback` | wazo_chatd/plugins/connectors/runner.py:496-526 | a key is booked exactly from the start of its task to the done callback, which comes only after the task ended |
| `InboundProcessing.ClosesExactlyWhen` | wazo_chatd/plugins/connectors/executor.py:63-87 | each fate exactly by its event: stored or duplicate by a write, dropped by finding nothing to do, skipped by a booked key, given up by another exception or the fourth storage failure |
| `InboundProcessing.ClosedBecause` | wazo_chatd/plugins/connectors/executor.py:63-87 | so every closed ticket of a run was closed by such an event, and by nothing else |
| `Visibility.Notifiers.PublishTo` | wazo_chatd/plugins/connectors/notifier.py:76-127 | publishes one event to each chosen member, in room order |
| `Visibility.Notifiers.RoomMessageCreated` | wazo_chatd/plugins/rooms/notifier.py:22-37 | an internal message goes to all internal members, an outbound one to its sender |
| `Visibility.Notifiers.AsyncMessageCreated` | wazo_chatd/plugins/connectors/notifier.py:76-82 | an inbound message goes to every member of the room |
| `Visibility.Notifiers.DeliveryStatusUpdated` | wazo_chatd/plugins/connectors/notifier.py:84-127 | a DELIVERED update publishes the message to the internal members other than the sender |
| `Visibility.NotifiedIffVisible` | wazo_chatd/database/queries/room.py:191-203 | in every history of an internal, outbound or inbound message an internal member has received its created event if and only if the message passes the visibility filter for them |
| `Visibility.InternalMembersTold` | wazo_chatd/database/queries/room.py:191-203 | in every history all internal members are sent and may list an internal or inbound message; of an outbound one its sender at once, the others exactly once a delivery has been reported DELIVERED |
| `Visibility.ExternalMembersTold` | wazo_chatd/plugins/connectors/notifier.py:76-82 | an external member is sent the event of inbound messages only |
| `Visibility.NotifiedAndVisibleGrow` | wazo_chatd/database/queries/room.py:191-203 | nobody is un-notified and nothing visible is hidden again |
| `Visibility.OutboundEventCount` | wazo_chatd/plugins/connectors/notifier.py:114-127 | an outbound message reaches the sender once and each other internal member once per DELIVERED record |
| `RoomConvergence.ResolveRoomParticipants` | wazo_chatd/plugins/connectors/services.py:90-105 | entries with an identity and no uuid are resolved in place, all others left alone |
| `RoomConvergence.MembersAgreeExactlyWhen` | wazo_chatd/plugins/connectors/executor.py:385-433 | outbound and inbound side compute the same member in every row order if and only if the identity is not shared between a user of the tenant and another user |
| `RoomConvergence.OutboundMemberMeaning` | wazo_chatd/plugins/connectors/services.py:90-105 | a party is taken for a user of the tenant who has its identity, and for an external member under the derived id, with the identity kept, if nobody has |
| `RoomConvergence.InboundMemberMeaning` | wazo_chatd/plugins/connectors/executor.py:385-433 | and so is the sender of an incoming message, if users of the tenant do not share the identity with others |
| `RoomConvergence.DifferentPartiesMeetOnlyInAUser` | wazo_chatd/plugins/connectors/services.py:90-105 | different identities become one member only if one user of the tenant has both, for derived ids that are injective |
| `RoomConvergence.DifferentPartiesDifferentRooms` | wazo_chatd/database/queries/async_/room.py:267-296 | otherwise the rooms a user opens with them have different members |
| `RoomConvergence.DistinctIdsMatchAlike` | wazo_chatd/database/queries/async_/room.py:267-296 | for distinct ids the counting test decides set equality as the contains/contained-by test does |
| `RoomConvergence.CountingDecidesExactlyWhen` | wazo_chatd/database/queries/async_/room.py:267-296 | the counting test decides set equality on all rooms if and only if the wanted ids are distinct |
| `RoomConvergence.ReplyFindsItsRoomExactlyWhen` | wazo_chatd/plugins/connectors/executor.py:385-445 | an answer finds the room its recipient opened, in every row order on both sides, if and only if the recipient identity has one user over all backends and tenants and the party's identity is not shared between a user of the tenant and another |
| `RoomConvergence.ReplyFindsItsRoom` | wazo_chatd/plugins/connectors/executor.py:385-445 | under that condition it finds rooms with exactly the same members only |
| `Registry.ConnectorRegistry.RegisterBackend` | wazo_chatd/plugins/connectors/registry.py:78-99 | a taken name is refused, a new one added and the whole cache cleared |
| `Registry.ConnectorRegistry.ResolveReachableTypes` | wazo_chatd/plugins/connectors/registry.py:129-142 | a new set with the union of supported types over accepting backends, cached or not; the caller may change it freely |
| `Registry.ResolveIsUnion` | wazo_chatd/plugins/connectors/registry.py:129-142 | after any registrations and lookups a lookup answers the union over the backends registered so far |
| `Registry.RegistrationOnlyAdds` | wazo_chatd/plugins/connectors/registry.py:78-99 | a registration adds its types for the identities it accepts and takes none away |
| `Registry.FirstRegistrationStays` | wazo_chatd/plugins/connectors/registry.py:78-99 | a name stands for the backend first registered under it, in every run |
| `Registry.ReachableExactlyWhen` | wazo_chatd/plugins/connectors/registry.py:129-142 | a lookup answers a type exactly if a backend that was first under its name accepts the identity and supports the type |
| `Reachability.Offered` | wazo_chatd/plugins/connectors/services.py:243-297 | the listed identities are the user's of a reachable type whose backend is registered |
| `Reachability.Find` | wazo_chatd/plugins/connectors/services.py:367-369 | the sender identity found belongs to the user, and none is missed |
| `Reachability.IdentityOn` | wazo_chatd/plugins/connectors/services.py:225-241 | a recipient is found exactly if the user has an identity on the backend |
| `Reachability.ResolveOutboundRecipients` | wazo_chatd/plugins/connectors/services.py:225-241 | external members first, then internal ones with an identity on the backend, in room order |
| `Reachability.TwoPartyMeaning` | wazo_chatd/plugins/connectors/services.py:243-297 | what is listed and what is validated in a two-party room, both as equivalences |
| `Reachability.OfferedExactlyWhen` | wazo_chatd/plugins/connectors/services.py:243-297 | in terms of rows and backends: what is offered in a two-party room |
| `Reachability.NothingOfferedUnlessTwoParty` | wazo_chatd/plugins/connectors/services.py:243-297 | the room is unknown exactly to those outside it, and nothing is offered unless there is exactly one other member |
| `Reachability.AcceptedExactlyWhen` | wazo_chatd/plugins/connectors/services.py:361-396 | in a room of any size: invalid exactly if the user has no such row, accepted exactly if its type reaches every other member, a user by a row, anybody else through a backend |
| `Reachability.LastIdentityOn` | wazo_chatd/plugins/connectors/services.py:225-241 | a user is addressed by the identity of its last row on the backend |
| `Reachability.RecipientsMeaning` | wazo_chatd/plugins/connectors/services.py:225-241 | the recipients are the outside identities and, of other users, those on the backend |
| `Reachability.OfferedIffAccepted` | wazo_chatd/plugins/connectors/services.py:243-396 | with an unbound external participant the offered identities are exactly those of registered backends that validation accepts, and each yields exactly one recipient |
| `Reachability.OfferedBetweenUsers` | wazo_chatd/plugins/connectors/services.py:225-297 | between users what is offered is accepted, and yields one recipient exactly when the other has an identity on the same backend |
| `Reachability.OfferedToBoundIdentity` | wazo_chatd/plugins/connectors/services.py:243-396 | for a bound external identity an offered one is accepted exactly when the registry too lets its type reach it |
| `RoomValidation.CommonTypes` | wazo_chatd/plugins/connectors/services.py:351-359 | intersecting in place, in any order, gives the types common to all members |
| `RoomValidation.FillFromRegistry` | wazo_chatd/plugins/connectors/services.py:324-334 | unbound external members get new sets from the registry, or the check fails on the first without any |
| `RoomValidation.FillFromTable` | wazo_chatd/plugins/connectors/services.py:336-349 | the other members get the types of their identities, or the check fails on the first without any |
| `RoomValidation.CheckMembers` | wazo_chatd/plugins/connectors/services.py:313-359 | the verdict on two members: someone unreachable, a type common to both, or none |
| `RoomValidation.ValidateRoomReachability` | wazo_chatd/plugins/connectors/services.py:299-359 | the verdict of the whole check; the registry keeps its backends and a right cache though a set it handed out is changed in place |
| `RoomValidation.VerdictExactlyWhen` | wazo_chatd/plugins/connectors/services.py:299-359 | the verdict on any room in terms of rows and backends: rooms of users accepted, more than two with an outsider refused, two members refused if one has no type, accepted if a type reaches both |
| `RoomValidation.AcceptedRoomHasSender` | wazo_chatd/plugins/connectors/services.py:299-359 | a two-party room with an unbound external member is accepted exactly when a type of the user's identities reaches it, and then a sender is offered if the user's backends are registered |
| `Pagination.PaginateProxy` | wazo_chatd/plugins/presences/initiator.py:142-172 | ends against any server, after at most one call more than items are missing from the first page; the total is the one first reported |
| `Pagination.ReachesTotalUnlessStalled` | wazo_chatd/plugins/presences/initiator.py:142-172 | against any server the listing reaches the total or stopped at an empty page |
| `Pagination.ListsABeginning` | wazo_chatd/plugins/presences/initiator.py:142-172 | from a fixed source nothing is repeated, reordered or invented, and nothing missed if no page is empty too early |
| `Pagination.CompleteExactlyWhen` | wazo_chatd/plugins/presences/initiator.py:142-172 | with pages of a fixed size the whole source comes back in order if and only if the size is positive or there is nothing |
| `Pagination.ShrinkingSourceLosesAnItem` | wazo_chatd/plugins/presences/initiator.py:143-143 | for every source longer than a page: when it loses its first item after the first call, exactly the first item of the second page is skipped |
| `Pagination.GrowingSourceLosesNothing` | wazo_chatd/plugins/presences/initiator.py:142-172 | from a source that only grows at its end everything is listed, in order, that was in it at the first call |
| `Bulk.Chunked` | wazo_chatd/database/helpers.py:26-28 | the loop over start indexes yields the chunks |
| `Bulk.ChunksPartition` | wazo_chatd/database/helpers.py:26-28 | the chunks in order make up the input, none is empty and all but the last are full |
| `Bulk.BulkUpdate` | wazo_chatd/database/helpers.py:61-84 | chunked, it does what one statement over all rows may do; with unique keys it does exactly that one update |
| `Bulk.UniqueKeysDecide` | wazo_chatd/database/helpers.py:61-84 | with unique keys there is exactly one possible result of an update |
| `Bulk.BulkDelete` | wazo_chatd/database/helpers.py:87-94 | chunked, it removes exactly the listed keys |
| `Bulk.BulkInsert` | wazo_chatd/database/helpers.py:55-58 | chunked, it succeeds exactly when no key is stored or repeated, across chunks too, and then stores every row |
| `Bulk.InsertedMeans` | wazo_chatd/database/helpers.py:55-58 | then each new row is stored with its values and every old one is as it was |
| `Bulk.InsertInSession` | wazo_chatd/database/helpers.py:43-58 | inside a session every row is stored or the table is as before |
| `PresenceCache.DeletionsKeepIntegrity` | wazo_chatd/database/models.py:45-138 | cascades and SET NULL leave every foreign key resolved |
| `PresenceCache.DeletionsTakeOnlyDependents` | wazo_chatd/database/models.py:45-138 | they take exactly the dependent rows and leave every other row as it is |
| `PresenceCache.CreateThenDelete` | wazo_chatd/plugins/presences/initiator.py:268-296 | creating before deleting succeeds exactly when no wanted key is stored or wanted otherwise, and then leaves exactly what is wanted |
| `PresenceCache.TableReconciled` | wazo_chatd/plugins/presences/initiator.py:400-429 | the same for a whole table: surviving rows are untouched, the others as they are made |
| `PresenceCache.DictMeans` | wazo_chatd/plugins/presences/initiator.py:381-394 | a dictionary filled from a list holds the last item of each key and no other key |
| `StepProofs.TenantsStepResult` | wazo_chatd/plugins/presences/initiator.py:243-259 | the tenants are the snapshot's, and only users of remaining tenants and their things remain |
| `StepProofs.UsersStepResult` | wazo_chatd/plugins/presences/initiator.py:268-296 | fails exactly when a user of the snapshot is stored in, or wanted in, another tenant; otherwise the users are the snapshot's and survivors keep their rows |
| `StepProofs.SessionsStepResult` | wazo_chatd/plugins/presences/initiator.py:400-429 | with matching tenants: fails exactly when a session moves, otherwise the sessions are the snapshot's of stored users |
| `StepProofs.SessionsStepAccepted` | wazo_chatd/plugins/presences/initiator.py:400-429 | for any snapshot: when the step fails, and that only sessions of stored users remain |
| `StepProofs.RepeatableExactlyWhen` | wazo_chatd/plugins/presences/initiator.py:400-429 | after a successful step the same step succeeds again if and only if each session of a stored user names its user's tenant |
| `StepProofs.TokensRepeatableExactlyWhen` | wazo_chatd/plugins/presences/initiator.py:447-486 | the same for refresh tokens |
| `StepProofs.TokensStepAccepted` | wazo_chatd/plugins/presences/initiator.py:447-486 | for any snapshot: the tokens step fails exactly when a token of a stored user is stored or wanted under another tenant |
| `StepProofs.TokensStepResult` | wazo_chatd/plugins/presences/initiator.py:447-486 | with matching tenants it never fails and leaves the snapshot's tokens of stored users |
| `StepProofs.LinesFollowSnapshot` | wazo_chatd/plugins/presences/initiator.py:298-342 | for any table, snapshot and traversal order: a line is stored afterwards if and only if the snapshot has it for a stored user, and under such a user |
| `StepProofs.AssociationRefers` | wazo_chatd/plugins/presences/initiator.py:344-379 | the endpoint a line is associated with is always stored |
| `InitiationProofs.InitializationMirrors` | wazo_chatd/plugins/presences/initiator.py:230-505 | for a coherent snapshot the whole run fails exactly when a user or session moves between kept owners; otherwise tenants, users, do-not-disturb, sessions and tokens with mobile flags are the snapshot restricted to its users, all foreign keys resolve, survivors keep state and status |
| `Reinitialization.InitializationMirrorsLines` | wazo_chatd/plugins/presences/initiator.py:230-379 | then the lines, their endpoints and the endpoints are those of the snapshot too (`SnapshotTables` says which those are) |
| `SnapshotTables.EndpointsShown` | wazo_chatd/plugins/presences/initiator.py:507-524 | for any snapshot, wherever the run stopped: each device outside "Custom:" is stored as its last event says, available exactly in the states INUSE, NOT_INUSE, RINGING, ONHOLD and RINGINUSE; any other endpoint is there exactly if a line names it, unavailable |
| `SnapshotTables.LinesShown` | wazo_chatd/plugins/presences/initiator.py:344-379 | for any snapshot: a stored line refers to the endpoint of its last naming entry, "PJSIP/" or "SCCP/" and the name, or the plain name of a custom line, and to none if no entry names one |
| `SnapshotTables.LineShowsItsDevice` | wazo_chatd/plugins/presences/initiator.py:344-379 | joined: the line shows the state its device told last, and is unavailable if it told none |
| `SnapshotTables.UsersCommitted` | wazo_chatd/plugins/presences/initiator.py:261-296 | tenants and users are the snapshot's, with do-not-disturb flags and kept states, even if the run fails later |
| `SnapshotTables.TablesReplaced` | wazo_chatd/plugins/presences/initiator.py:230-505 | after a finished run of a coherent snapshot each table row by row in terms of the snapshot: tenants, users with flags and states, lines under users who have them, sessions and tokens of stored users with mobile flags |
| `Reinitialization.MirrorIsFixedPoint` | wazo_chatd/plugins/presences/initiator.py:230-505 | a database that mirrors the snapshot is a fixed point of the run, in whatever order sets are traversed |
| `Reinitialization.SecondRunChangesNothing` | wazo_chatd/plugins/presences/initiator.py:230-505 | a second run from the same snapshot leaves every table as it is, in whatever order sets are traversed |
| `Reinitialization.EveryRunKeepsIntegrity` | wazo_chatd/plugins/presences/initiator.py:189-505 | for any snapshot and wherever a run fails, all foreign keys resolve in what is committed |
| `Reinitialization.FailsAgain` | wazo_chatd/plugins/presences/initiator.py:268-296 | a run that fails on the users leaves their rows alone and fails again from there |
| `Reinitialization.MovedUserFails` | wazo_chatd/plugins/presences/initiator.py:268-296 | any stored user that goes to another tenant, while the one it leaves is kept, makes the run fail |
| `Initiators.InsertAll` | wazo_chatd/database/helpers.py:55-58 | rows inserted in any order: refused exactly when a key is stored or repeated |
| `Initiators.Database.DeleteUsersByUuids` | wazo_chatd/database/models.py:84-132 | deleting users deletes their lines, sessions and tokens |
| `Initiators.Database.DeleteTenantsByUuids` | wazo_chatd/database/models.py:45-54 | deleting tenants deletes their users |
| `Initiators.Initiator.InitiateEndpoints` | wazo_chatd/plugins/presences/initiator.py:507-524 | all endpoints replaced by the device states, custom ones skipped, lines left without; each device as its last event says |
| `Initiators.Initiator.InitiateTenants` | wazo_chatd/plugins/presences/initiator.py:243-259 | the set differences amount to the tenants step |
| `Initiators.Initiator.AddAndRemoveUsers` | wazo_chatd/plugins/presences/initiator.py:268-296 | the users step, or an exception and nothing changed |
| `Initiators.Initiator.AddAndRemoveLines` | wazo_chatd/plugins/presences/initiator.py:298-342 | each line is left as reconciliation demands, and no primary key is ever violated |
| `Initiators.Initiator.AddEndpointsOfLines` | wazo_chatd/plugins/presences/initiator.py:344-359 | endpoints that only lines name are added |
| `Initiators.Initiator.AssociateLineEndpoints` | wazo_chatd/plugins/presences/initiator.py:361-379 | writing only differences gives every stored line the endpoint named last |
| `Initiators.Initiator.UpdateServicesUsers` | wazo_chatd/plugins/presences/initiator.py:381-394 | writing only differences gives every stored user the flag named last |
| `Initiators.Initiator.InitiateUsers` | wazo_chatd/plugins/presences/initiator.py:261-266 | the parts of the users step in order |
| `Initiators.Initiator.AddAndRemoveSessions` | wazo_chatd/plugins/presences/initiator.py:400-429 | the sessions step, or an exception and nothing changed |
| `Initiators.Initiator.UpdateSessionsMobile` | wazo_chatd/plugins/presences/initiator.py:431-441 | writing only differences gives every stored session its flag |
| `Initiators.Initiator.AddAndRemoveRefreshTokens` | wazo_chatd/plugins/presences/initiator.py:447-486 | the tokens step, or an exception and nothing changed |
| `Initiators.Initiator.UpdateTokensMobile` | wazo_chatd/plugins/presences/initiator.py:488-505 | writing only differences gives every stored token its flag |
| `Initiators.Initiator.Initiate` | wazo_chatd/plugins/presences/initiator.py:189-240 | the run over any snapshot: what is committed, foreign keys, each device as its last event says, and for a coherent snapshot success exactly when nothing moves, with the tables then the snapshot |

## Left out

- Interleavings in which a lock-free reader sees a locked block of the store half done; each block is one step.
- `populate`, `wait_populated`, `batch_find`, `refresh` and iteration of the store: they call the modelled `drop`, `get` and `_fetch`.
- Python's guarantee that a deque append, an attribute read and `set_result` are each atomic is assumed by the queue's steps.
- `LockProofs.EntriesAreInUse`: says nothing of runs with a cancellation, in which it is false; `UnusedExactlyWhen` has the exact step.
- Unique rooms: `_get_or_create_room` leaves its lock before the transaction commits, so two transactions may create the same room.
- `DeliveryProtocol.PickedUpIsAnchored`: assumes asyncio's order of callbacks (a done callback that is ready runs before a timer set later comes due), as `MayFire` states.
- A failed scan may be tried again on the same connection in the model; the code scans once per connection.
- At-most-once sending: `route_outbound_delivery` does not look at the current status, so the code does not promise it.
- `OutboundRetry.RetryCountCounts`: status updates carry the statuses documented for backends; a backend that mapped a status to RETRYING could add records without counting.
- `OutboundRetry.RecoveryRepeatsDelay`: the latest record is the last one written; the source orders records by id, and timestamps play no part.
- Commit failures after an event was published, and failures of the bus: publishing and the commit that goes with it succeed together.
- Pagination, search and tenants of message listings; only the visibility filter is modelled.
- `Cadence.GapDecaysExactlyWhen`: arithmetic is over real numbers; floating-point rounding is not modelled.
- `RoomConvergence.MembersAgreeExactlyWhen`: identity strings are already normalized, and ids derived by uuid5 are not user ids.
- `Reachability.ResolveOutboundRecipients`: the unordered query keeps the last row of a user on a backend, in the order the table lists them.
- A malformed line, user or session in a snapshot (a missing key raises before anything is written).
- `initiate_channels`: when two lines share an endpoint the line of a channel depends on the order of a query.
- Rooms, messages and identities of deleted tenants and users: their cascades touch no presence table.
- Other writers to the presence tables while an initialization runs; each step reads what the steps before it left.
- `Bulk.BulkUpdate`: the rows of one call set the same columns, as all callers' do; the chunk size is the source's 1000 and positive.
- `BusInitiatorHandler` and `InitiatorThread`: whether an event is covered by a snapshot depends on the timing of remote fetches.
- Pollers and listeners as running instances: reconciliation compares keys only.
- HTTP resources, schemas, authentication, configuration, logging, and the network side of connectors.
- Teams presence, merging of presence states and validation of extra fields: one-branch facts.
