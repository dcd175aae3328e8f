# Sharded pricing runtime: model and proofs

The system prices requests for quote in shards. RFQ events leave an outbox table through a publisher, arrive
at least once, and are handled by pricing workers that share the shards among themselves: over Kafka partitions,
over leases in Postgres, or over RabbitMQ queues and streams. A worker keeps the sessions of its shards in memory
and mirrors them in a durable store. This project models the protocols that make this work and proves what they
keep in every interleaving of their steps, crashes included.

There are two kinds of model. A *class* follows one object of the program: its methods have the program's loops and
branches, and their contracts tie the new state to a function of the old one. A *machine* has a state, an `Action`
datatype, a predicate `Enabled` and a function `Apply`; one action is what happens between two awaits, or one
database transaction, of one worker. A run is a sequence of enabled actions, and the main theorems are about
the state after any run. Classes and machines share the same functions (`Renewed`, `Claimed`, `Claim`, `Register`,
`OnMessage`, `Completed`, ...), and turns of the classes are runs of the machines (`OutboxRefinement.CallIsRun`,
`LeaseRefinement.PassIsRun`, `PricingRuntime`, `NotificationProtocol.NewEventIsRun`). What the outside does to a call,
such as the rows that others have locked or where an exception comes, is a parameter of the method.

| files | subject |
|---|---|
| `Leases`, `PostgresOwnership`, `LeaseProtocol`, `LeaseStream`, `LeaseRefinement` | shard leases in Postgres: renewing, claiming, epochs, the stream of ownership changes; each pass is a run |
| `Outbox`, `OutboxUseCase`, `OutboxWorker`, `OutboxProtocol`, `OutboxProgress`, `OutboxCalm`, `OutboxRefinement` | transactional outbox: claims with an expiry, publishing, marking; each call is a run |
| `Sessions`, `SessionUseCases`, `Replay` | pricing sessions, registry and store, replaying registered events |
| `Handshake`, `HandshakeRuns`, `Mailbox`, `KafkaSubscriber`, `LateSubscription` | rebalance callbacks and futures; per-shard mailboxes and pending deliveries; a subscription that ends late |
| `ShardProtocol` | the life of one shard: log, offsets, sessions, whoever holds it |
| `PricingWorker`, `PricingRuntime`, `PricingWorkerSteps`, `PricingWorkerSafety` | one Kafka worker: its steps, its turns as methods, what each step keeps |
| `PricingCluster`, `PricingClusterSafety`, `PricingClusterTheorems`, `PricingClusterHandshake`, `PricingClusterProgress` | any number of Kafka workers; each run is, for every shard, a run of `ShardProtocol` and, for every worker from its start on, one of `HandshakeRuns` if transition ids are new; nothing gets stuck |
| `ChangePricing`, `Notifications`, `NotificationProtocol` | idempotent consumers: latest revision wins, one notification per event and recipient |
| `Decimals`, `Routing` | hash to shard, topic bindings, stream names, decimal numbers |
| `Dependencies` | which curves a swap needs |
| `Common`, `Sequences`, `Wrappers` | shared names; counting and distinctness; optional values and results |

Two properties that the design suggests do not hold without a condition, and the condition is proved exact:

- A lease worker can acquire a shard that it owns already, and its runtime then fails with "Shard already
  acquired". A worker about to claim can be handed an owned shard exactly when the shard's lease in the table, be it
  its own or by now another worker's, has run out by its clock, which is never before the end of the leases it has
  just renewed (`LeaseStream.ReclaimedExactlyWhenLate`, with a concrete run in `LateClaimFailsInSomeRun`).
- Registry and store do not have the same value at all times. A session differs exactly when the last durable save of
  its shard's holder is not committed, was of this session, and has not reached the registry: the event in hand is
  between its two saves, or its consumer was stopped there and the shard is being released
  (`PricingClusterTheorems.CacheAgreesWithStore`, with a concrete run in `ShardProtocol.CacheDiffersInSomeRun`).

Four limits of the code are stated as theorems as well:

- A notification whose worker fails between commit and publish is never published
  (`NotificationProtocol.CrashBeforePublishLoses`).
- `cancel_pending`, which nothing in the repository calls yet, stops the runtime for good exactly when a change of the
  cancelled callback is still open as the callback unwinds (`HandshakeRuns.UnwindingDecides`, with a schedule for
  either outcome); an unknown transition has no other cause (`RaisesExactlyWhenOrphaned`).
- `async for` does not close a generator when the task is cancelled in the loop body, so the `finally` of a subscription
  may come late, when the shard has a new consumer. If that one has an unacknowledged delivery by then, its next
  acknowledgement fails; if it has none, and found the queue of the subscription that ends, no later message reaches
  it and nothing is raised (`LateSubscription.LateEndDecides`, with runs in `ResubscribedIsReached` and
  `LateEndHarms`). The runs of the cluster assume that it does not come late.
- A session that is only in the store cannot be changed: it is read with its status as text, which saving it does not
  accept (`ChangePricing.ChangePricingUseCase.Execute`).

What the machines assume of the outside world:

- A database transaction is atomic. `FOR UPDATE SKIP LOCKED` returns eligible rows of which any may be missing because
  another transaction has locked them. Worker ids are distinct; claim ids, delivery ids and transition ids are fresh.
- Each worker has its own clock, and it never goes back. The outbox theorems do not even need that.
- The broker assigns a partition only while nobody owns it: after the old owner's revoke callback has returned or the
  old owner has crashed. Deliveries after an assignment start at the committed offset. Nothing of a partition arrives
  between the end of its consumer and its next assignment. Offsets may be skipped in the log.
- Cancelling a shard's task, with the `finally` of its subscription, has ended before the shard is released.
- Producer and workers use the same partitioner, an arbitrary function from request ids to shards.
- A call that raises may or may not have had its effect, and a worker may crash between any two steps.

## Model

| member | source | states |
|---|---|---|
| `PostgresOwnership.PostgresPricingShardOwnership.RenewOwned` | src/request_for_quote/infrastructure/application/pricing/adapter/pricing_shared_ownership/postgres/postgres_pricing_shared_ownership.py:165-209 | in one transaction, extends exactly the owned rows that still name this worker, and returns exactly the other owned shards |
| `PostgresOwnership.PostgresPricingShardOwnership.ClaimAvailable` | src/request_for_quote/infrastructure/application/pricing/adapter/pricing_shared_ownership/postgres/postgres_pricing_shared_ownership.py:211-283 | takes the first `limit` claimable rows in shard order that nobody else has locked, sets owner and expiry, raises each epoch by one, leaves all other rows alone; a limit of zero or less claims nothing |
| `PostgresOwnership.LeaseDatabase.SelectClaimable` | src/request_for_quote/infrastructure/application/pricing/adapter/pricing_shared_ownership/postgres/postgres_pricing_shared_ownership.py:237-264 | the lowest-numbered rows without an owner or with `lease_until` before `now` among those that nobody has locked, in shard order, as many as the limit allows; stated in the row's columns |
| `LeaseProtocol.ClaimableExactlyWhenFree` | src/request_for_quote/infrastructure/application/pricing/adapter/pricing_shared_ownership/postgres/postgres_pricing_shared_ownership.py:237-262 | a worker about to claim can get a shard exactly if its row has no owner or a `lease_until` before its clock |
| `Leases.ValidPickIsLowestForSomeLocks` | src/request_for_quote/infrastructure/application/pricing/adapter/pricing_shared_ownership/postgres/postgres_pricing_shared_ownership.py:237-262 | what the lease machine lets a claim pick is exactly what that selection returns for some locks |
| `PostgresOwnership.PostgresPricingShardOwnership.ReleaseLost` | src/request_for_quote/infrastructure/application/pricing/adapter/pricing_shared_ownership/postgres/postgres_pricing_shared_ownership.py:111-121 | one release for every lost shard and nothing else, each while the shard is still in the owned set |
| `PostgresOwnership.PostgresPricingShardOwnership.TakeAcquired` | src/request_for_quote/infrastructure/application/pricing/adapter/pricing_shared_ownership/postgres/postgres_pricing_shared_ownership.py:135-145 | one acquisition per claimed shard, in order; the owned set is always what the changes so far amount to |
| `PostgresOwnership.PostgresPricingShardOwnership.FillUp` | src/request_for_quote/infrastructure/application/pricing/adapter/pricing_shared_ownership/postgres/postgres_pricing_shared_ownership.py:123-145 | claims only into free capacity, so the maximum is never exceeded, and what is owned afterwards names this worker |
| `PostgresOwnership.PostgresPricingShardOwnership.ChangesRound` | src/request_for_quote/infrastructure/application/pricing/adapter/pricing_shared_ownership/postgres/postgres_pricing_shared_ownership.py:108-149 | a whole pass: releases exactly the stale beliefs, then acquires what was claimed; exact rows and owned set; alternating whenever the claim reads its clock before the renewed leases end |
| `LeaseProtocol.StepKeepsInv` | src/request_for_quote/infrastructure/application/pricing/adapter/pricing_shared_ownership/postgres/postgres_pricing_shared_ownership.py:108-149 | the invariant behind the lease theorems survives every step of every interleaving, crashes included |
| `LeaseProtocol.OwnerCheckIsEpochCheck` | src/request_for_quote/infrastructure/application/pricing/adapter/pricing_shared_ownership/postgres/postgres_pricing_shared_ownership.py:186-209 | in every run, a believed shard names the worker as owner exactly when its row has the epoch of the worker's own claim; so renewal loses exactly the stale beliefs, even if ownership went away and came back; no two workers hold the same shard and epoch |
| `LeaseProtocol.LeasesNeverOverlap` | src/request_for_quote/infrastructure/application/pricing/adapter/pricing_shared_ownership/postgres/postgres_pricing_shared_ownership.py:171-200 | in every run, a later epoch of a row is claimed strictly after every `lease_until` written under an earlier one, needing only that each clock never goes back |
| `LeaseProtocol.CapacityHolds` | src/request_for_quote/infrastructure/application/pricing/adapter/pricing_shared_ownership/postgres/postgres_pricing_shared_ownership.py:123-138 | in every run, no worker owns more than its maximum |
| `LeaseProtocol.StepMovesRowForward` | src/request_for_quote/infrastructure/application/pricing/adapter/pricing_shared_ownership/postgres/postgres_pricing_shared_ownership.py:266-275 | a step raises a row's epoch by one when it claims the row and not otherwise, never moves `lease_until` back, and claims only after it |
| `LeaseProtocol.RunMovesRowForward` | src/request_for_quote/infrastructure/application/pricing/adapter/pricing_shared_ownership/postgres/postgres_pricing_shared_ownership.py:199-275 | over a whole run an epoch rises by exactly the number of claims and `lease_until` never decreases |
| `LeaseRefinement.PassIsRun` | src/request_for_quote/infrastructure/application/pricing/adapter/pricing_shared_ownership/postgres/postgres_pricing_shared_ownership.py:108-149 | every pass as the contract of `ChangesRound` has it, if it claims before the leases it renewed run out, is a run of the lease machine with the same table, owned shards and changes, in which the runtime raises nothing |
| `LeaseStream.StreamIsWellFormed` | src/request_for_quote/infrastructure/application/pricing/adapter/pricing_shared_ownership/postgres/postgres_pricing_shared_ownership.py:108-149 | in every run in which this worker's own claims are prompt, however late those of others, its changes alternate per shard, "Shard already acquired" is never raised, and between changes the keys of `shard_tasks` are the owned shards |
| `LeaseStream.ReclaimedExactlyWhenLate` | src/request_for_quote/infrastructure/application/pricing/adapter/pricing_shared_ownership/postgres/postgres_pricing_shared_ownership.py:241-261 | a worker about to claim can be handed a shard it already owns exactly when that shard's lease, its own or another worker's by now, has run out by its clock; that is never before the end of the leases it has just renewed, and exactly then for a shard the table still names as its own |
| `LeaseStream.LateClaimFails` | src/request_for_quote/presentation/pricing_worker/main.py:223-228 | whenever such a lease has run out, three more steps make the runtime raise "Shard already acquired" |
| `LeaseStream.LateClaimFailsInSomeRun` | src/request_for_quote/infrastructure/application/pricing/adapter/pricing_shared_ownership/postgres/postgres_pricing_shared_ownership.py:123-145 | a concrete run from an empty table in which that happens |
| `OutboxUseCase.SqlAlchemyOutboxRepository.SelectEligible` | src/request_for_quote/infrastructure/application/adapter/outbox_repository/sql_alchemy_repository.py:70-89 | the earliest rows that are unpublished, that nobody else has locked, and that have no `claimed_until` or one that is not after `now`, in order of occurrence, up to the limit |
| `OutboxUseCase.SqlAlchemyOutboxRepository.ClaimPending` | src/request_for_quote/infrastructure/application/adapter/outbox_repository/sql_alchemy_repository.py:62-111 | gives exactly those rows the claim id and the expiry and counts one more attempt for each; each column is given |
| `OutboxUseCase.SqlAlchemyOutboxRepository.MarkPublished` | src/request_for_quote/infrastructure/application/adapter/outbox_repository/sql_alchemy_repository.py:113-133 | publishes the row and ends the claim, only under the same claim id and only once |
| `OutboxUseCase.SqlAlchemyOutboxRepository.MarkFailed` | src/request_for_quote/infrastructure/application/adapter/outbox_repository/sql_alchemy_repository.py:135-152 | ends the claim, only under the same claim id |
| `OutboxUseCase.PublishOutboxEventsUseCase.ClaimBatch` | src/request_for_quote/application/outbox/use_case/publish_outbox_events.py:32-40 | claims the batch until thirty seconds after the start of the call, in one transaction; if that raises, all of it is claimed or none, as the transaction was committed or not, and the caller sees no event |
| `OutboxUseCase.PublishOutboxEventsUseCase.PublishOne` | src/request_for_quote/application/outbox/use_case/publish_outbox_events.py:46-79 | one event: exactly one publish; then published at the time of the mark if it did not raise, released if it did, unless the marking transaction is not committed; no other row changes |
| `OutboxUseCase.PublishOutboxEventsUseCase.Execute` | src/request_for_quote/application/outbox/use_case/publish_outbox_events.py:28-85 | for every way the transactions and the publications end: which batch is claimed, how far it is tried, each row of the table in each column, and the events that reach the broker, in order; if nothing of its own raises, `claimed`, `published` and `failed` count the batch, else the exception leaves the events not tried claimed |
| `OutboxRefinement.CallIsRun` | src/request_for_quote/application/outbox/use_case/publish_outbox_events.py:28-85 | each such call is, from any state of any number of workers, a run of the outbox machine with the same table and log |
| `OutboxWorkerLoop.OutboxWorker.Run` | src/request_for_quote/presentation/outbox_publisher/main.py:36-52 | any number of turns is that many calls of the use case with a limit of 100, each starting from what the last has left, whatever they raise; the log never has an event more often than it was attempted, published rows are in the log, hold no claim and never change again, attempts never decrease |
| `OutboxProtocol.AttemptsAreConserved` | src/request_for_quote/application/outbox/use_case/publish_outbox_events.py:46-85 | in every run of any number of workers, an event's `attempt_count` is its publish tries plus its copies waiting in live batches plus those dropped, and the broker has it at most that often |
| `OutboxProtocol.NothingIsLost` | src/request_for_quote/infrastructure/application/adapter/outbox_repository/sql_alchemy_repository.py:119-150 | in every run, a published row is in the broker's log and has no claim; a batch that can return has `claimed = published + failed`; live batches never share a claim id, and a claim stands on a row only while its batch has that event to do |
| `OutboxProtocol.PublishedStaysForever` | src/request_for_quote/infrastructure/application/adapter/outbox_repository/sql_alchemy_repository.py:70-96 | a published row is never changed or claimed again, however the run goes on |
| `OutboxProtocol.ClaimEndsOnlyTwoWays` | src/request_for_quote/infrastructure/application/adapter/outbox_repository/sql_alchemy_repository.py:119-150 | a claimed row changes exactly when its own batch marks it or a later batch takes it over after its expiry; a worker that lost its claim can neither clear nor complete the new one |
| `OutboxProgress.RoundDelivers` | src/request_for_quote/application/outbox/use_case/publish_outbox_events.py:33-79 | whatever batch the database gives an idle worker, it can deliver and mark exactly this batch, in order, and return |
| `OutboxProgress.BatchHasEventOrIsAhead` | src/request_for_quote/infrastructure/application/adapter/outbox_repository/sql_alchemy_repository.py:70-89 | a batch of unlocked rows contains an eligible event or is full of events that occurred no later; so it contains every event with fewer than `limit` others ahead |
| `OutboxProgress.RoundGetsCloser` | src/request_for_quote/infrastructure/application/adapter/outbox_repository/sql_alchemy_repository.py:70-96 | a round without the event leaves exactly `limit` fewer events ahead of it and its row unchanged |
| `OutboxProgress.UnpublishedCanBePublished` | src/request_for_quote/presentation/outbox_publisher/main.py:36-52 | in any state, with any positive limit and no locks, an idle worker alone gets every event published that is unpublished and has no `claimed_until` after its clock |
| `OutboxProgress.ClaimableExactlyWhenFree` | src/request_for_quote/infrastructure/application/adapter/outbox_repository/sql_alchemy_repository.py:70-89 | a claim can contain an event exactly if its row is unpublished and has no `claimed_until` after the claim's clock; never one that is locked |
| `OutboxProgress.AbandonedIsTakenOver` | src/request_for_quote/infrastructure/application/adapter/outbox_repository/sql_alchemy_repository.py:74-101 | the events of a batch whose worker fails can be claimed again at exactly the times from the end of the claim on, and then any idle worker alone gets each of them published |
| `OutboxProgress.AbandonedCanBePublished` | src/request_for_quote/infrastructure/application/adapter/outbox_repository/sql_alchemy_repository.py:74-101 | the same wherever in its batch a worker fails, for what its claim still stands on |
| `OutboxProtocol.StepKeepsInv` | src/request_for_quote/application/outbox/use_case/publish_outbox_events.py:29-79 | the invariant behind these survives every step, crashes and exceptions included |
| `OutboxCalm.ExactlyOnce` | src/request_for_quote/application/outbox/use_case/publish_outbox_events.py:33-79 | one worker, no failures: the log has every event at most once, and between batches exactly as often as it was claimed |
| `OutboxCalm.LogIsOrdered` | src/request_for_quote/infrastructure/application/adapter/outbox_repository/sql_alchemy_repository.py:70-111 | if moreover rows are added in order of occurrence, the whole log is in that order, across batches of any limit |
| `SessionUseCases.InMemoryPricingSessionRegistry.Save` | src/request_for_quote/infrastructure/application/adapter/pricing_session_store/in_memory_pricing_session_store.py:12-13 | one session per request id, the latest |
| `SessionUseCases.InMemoryPricingSessionRegistry.Remove` | src/request_for_quote/infrastructure/application/adapter/pricing_session_store/in_memory_pricing_session_store.py:15-22 | removes the entry if it is there |
| `SessionUseCases.InMemoryPricingSessionRegistry.ListAll` | src/request_for_quote/infrastructure/application/adapter/pricing_session_store/in_memory_pricing_session_store.py:24-29 | every session exactly once |
| `SessionUseCases.SqlAlchemyPricingSessionStore.Commit` | src/request_for_quote/infrastructure/application/pricing/adapter/sql_alchemy_pricing_session_store.py:19-37 | the saved sessions replace or add exactly the rows of their request ids |
| `SessionUseCases.SqlAlchemyPricingSessionStore.ListActive` | src/request_for_quote/infrastructure/application/pricing/adapter/sql_alchemy_pricing_session_store.py:62-85 | every row with status active exactly once, and no other |
| `SessionUseCases.HandleRfqRegisteredForPricingUseCase.Execute` | src/request_for_quote/application/pricing/use_case/handle_rfq_registered.py:44-121 | wherever handling raises, the store is written before the registry: nothing, the store only, or both; what is written is an active session with the event's request id, revision and product that depends on JPY-OIS, and nothing else changes |
| `SessionUseCases.RestorePricingShardUseCase.Execute` | src/request_for_quote/application/pricing/use_case/restore_pricing_shard.py:35-56 | adds exactly the stored sessions of the shard whose status is active to the registry |
| `SessionUseCases.ReleasePricingShardUseCase.Execute` | src/request_for_quote/application/pricing/use_case/release_pricing_shard.py:36-68 | removes the shard's sessions and no other |
| `Replay.ReplayIsHarmless` | src/request_for_quote/application/pricing/use_case/handle_rfq_registered.py:58-85 | processing a log of registered events and then any suffix of it again leaves what processing it once leaves |
| `Replay.LastRegistrationDecides` | src/request_for_quote/infrastructure/application/pricing/adapter/sql_alchemy_pricing_session_store.py:19-37 | the outcome for a request is the same from any two starts if an event of the log registers it |
| `Replay.LastRegistrationGivesTerms` | src/request_for_quote/application/pricing/use_case/handle_rfq_registered.py:58-74 | and it has the revision and product of the last event that registers it, active |
| `ShardProtocol.StepKeepsInv` | src/request_for_quote/presentation/pricing_worker/main.py:313-328 | for one partition and its sessions: offsets, deliveries in flight, registry, store and replay stay consistent through every step of production, assignment, restore, handling, acknowledgement, release and crash |
| `ShardProtocol.RunMovesForward` | src/request_for_quote/infrastructure/application/pricing/adapter/pricing_rfq_domain_events_subscriber/kafka/pricing_rfq_domain_events_subscriber.py:227-247 | committed offset and handled messages only grow |
| `ShardProtocol.CacheDiffersExactlyAfterUnsharedSave` | src/request_for_quote/application/pricing/use_case/handle_rfq_registered.py:76-85 | a session in the registry differs from the stored one exactly when the holder's last durable save is not committed, was of that session, and is not in the registry |
| `ShardProtocol.CacheDiffersInSomeRun` | src/request_for_quote/application/pricing/use_case/handle_rfq_registered.py:76-85 | a run from one event and an older session in which they differ, with the consumer running and with it stopped |
| `ShardProtocol.RequestConverges` | src/request_for_quote/application/pricing/use_case/handle_rfq_registered.py:58-85 | the durable session of every request that the current replay will not register again is that of one pass over the log up to the furthest save |
| `ShardProtocol.CaughtUpConverges` | src/request_for_quote/application/pricing/use_case/handle_rfq_registered.py:58-85 | once the holder has caught up with the furthest save, all durable sessions are those of one pass up to there, while production goes on |
| `ShardProtocol.RedeliveryConverges` | src/request_for_quote/application/pricing/use_case/handle_rfq_registered.py:58-85 | once no message is left to commit, the durable sessions are those of one pass over the whole log |
| `KafkaSubscriber.KafkaRfqDomainEventsSubscriber.OnMessage` | src/request_for_quote/infrastructure/application/pricing/adapter/pricing_rfq_domain_events_subscriber/kafka/pricing_rfq_domain_events_subscriber.py:113-157 | a message joins the end of its own shard's queue and the pending table with its offset; an undeserializable one ends the reader and changes nothing |
| `KafkaSubscriber.KafkaRfqDomainEventsSubscriber.Subscribe` | src/request_for_quote/infrastructure/application/pricing/adapter/pricing_rfq_domain_events_subscriber/kafka/pricing_rfq_domain_events_subscriber.py:175-178 | gives the shard's own queue if it has one, untouched, and a new empty one otherwise |
| `KafkaSubscriber.KafkaRfqDomainEventsSubscriber.Next` | src/request_for_quote/infrastructure/application/pricing/adapter/pricing_rfq_domain_events_subscriber/kafka/pricing_rfq_domain_events_subscriber.py:181-183 | takes the first delivery of the queue |
| `KafkaSubscriber.KafkaRfqDomainEventsSubscriber.StopSubscription` | src/request_for_quote/infrastructure/application/pricing/adapter/pricing_rfq_domain_events_subscriber/kafka/pricing_rfq_domain_events_subscriber.py:184-209 | drops the queue if it is still the subscription's own, and in any case all pending entries of the shard, of no other; nothing else changes |
| `KafkaSubscriber.KafkaRfqDomainEventsSubscriber.Ack` | src/request_for_quote/infrastructure/application/pricing/adapter/pricing_rfq_domain_events_subscriber/kafka/pricing_rfq_domain_events_subscriber.py:211-247 | takes the delivery off the table and commits its offset plus one; an unknown delivery is an error without effect |
| `Mailbox.MessageAgrees` | src/request_for_quote/infrastructure/application/pricing/adapter/pricing_rfq_domain_events_subscriber/kafka/pricing_rfq_domain_events_subscriber.py:133-157 | the table stays exactly the unacknowledged deliveries; the new one comes last in its shard |
| `Mailbox.AckAgrees` | src/request_for_quote/infrastructure/application/pricing/adapter/pricing_rfq_domain_events_subscriber/kafka/pricing_rfq_domain_events_subscriber.py:227-236 | acknowledging the delivery in hand never fails and removes exactly the first of its shard |
| `Mailbox.StopAgrees` | src/request_for_quote/infrastructure/application/pricing/adapter/pricing_rfq_domain_events_subscriber/kafka/pricing_rfq_domain_events_subscriber.py:191-209 | stopping a shard removes all its entries and touches no other shard |
| `LateSubscription.CutOffForGood` | src/request_for_quote/infrastructure/application/pricing/adapter/pricing_rfq_domain_events_subscriber/kafka/pricing_rfq_domain_events_subscriber.py:175-193 | a consumer whose queue is not in `_queues` gets nothing but what is in hand or in its queue by then, however long it lives |
| `LateSubscription.LateEndDecides` | src/request_for_quote/infrastructure/application/pricing/adapter/pricing_rfq_domain_events_subscriber/kafka/pricing_rfq_domain_events_subscriber.py:184-236 | what a subscription that ends late does to the shard's new consumer, in every run after it: with a delivery in hand or queued, that one never completes an acknowledgement any more, the next is an unknown delivery; with none, and if both read the same queue, it never gets another message and nothing is raised; otherwise the next message is handled as ever |
| `LateSubscription.ResubscribedIsReached` | src/request_for_quote/infrastructure/application/pricing/adapter/pricing_rfq_domain_events_subscriber/kafka/pricing_rfq_domain_events_subscriber.py:175-183 | a run that leads there: subscribe, cancel in the loop body, subscribe again; both read the same queue |
| `LateSubscription.LateEndHarms` | src/request_for_quote/infrastructure/application/pricing/adapter/pricing_rfq_domain_events_subscriber/kafka/pricing_rfq_domain_events_subscriber.py:184-236 | from there, ending at once cuts the new consumer off, and ending after the next message makes the acknowledgement of that message raise |
| `Handshake.KafkaPricingShardOwnership.Announce` | src/request_for_quote/infrastructure/application/pricing/adapter/pricing_shared_ownership/kafka/pricing_shared_ownership.py:117-185 | exactly one change per partition of the topic, the k-th for the k-th of them under its id, queued in this order and awaited; for different partitions these are changes of one kind for different shards, as the cluster takes them |
| `Handshake.KafkaPricingShardOwnership.Return` | src/request_for_quote/infrastructure/application/pricing/adapter/pricing_shared_ownership/kafka/pricing_shared_ownership.py:190-195 | drops exactly the futures of the published changes |
| `Handshake.KafkaPricingShardOwnership.TakeChange` | src/request_for_quote/infrastructure/application/pricing/adapter/pricing_shared_ownership/kafka/pricing_shared_ownership.py:83-85 | changes come out in the order they went in |
| `Handshake.KafkaPricingShardOwnership.Complete` | src/request_for_quote/infrastructure/application/pricing/adapter/pricing_shared_ownership/kafka/pricing_shared_ownership.py:87-107 | sets the future of a known change, once; an unknown one is an error without effect |
| `Handshake.ChangesForExact` | src/request_for_quote/infrastructure/application/pricing/adapter/pricing_shared_ownership/kafka/pricing_shared_ownership.py:117-143 | the function behind it: as many changes as partitions of the topic were named, in their order, each under its id |
| `Handshake.PublishedAreAnnounceable` | src/request_for_quote/infrastructure/application/pricing/adapter/pricing_shared_ownership/kafka/pricing_shared_ownership.py:109-143 | different partitions under different ids give changes for different shards, all of one kind |
| `Handshake.KafkaPricingShardOwnership.CancelPending` | src/request_for_quote/infrastructure/application/pricing/adapter/pricing_shared_ownership/kafka/pricing_shared_ownership.py:197-205 | cancels every future that is waiting and leaves every other as it is |
| `HandshakeRuns.CompletedInOrderOnce` | src/request_for_quote/infrastructure/application/pricing/adapter/pricing_shared_ownership/kafka/pricing_shared_ownership.py:83-107 | in every run of callbacks, runtime and cancellations, the changes completed are those published, in order and each once, up to the ones still open |
| `HandshakeRuns.RaisesExactlyWhenOrphaned` | src/request_for_quote/infrastructure/application/pricing/adapter/pricing_shared_ownership/kafka/pricing_shared_ownership.py:96-104 | in every run, completing the change at hand is an unknown transition exactly when the callback that published it was cancelled while the change was open |
| `HandshakeRuns.NeverRaisesWithoutCancellation` | src/request_for_quote/infrastructure/application/pricing/adapter/pricing_shared_ownership/kafka/pricing_shared_ownership.py:187-195 | in every run without `cancel_pending`, no transition is ever unknown |
| `HandshakeRuns.CallbackCanEnd` | src/request_for_quote/infrastructure/application/pricing/adapter/pricing_shared_ownership/kafka/pricing_shared_ownership.py:187-195 | in every run, once nothing is open the callback in progress can return, or unwind if it was cancelled |
| `HandshakeRuns.UnwindingDecides` | src/request_for_quote/infrastructure/application/pricing/adapter/pricing_shared_ownership/kafka/pricing_shared_ownership.py:187-205 | when a cancelled callback unwinds, the cancellation was harmless if no change is open by then; otherwise the runtime never completes another change, however the run goes on: the next it tries to is an unknown transition |
| `HandshakeRuns.CancellationCanBeHarmless` | src/request_for_quote/infrastructure/application/pricing/adapter/pricing_shared_ownership/kafka/pricing_shared_ownership.py:87-107 | a run from the start in which the runtime completes the open change before the cancelled callback unwinds |
| `HandshakeRuns.CancellationCanMakeTheRuntimeFail` | src/request_for_quote/infrastructure/application/pricing/adapter/pricing_shared_ownership/kafka/pricing_shared_ownership.py:187-205 | from every state with a waiting callback and an open change, a schedule in which cancelling makes the runtime fail on the very next change |
| `PricingRuntime.PricingShardRuntime.HandleChange` | src/request_for_quote/presentation/pricing_worker/main.py:221-283 | a turn of the ownership loop is the composition of the worker's steps: take, restore and start or stop and release, complete; with both error outcomes |
| `PricingRuntime.PricingShardRuntime.Acquire` | src/request_for_quote/presentation/pricing_worker/main.py:233-247 | restores the shard's sessions, then starts its one consumer |
| `PricingRuntime.PricingShardRuntime.Release` | src/request_for_quote/presentation/pricing_worker/main.py:255-272 | stops the shard's consumer if there is one and drops its pending deliveries, then removes its sessions |
| `PricingRuntime.PricingShardRuntime.HandleDelivery` | src/request_for_quote/presentation/pricing_worker/main.py:313-328 | handle, then acknowledge: no offset is committed unless the handler succeeded, and a failed one leaves store and registry as far as it got; otherwise the turn is the composition of the consumer's steps |
| `PricingClusterSafety.StepGood` | src/request_for_quote/presentation/pricing_worker/main.py:215-328 | every step of any number of workers keeps what each worker keeps, raises no error, and is for each shard one step of that shard or none |
| `PricingClusterSafety.ClusterRefinesShards` | src/request_for_quote/presentation/pricing_worker/main.py:215-328 | every run of the workers is, for each shard, a run of that shard's own protocol |
| `PricingClusterTheorems.SingleOwner` | src/request_for_quote/presentation/pricing_worker/main.py:215-283 | in every run, no request id is in two workers' registries, and every entry resolves to a shard assigned to that worker alone, which it holds or is about to release |
| `PricingClusterTheorems.SingleConsumer` | src/request_for_quote/presentation/pricing_worker/main.py:233-247 | in every run, no shard has consumers in two workers |
| `PricingClusterTheorems.NoRuntimeErrors` | src/request_for_quote/infrastructure/application/pricing/adapter/pricing_shared_ownership/kafka/pricing_shared_ownership.py:96-104 | in every run, "Shard already acquired", "Unknown ownership transitions" and "Unknown RFQ domain event delivery" are never raised: a shard to be acquired has no task, a change to be completed has its future, a delivery to be acknowledged is pending |
| `PricingClusterTheorems.NothingSkipped` | src/request_for_quote/infrastructure/application/pricing/adapter/pricing_rfq_domain_events_subscriber/kafka/pricing_rfq_domain_events_subscriber.py:227-247 | in every run and every continuation, a committed offset never decreases, and every message below it since the start had its handler finish |
| `PricingClusterTheorems.CacheAgreesWithStore` | src/request_for_quote/application/pricing/use_case/handle_rfq_registered.py:76-85 | in every run, a session in a registry is stored durably, and differs from the stored one exactly when its shard's last durable save is not committed, was of this session, and is not in the registry; while the consumer runs, exactly when the event in hand is between its two saves |
| `PricingClusterTheorems.CacheEqualsStoreBetweenEvents` | src/request_for_quote/application/pricing/use_case/restore_pricing_shard.py:40-50 | in every run, while a shard's consumer waits, the registry has exactly those sessions of the shard that the store has with status active, with the same value |
| `PricingClusterTheorems.SessionsConverge` | src/request_for_quote/application/pricing/use_case/handle_rfq_registered.py:58-85 | in every run, the durable session of every request that its shard's current replay will not register again is that of one pass over the log up to the furthest save; of all requests once the holder has caught up with that save; it has the revision and product of the last event up to there that registers it |
| `PricingClusterTheorems.RedeliveryConverges` | src/request_for_quote/application/pricing/use_case/handle_rfq_registered.py:58-85 | in every run, once a partition has no message left to commit, its shard's durable sessions are those of one pass over its log, however often it was redelivered, each with the revision and product of the last event that registers it |
| `PricingClusterTheorems.HandshakeHolds` | src/request_for_quote/infrastructure/application/pricing/adapter/pricing_shared_ownership/kafka/pricing_shared_ownership.py:168-195 | in every run, the changes of a waiting callback are completed in order, each once; `_completions` has exactly their ids; the callback can return exactly when none is open |
| `PricingClusterHandshake.StepFollowsHandshake` | src/request_for_quote/infrastructure/application/pricing/adapter/pricing_shared_ownership/kafka/pricing_shared_ownership.py:83-107 | every step of the workers is, for each worker, one step of the handshake or none |
| `PricingClusterHandshake.ChangesCompletedInOrderOnce` | src/request_for_quote/presentation/pricing_worker/main.py:221-283 | over any stretch of a run without a restart of the worker, what was open and what callbacks announced is, in this order, what was completed and what is open: each change once per announcement |
| `PricingClusterHandshake.ClusterRefinesHandshake` | src/request_for_quote/infrastructure/application/pricing/adapter/pricing_shared_ownership/kafka/pricing_shared_ownership.py:83-205 | every run of the workers is, for each worker from its start on, a run of the handshake, provided that the transition ids announced to it are new |
| `PricingClusterProgress.AllMessagesCanBeHandled` | src/request_for_quote/presentation/pricing_worker/main.py:313-328 | from every state of every run, a worker that runs a shard's consumer, with its reader alive and no undeserializable message ahead, can by that consumer's and the reader's steps alone get every message of the shard's log handled and committed |
| `PricingClusterProgress.DueIsProgress` | src/request_for_quote/presentation/pricing_worker/main.py:313-328 | for a served shard with anything left to do, one step is always possible, and it leaves strictly less to commit, to deliver, or to do for the event in hand |
| `PricingClusterTheorems.RevokeReturnsEmptyHanded` | src/request_for_quote/infrastructure/application/pricing/adapter/pricing_shared_ownership/kafka/pricing_shared_ownership.py:109-128 | when a revoke callback can return, its worker has no session, consumer, delivery or position of the revoked shards |
| `PricingClusterTheorems.PendingTableIsExact` | src/request_for_quote/infrastructure/application/pricing/adapter/pricing_rfq_domain_events_subscriber/kafka/pricing_rfq_domain_events_subscriber.py:125-157 | in every run, a shard's pending entries are its queued deliveries plus the one in hand, and these are the messages of its log from the first not popped up to its position, in order |
| `ChangePricing.ChangePricingUseCase.Execute` | src/request_for_quote/application/pricing/use_case/change_pricing.py:29-80 | stale revisions change nothing; a newer, existing one puts the stored terms of that revision and the dependency on JPY-OIS into the store, then into the registry, as far as no step raises, and leaves the status; a revision or session that does not exist is an error, and so is a session that is only in the store, because its status is read as text and saving it raises |
| `ChangePricing.LatestRevisionWins` | src/request_for_quote/application/pricing/use_case/change_pricing.py:51-64 | after any calls in any order, wherever they raise, the registry has the stored terms of the highest existing revision that reached it, or the session as it was |
| `ChangePricing.OrderAndRepetitionDoNotMatter` | src/request_for_quote/application/pricing/use_case/change_pricing.py:51-64 | the outcome is the same for all reorderings and repetitions of the calls |
| `ChangePricing.CallKeepsAgreement` | src/request_for_quote/application/pricing/use_case/change_pricing.py:61-64 | a call keeps registry and store equal exactly unless it is news and its commit took effect but raised |
| `ChangePricing.CallsKeepAgreement` | src/request_for_quote/application/pricing/use_case/change_pricing.py:61-64 | without such a commit they are equal after each call of any sequence |
| `ChangePricing.RetryRestoresAgreement` | src/request_for_quote/application/pricing/use_case/change_pricing.py:61-64 | making the call again after such a commit makes them equal again |
| `Notifications.NotificationTable.FindBySource` | src/request_for_quote/infrastructure/application/adapter/notification_repository/postgres/sql_alchemy_notification_repository.py:30-62 | a row of that event and recipient if there is one |
| `Notifications.NotificationTable.Insert` | src/request_for_quote/infrastructure/postgres/models.py:102-109 | refused exactly if the unique key is taken |
| `Notifications.NotifyAssignedTraderOnRfqRegisteredUseCase.Execute` | src/request_for_quote/application/notification/use_case/notify_assigned_trader_on_rfq_registered.py:19-52 | only the call that inserts the row publishes; the row is for the event's trader, points to its request and names the event; a success has its row, whatever other workers commit meanwhile; an existing row is returned without any effect |
| `Notifications.NotificationWorker.Consume` | src/request_for_quote/presentation/notification_worker/main.py:23-35 | the offset is committed only if the event has its row |
| `NotificationProtocol.NotifiedAtMostOnce` | src/request_for_quote/application/notification/use_case/notify_assigned_trader_on_rfq_registered.py:34-52 | in every run with redelivery, rebalances and crashes, at most one row and one publication per event and recipient; a stored one not in flight was published unless it was dropped by a failure before its publication |
| `NotificationProtocol.AckedEventsHaveRows` | src/request_for_quote/presentation/notification_worker/main.py:23-35 | in every run, every event below a committed offset since the start has its row |
| `NotificationProtocol.RowsAreOfEvents` | src/request_for_quote/application/notification/use_case/notify_assigned_trader_on_rfq_registered.py:23-32 | in every run, each row is of an event of some log, for its trader and pointing to its request |
| `NotificationProtocol.KnownEventIsRun` | src/request_for_quote/application/notification/use_case/notify_assigned_trader_on_rfq_registered.py:34-43 | an event that comes again is looked up and committed, and nothing else happens |
| `NotificationProtocol.NewEventIsRun` | src/request_for_quote/application/notification/use_case/notify_assigned_trader_on_rfq_registered.py:34-52 | for every way its call ends, an event without a row leads to the rows and publications of the contract of `Execute`, by steps of the machine |
| `NotificationProtocol.CrashBeforePublishLoses` | src/request_for_quote/application/notification/use_case/notify_assigned_trader_on_rfq_registered.py:48-50 | a worker that fails between commit and publish loses the publication for good |
| `NotificationProtocol.StepConserves` | src/request_for_quote/application/notification/use_case/notify_assigned_trader_on_rfq_registered.py:34-52 | rows are publications plus those in flight plus those dropped |
| `Routing.ResolveIsTotal` | src/request_for_quote/infrastructure/application/pricing/adapter/pricing_shard_resolver/rabbitmq/pricins_shard_resolver.py:15-36 | a resolver is refused exactly for a shard count that is not positive; any other resolves every digest to exactly one declared shard: the number congruent to its first eight bytes as a two's complement number, first byte first, written out in the bytes |
| `Routing.SignedValue` | src/request_for_quote/infrastructure/application/pricing/adapter/pricing_shard_resolver/rabbitmq/pricins_shard_resolver.py:28-32 | eight bytes stand for their weighted sum, less 2^64 if the first is 128 or more |
| `Routing.SignedIsInjective` | src/request_for_quote/infrastructure/application/pricing/adapter/pricing_shard_resolver/rabbitmq/pricins_shard_resolver.py:28-32 | that number is a signed 64-bit number, and different bytes give a different one |
| `Routing.EveryShardIsUsed` | src/request_for_quote/infrastructure/application/pricing/adapter/pricing_shard_resolver/rabbitmq/pricins_shard_resolver.py:34-36 | a shard is the shard of some digest exactly when it is within 2^63 of one end of the range; up to 2^64 shards none is left out |
| `Routing.DeclareQuorumPricingTopology` | src/request_for_quote/infrastructure/rabbitmq/topology.py:22-56 | one queue per shard, each bound under its own key; the dictionary maps exactly the shards to their queues |
| `Routing.BindSuperStreamPricingTopology` | src/request_for_quote/infrastructure/rabbitmq/topology.py:59-109 | binds every existing partition stream; stops at the first missing one, those before it stay bound |
| `Routing.PublishReachesItsShard` | src/request_for_quote/infrastructure/rabbitmq/topology.py:39-54 | a message published for a request reaches exactly one queue, that of the shard the resolver names, whatever streams are bound to the same exchange |
| `Routing.ReachedOnCommonExchange` | src/request_for_quote/infrastructure/rabbitmq/topology.py:39-107 | on the exchange that both topologies share, a shard's message reaches its own queue and its own stream, as far as they were bound |
| `Routing.PublishReachesItsStream` | src/request_for_quote/infrastructure/rabbitmq/topology.py:90-107 | the same for partition streams, whatever queues are bound besides, and the stream's name gives the shard back |
| `Routing.BindingIsExact` | src/request_for_quote/infrastructure/rabbitmq/topology.py:49-52 | under topic matching a binding passes its own shard's key and no other |
| `Routing.StreamReadExactly` | src/request_for_quote/infrastructure/application/pricing/adapter/pricing_shared_ownership/rabbitmq_super_stream/rabbitmq_pricing_shard_ownership.py:82-95 | what any stream name is read as: a name without the prefix is refused, and otherwise the rest is read exactly if it is written as an integer |
| `Routing.StreamRoundTrip` | src/request_for_quote/infrastructure/application/pricing/adapter/pricing_shared_ownership/rabbitmq_super_stream/rabbitmq_pricing_shard_ownership.py:82-95 | parsing a generated stream name returns its shard number, for every natural number |
| `Routing.NamesInFull` | src/request_for_quote/infrastructure/rabbitmq/topology.py:39-107 | queue names, stream names and routing keys are the prefix, a dot or dash, and the one decimal numeral of the shard |
| `Routing.NamesAreDistinct` | src/request_for_quote/infrastructure/rabbitmq/topology.py:39-54 | different shards have different queue and stream names |
| `Dependencies.CollectFloatingRateIndices` | src/request_for_quote/application/pricing/dependency/pricing_dependency_resolver.py:64-93 | computes the list that the next row describes |
| `Dependencies.CollectedInFirstUseOrder` | src/request_for_quote/application/pricing/dependency/pricing_dependency_resolver.py:71-93 | exactly the floating rate indices, each once, in the order of their first payout |
| `Dependencies.AcceptedExactlyWhenUnique` | src/request_for_quote/application/pricing/model/market_configuration.py:25-32 | a configuration is accepted, as it is, exactly when no index occurs twice; else the error says so |
| `Dependencies.EveryEntryIsFound` | src/request_for_quote/application/pricing/model/market_configuration.py:34-42 | in an accepted configuration every entry is found under its index, wherever it stands |
| `Dependencies.FoundIsConfigured` | src/request_for_quote/application/pricing/model/market_configuration.py:34-42 | a lookup succeeds exactly for configured indices and otherwise names the index |
| `Dependencies.ResolvesExactlyWhenAvailable` | src/request_for_quote/application/pricing/dependency/pricing_dependency_resolver.py:24-62 | succeeds exactly when the discount curve is available and every floating index is configured with an available curve |
| `Dependencies.ResolvedCurvesAreTheConfigured` | src/request_for_quote/application/pricing/model/pricing_dependencies.py:23-34 | lists each floating index once, in first-use order; looking one up gives the curve the configuration assigns, any other index is an error |
| `Dependencies.FailureNamesTheFirstMissing` | src/request_for_quote/application/pricing/dependency/pricing_dependency_resolver.py:30-55 | a failure names the first thing missing: discount curve, then per index its configuration, then its curve |

## Left out

Contracts that state less than the program promises, and why:

- PricingClusterTheorems.SingleOwner: only for the Kafka backend; for Postgres leases and super streams `complete` does nothing and no callback waits, so a stale worker may still hold sessions. For Postgres the lease and epoch theorems are what holds.
- LeaseStream.StreamIsWellFormed: for a worker whose own claims are prompt; `ReclaimedExactlyWhenLate` shows the condition to be exact.
- PricingClusterTheorems.CacheAgreesWithStore: with registration as the only writer, since changing and stopping a session are not wired into the worker.
- PricingClusterTheorems.HandshakeHolds: the cluster's runs are without cancellation of callbacks; `HandshakeRuns` has the cancellation, for the handshake of one worker.
- HandshakeRuns.RaisesExactlyWhenOrphaned: what a cancelled callback means for the broker, which may then give the shards to another worker, is not followed further.
- PricingClusterTheorems.NothingSkipped: says that a handler finished, not that a price was published; handlers return early while market data is missing.
- PricingClusterTheorems.SessionsConverge: a convergence statement; that every message can be committed is `AllMessagesCanBeHandled`, that it eventually is depends on scheduling and is not stated.
- PricingClusterProgress.AllMessagesCanBeHandled: for a shard whose consumer runs; how long the worker takes to acquire a shard is not stated.
- LateSubscription.LateEndDecides: for one shard of the subscriber, apart from the cluster; the worker that raises then fails as a whole.
- OutboxWorkerLoop.OutboxWorker.Run: a finite number of turns of the endless loop; the sleeps, and the cancellation that ends the process, are not modelled.
- OutboxCalm.ExactlyOnce: for one worker without failures; with failures the bound is the attempt count of `AttemptsAreConserved`.
- OutboxUseCase.PublishOutboxEventsUseCase.Execute: the classes run a use case without interruption by other workers (the notification one takes their commits as a parameter); interleavings are the machines' business. Takeovers of a claim by another worker in the middle of a batch are in `OutboxProtocol`.
- PostgresOwnership.PostgresPricingShardOwnership.ChangesRound: no other worker writes the table during the pass; `LeaseProtocol` has the interleavings. The endless loop with its sleeps is the repetition of passes.
- PricingRuntime.PricingShardRuntime.HandleDelivery: the other tasks of the process do not run during the turn; `PricingCluster` interleaves its steps.
- Routing.Resolve: the SHA-256 digest (FIPS 180-4) is a parameter; only the number arithmetic is modelled.
- Decimals.ParseInt: ASCII text only; Python's `int` also reads other Unicode digits and spaces.

Not modelled at all:

- Building curves and pricing swaps with QuantLib, the mock pricer, and publishing prices: an effect that touches neither registry nor store.
- The client libraries (aiokafka, aio_pika, rstream, Redis, ZeroMQ, SQLAlchemy, FastAPI, websockets), settings and bootstrap.
- Kafka's murmur2 partitioner: an abstract function shared by producer and workers.
- `ChangeRfqUseCase` and `StopRfqPricingUseCase`: they build outbox events without required fields and cannot complete; outbox rows come from an arbitrary `Add`.
- The rabbitmq and super stream subscribers, and the offset handling of `on_consumer_update`.
- How a session is stored: `notional` comes back as a string and the status of `get_by_id` as plain text; session values are abstract here.
- The order in which Python iterates a set or a dictionary: any order is allowed, and no contract depends on it.
- Validation of curves, quotes, tenors and conventions, the Redis subscription diff, the websockets, `PricingRebalanceListener`, and the sandbox.
