/** The process that owns shards: the loop over ownership changes and the consumer of one shard.

    Each method is an uninterrupted turn; what may come between two awaits of a turn is the business of
    the cluster's steps, of which a turn is a composition. */
module PricingRuntime {
  import opened Common
  import opened Wrappers
  import opened Sessions
  import opened SessionUseCases
  import opened Handshake
  import opened Mailbox
  import opened KafkaSubscriber
  import opened PricingWorker
  import SP = ShardProtocol

  /** The runtime can take a change, and neither acquiring nor completing it is an error. */
  predicate CanTurn(wk: Worker) {
    CanTake(wk) && !TakeRaises(wk) && wk.bridge.queue[0].id in wk.bridge.completions
  }

  /** A turn of the runtime, as the steps of a worker: take the change, act on it, complete it. */
  function ChangeProcessed(wk: Worker, snapshot: SessionMap, route: RequestId -> ShardId): Worker
    requires CanTurn(wk)
  {
    var taken := TookChange(wk);
    if taken.phase.Acquiring? then ChangeCompleted(RegistryFilled(SnapshotRead(taken, snapshot), route))
    else ChangeCompleted(ShardReleased(if taken.phase.Stopping? then TaskEnded(taken) else taken, route))
  }

  predicate CanProcess(wk: Worker, p: ShardId) {
    CanTakeDelivery(wk, p) && wk.mail.queues[p][0].id in wk.mail.pendings
  }

  /** A turn of a consumer without errors: take a delivery, handle it, acknowledge it. */
  function DeliveryProcessed(wk: Worker, p: ShardId): Worker
    requires CanProcess(wk, p)
  {
    var handled := StageReached(SessionRegistered(StageReached(DeliveryTaken(wk, p), p, SP.Saved), p), p, SP.Handled);
    StageReached(PendingPopped(handled, p), p, SP.Waiting)
  }

  /** A worker whose runtime and consumers all wait. */
  function Between(bridge: Bridge, callback: Option<seq<Change>>, tasks: set<ShardId>, mail: Mailboxes,
                   registry: SessionMap, positions: map<ShardId, nat>): Worker {
    Worker(bridge, callback, Idle, tasks, AllWaiting(tasks), mail, registry, positions, true)
  }

  function AllWaiting(tasks: set<ShardId>): map<ShardId, SP.Stage> {
    map p | p in tasks :: SP.Waiting
  }

  function AfterChange(bridge: Bridge): Bridge
    requires bridge.queue != [] && bridge.queue[0].id in bridge.completions
  {
    Completed(Bridge(bridge.queue[1..], bridge.completions), bridge.queue[0])
  }

  lemma AcquireTurn(bridge: Bridge, callback: Option<seq<Change>>, tasks: set<ShardId>, mail: Mailboxes,
                    registry: SessionMap, positions: map<ShardId, nat>, snapshot: SessionMap,
                    route: RequestId -> ShardId)
    requires bridge.queue != [] && bridge.queue[0].id in bridge.completions
    requires bridge.queue[0].Acquired? && bridge.queue[0].shard !in tasks
    ensures
      var p := bridge.queue[0].shard;
      var wk := Between(bridge, callback, tasks, mail, registry, positions);
      CanTurn(wk) && ChangeProcessed(wk, snapshot, route) ==
        Between(AfterChange(bridge), callback, tasks + {p}, Subscribed(mail, p),
                registry + OfShard(snapshot, route, p), positions)
  {
    hide OfShard, Subscribed, Completed;
    var p := bridge.queue[0].shard;
    assert AllWaiting(tasks + {p}) == AllWaiting(tasks)[p := SP.Waiting];
    hide AllWaiting;
  }

  lemma WaitingWithout(tasks: set<ShardId>, p: ShardId)
    ensures AllWaiting(tasks - {p}) == AllWaiting(tasks) - {p}
    ensures p !in tasks ==> tasks - {p} == tasks
  {
  }

  lemma ReleaseTurn(bridge: Bridge, callback: Option<seq<Change>>, tasks: set<ShardId>, mail: Mailboxes,
                    registry: SessionMap, positions: map<ShardId, nat>, snapshot: SessionMap,
                    route: RequestId -> ShardId)
    requires bridge.queue != [] && bridge.queue[0].id in bridge.completions && bridge.queue[0].Released?
    ensures
      var p := bridge.queue[0].shard;
      var wk := Between(bridge, callback, tasks, mail, registry, positions);
      CanTurn(wk) && ChangeProcessed(wk, snapshot, route) ==
        Between(AfterChange(bridge), callback, tasks - {p}, if p in tasks then StoppedShard(mail, p) else mail,
                WithoutShard(registry, route, p), if p in tasks then positions - {p} else positions)
  {
    hide WithoutShard, StoppedShard, Completed, OfShard, AllWaiting;
    var p := bridge.queue[0].shard;
    WaitingWithout(tasks, p);
  }

  lemma DeliveryTurn(bridge: Bridge, callback: Option<seq<Change>>, tasks: set<ShardId>, mail: Mailboxes,
                     registry: SessionMap, positions: map<ShardId, nat>, p: ShardId)
    requires p in tasks && Queue(mail, p) != [] && mail.queues[p][0].id in mail.pendings
    ensures
      var d := mail.queues[p][0];
      var wk := Between(bridge, callback, tasks, mail, registry, positions);
      CanProcess(wk, p) && DeliveryProcessed(wk, p) ==
        Between(bridge, callback, tasks, Acked(Taken(mail, p), d), Register(registry, d.event), positions)
  {
    hide Register;
  }

  datatype RuntimeError =
    | ShardAlreadyAcquired(shard: ShardId)
    | UnknownOwnershipTransition(id: TransitionId)
    | UnknownDelivery(id: DeliveryId)
    | HandlerFailed(error: HandlingError)

  class PricingShardRuntime {
    const ownership: KafkaPricingShardOwnership
    const subscriber: KafkaRfqDomainEventsSubscriber
    const restoreShard: RestorePricingShardUseCase
    const releaseShard: ReleasePricingShardUseCase
    const handleRegistered: HandleRfqRegisteredForPricingUseCase
    // Each shard's consumer task, by the queue that its subscription reads.
    var shardTasks: map<ShardId, AsyncQueue>
    // Where the broker delivers from; the broker drops a shard when its consumer has ended.
    ghost var positions: map<ShardId, nat>

    const registry: InMemoryPricingSessionRegistry
    const store: SqlAlchemyPricingSessionStore
    const route: RequestId -> ShardId

    constructor (ownership: KafkaPricingShardOwnership, subscriber: KafkaRfqDomainEventsSubscriber,
                 registry: InMemoryPricingSessionRegistry, store: SqlAlchemyPricingSessionStore,
                 route: RequestId -> ShardId)
      requires subscriber.Valid() && registry.Valid() && store.Valid() && store.staged == map[]
      ensures Valid() && shardTasks == map[] && positions == map[]
      ensures this.ownership == ownership && this.subscriber == subscriber
      ensures this.registry == registry && this.store == store && this.route == route
    {
      this.ownership, this.subscriber := ownership, subscriber;
      this.registry, this.store, this.route := registry, store, route;
      restoreShard := new RestorePricingShardUseCase(store, registry, route);
      releaseShard := new ReleasePricingShardUseCase(registry, route);
      handleRegistered := new HandleRfqRegisteredForPricingUseCase(store, registry);
      shardTasks, positions := map[], map[];
    }

    ghost predicate Valid()
      reads this, subscriber, registry, store
    {
      && subscriber.Valid() && registry.Valid() && store.Valid() && store.staged == map[]
      && restoreShard.registry == releaseShard.registry == handleRegistered.registry == registry
      && restoreShard.store == handleRegistered.store == store
      && restoreShard.route == releaseShard.route == route
      && (forall p :: p in shardTasks ==> p in subscriber.queues && subscriber.queues[p] == shardTasks[p])
    }

    /** The worker between two turns, every consumer waiting for its queue. */
    ghost function Model(callback: Option<seq<Change>>): Worker
      reads this, ownership, subscriber, subscriber.queues.Values, registry
    {
      Between(ownership.Model(), callback, shardTasks.Keys, subscriber.Model(), registry.sessions, positions)
    }

    /** An acquired shard: restore its sessions, then start its consumer. */
    method Acquire(p: ShardId)
      requires Valid() && p !in shardTasks
      modifies this`shardTasks, subscriber`queues, registry
      ensures Valid()
      ensures registry.sessions == old(registry.sessions) + OfShard(ActiveOnly(store.rows), route, p)
      ensures shardTasks.Keys == old(shardTasks).Keys + {p}
      ensures subscriber.Model() == Subscribed(old(subscriber.Model()), p)
    {
      hide Keyed, OfShard, ActiveOnly, Subscribed, SameAt, KafkaRfqDomainEventsSubscriber.Valid;
      restoreShard.Execute(p);
      var queue := subscriber.Subscribe(p);
      shardTasks := shardTasks[p := queue];
    }

    /** A released shard: stop its consumer if it has one, then drop its sessions. */
    method Release(p: ShardId)
      requires Valid()
      modifies this`shardTasks, this`positions, subscriber, registry
      ensures Valid()
      ensures registry.sessions == WithoutShard(old(registry.sessions), route, p)
      ensures shardTasks.Keys == old(shardTasks).Keys - {p}
      ensures subscriber.Model() ==
        if p in old(shardTasks) then StoppedShard(old(subscriber.Model()), p) else old(subscriber.Model())
      ensures positions == if p in old(shardTasks) then old(positions) - {p} else old(positions)
    {
      hide Keyed, WithoutShard, StoppedShard, WithoutPendings;
      if p in shardTasks {
        var queue := shardTasks[p];
        shardTasks := shardTasks - {p};
        subscriber.StopSubscription(p, queue);
        positions := positions - {p};
      }
      releaseShard.Execute(p);
    }

    method Complete(change: Change) returns (result: Result<(), RuntimeError>)
      requires Valid()
      modifies ownership`completions
      ensures Valid()
      ensures change.id !in old(ownership.completions) ==> result == Failure(UnknownOwnershipTransition(change.id))
      ensures change.id in old(ownership.completions) ==>
        result == Success(()) && ownership.Model() == Completed(old(ownership.Model()), change)
    {
      var completed := ownership.Complete(change);
      result := if completed.Failure? then Failure(UnknownOwnershipTransition(change.id)) else Success(());
    }

    method HandleAcquired(change: Change, ghost callback: Option<seq<Change>>)
      returns (result: Result<(), RuntimeError>)
      requires Valid() && change.Acquired? && change.shard !in shardTasks
      modifies this`shardTasks, ownership`completions, subscriber`queues, registry
      ensures Valid()
      ensures change.id !in old(ownership.completions) ==> result == Failure(UnknownOwnershipTransition(change.id))
      ensures change.id in old(ownership.completions) ==>
        && result == Success(())
        && Model(callback) == Between(Completed(old(ownership.Model()), change), callback,
             old(shardTasks).Keys + {change.shard}, Subscribed(old(subscriber.Model()), change.shard),
             old(registry.sessions) + OfShard(ActiveOnly(store.rows), route, change.shard), old(positions))
    {
      hide OfShard, ActiveOnly, Subscribed, Completed, Between, Valid;
      Acquire(change.shard);
      result := Complete(change);
    }

    method HandleReleased(change: Change, ghost callback: Option<seq<Change>>)
      returns (result: Result<(), RuntimeError>)
      requires Valid() && change.Released?
      modifies this`shardTasks, this`positions, ownership`completions, subscriber, registry
      ensures Valid()
      ensures change.id !in old(ownership.completions) ==> result == Failure(UnknownOwnershipTransition(change.id))
      ensures change.id in old(ownership.completions) ==>
        var p := change.shard;
        && result == Success(())
        && Model(callback) == Between(Completed(old(ownership.Model()), change), callback, old(shardTasks).Keys - {p},
             if p in old(shardTasks).Keys then StoppedShard(old(subscriber.Model()), p) else old(subscriber.Model()),
             WithoutShard(old(registry.sessions), route, p),
             if p in old(shardTasks).Keys then old(positions) - {p} else old(positions))
    {
      hide WithoutShard, StoppedShard, Completed, Between, Valid;
      Release(change.shard);
      result := Complete(change);
    }

    /** One turn of the loop over ownership changes. */
    method HandleChange(ghost callback: Option<seq<Change>>) returns (result: Result<(), RuntimeError>)
      requires Valid() && ownership.changes != []
      modifies this`shardTasks, this`positions, ownership, subscriber, registry
      ensures Valid()
      ensures
        var change := old(ownership.changes)[0];
        if change.Acquired? && change.shard in old(shardTasks) then
          result == Failure(ShardAlreadyAcquired(change.shard))
          && registry.sessions == old(registry.sessions) && shardTasks == old(shardTasks)
        else if change.id !in old(ownership.completions) then
          result == Failure(UnknownOwnershipTransition(change.id))
        else
          && result == Success(()) && CanTurn(old(Model(callback)))
          && Model(callback) == ChangeProcessed(old(Model(callback)), ActiveOnly(store.rows), route)
    {
      hide OfShard, ActiveOnly, WithoutShard, Subscribed, StoppedShard, ChangeProcessed, CanTurn, Between, Keyed,
        Completed;
      ghost var bridge, tasks, mail, sessions, from :=
        ownership.Model(), shardTasks.Keys, subscriber.Model(), registry.sessions, positions;
      var change := ownership.TakeChange();
      if change.Acquired? {
        if change.shard in shardTasks {
          return Failure(ShardAlreadyAcquired(change.shard));
        }
        result := HandleAcquired(change, callback);
        if result.Success? {
          AcquireTurn(bridge, callback, tasks, mail, sessions, from, ActiveOnly(store.rows), route);
        }
      } else {
        result := HandleReleased(change, callback);
        if result.Success? {
          ReleaseTurn(bridge, callback, tasks, mail, sessions, from, ActiveOnly(store.rows), route);
        }
      }
    }

    /** Takes the first queued delivery and handles it. */
    method TakeAndHandle(p: ShardId, fault: Fault) returns (delivery: Delivery, handled: Result<(), HandlingError>)
      requires Valid() && p in shardTasks && shardTasks[p].items != []
      modifies subscriber`inHand, shardTasks[p], store, registry
      ensures Valid() && delivery == old(shardTasks[p].items[0])
      ensures subscriber.Model() == Taken(old(subscriber.Model()), p)
      ensures handled == if fault.NoFault? then Success(()) else Failure(HandlingError(fault))
      ensures store.rows == if ReachesStore(fault) then Register(old(store.rows), delivery.event) else old(store.rows)
      ensures registry.sessions ==
        if ReachesRegistry(fault) then Register(old(registry.sessions), delivery.event) else old(registry.sessions)
    {
      hide Register, Keyed, Taken;
      delivery := subscriber.Next(p, shardTasks[p]);
      handled := handleRegistered.Execute(delivery.event, fault);
    }

    method Acknowledge(delivery: Delivery) returns (result: Result<(), RuntimeError>)
      requires Valid()
      modifies subscriber`pendings, subscriber`inHand, subscriber.consumer
      ensures Valid()
      ensures delivery.id !in old(subscriber.pendings) ==>
        && result == Failure(RuntimeError.UnknownDelivery(delivery.id))
        && subscriber.consumer.committed == old(subscriber.consumer.committed)
      ensures delivery.id in old(subscriber.pendings) ==>
        var pending := old(subscriber.pendings)[delivery.id];
        && result == Success(())
        && subscriber.consumer.committed == old(subscriber.consumer.committed)[pending.shard := pending.offset + 1]
        && subscriber.Model() == Acked(old(subscriber.Model()), delivery)
    {
      hide Keyed, Acked;
      var acked := subscriber.Ack(delivery);
      result := if acked.Failure? then Failure(RuntimeError.UnknownDelivery(delivery.id)) else Success(());
    }

    /** One turn of a shard's consumer, when a delivery is queued. A delivery is acknowledged, and its
        offset committed, only after its handler has succeeded. */
    method HandleDelivery(p: ShardId, fault: Fault, ghost callback: Option<seq<Change>>)
      returns (result: Result<(), RuntimeError>)
      requires Valid() && p in shardTasks && shardTasks[p].items != []
      modifies subscriber`pendings, subscriber`inHand, shardTasks[p], subscriber.consumer, store, registry
      ensures Valid()
      ensures !fault.NoFault? ==>
        && result == Failure(HandlerFailed(HandlingError(fault)))
        && subscriber.Model() == Taken(old(subscriber.Model()), p)
        && subscriber.consumer.committed == old(subscriber.consumer.committed)
      ensures store.rows ==
        if ReachesStore(fault) then Register(old(store.rows), old(shardTasks[p].items[0]).event) else old(store.rows)
      ensures registry.sessions ==
        if ReachesRegistry(fault) then Register(old(registry.sessions), old(shardTasks[p].items[0]).event)
        else old(registry.sessions)
      ensures fault.NoFault? && old(shardTasks[p].items[0]).id !in old(subscriber.pendings) ==>
        && result == Failure(RuntimeError.UnknownDelivery(old(shardTasks[p].items[0]).id))
        && subscriber.consumer.committed == old(subscriber.consumer.committed)
      ensures fault.NoFault? && old(shardTasks[p].items[0]).id in old(subscriber.pendings) ==>
        var pending := old(subscriber.pendings)[old(shardTasks[p].items[0]).id];
        && result == Success(())
        && subscriber.consumer.committed == old(subscriber.consumer.committed)[pending.shard := pending.offset + 1]
        && CanProcess(old(Model(callback)), p)
        && Model(callback) == DeliveryProcessed(old(Model(callback)), p)
    {
      hide Register, Keyed, Taken, Acked, CanProcess, DeliveryProcessed, Between, KafkaPricingShardOwnership.Model,
        KafkaRfqDomainEventsSubscriber.Valid;
      ghost var bridge, tasks, mail, sessions :=
        ownership.Model(), shardTasks.Keys, subscriber.Model(), registry.sessions;
      var delivery, handled := TakeAndHandle(p, fault);
      if handled.Failure? {
        return Failure(HandlerFailed(handled.error));
      }
      result := Acknowledge(delivery);
      if result.Success? {
        DeliveryTurn(bridge, callback, tasks, mail, sessions, positions, p);
        assert Model(callback) == Between(bridge, callback, tasks, Acked(Taken(mail, p), delivery),
                                          Register(sessions, delivery.event), positions) by {
          assert ownership.Model() == bridge;
          assert subscriber.Model() == Acked(Taken(mail, p), delivery);
        }
      }
    }
  }
}
