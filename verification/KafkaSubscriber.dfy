/** The Kafka subscriber: one reader that sorts messages into mailboxes, and one consumer per shard. */
module KafkaSubscriber {
  import opened Common
  import opened Wrappers
  import opened Mailbox

  class AsyncQueue {
    var items: seq<Delivery>

    constructor ()
      ensures items == []
    {
      items := [];
    }
  }

  class KafkaConsumer {
    var committed: map<ShardId, nat>

    /** The offset to read next. */
    method Commit(p: ShardId, offset: nat)
      modifies this
      ensures committed == old(committed)[p := offset]
    {
      committed := committed[p := offset];
    }
  }

  datatype AckError = UnknownDelivery(id: DeliveryId)

  class KafkaRfqDomainEventsSubscriber {
    const consumer: KafkaConsumer
    var queues: map<ShardId, AsyncQueue>
    var pendings: map<DeliveryId, Pending>
    // What the consumers have taken and not yet acknowledged.
    ghost var inHand: map<ShardId, Delivery>

    ghost predicate Valid()
      reads this
    {
      forall p, q :: p in queues && q in queues && p != q ==> queues[p] != queues[q]
    }

    ghost function Model(): Mailboxes
      reads this, queues.Values
    {
      Mailboxes(map p | p in queues :: queues[p].items, pendings, inHand)
    }

    constructor (consumer: KafkaConsumer)
      ensures Valid() && Model() == EMPTY && this.consumer == consumer && queues == map[]
    {
      this.consumer := consumer;
      queues, pendings, inHand := map[], map[], map[];
    }

    // dict.setdefault(shard_id, Queue())
    method QueueOf(p: ShardId) returns (queue: AsyncQueue)
      requires Valid()
      modifies this`queues
      ensures Valid() && p in queues && queues[p] == queue
      ensures p in old(queues) ==> queues == old(queues)
      ensures p !in old(queues) ==> fresh(queue) && queue.items == [] && queues == old(queues)[p := queue]
    {
      if p in queues {
        queue := queues[p];
      } else {
        queue := new AsyncQueue();
        queues := queues[p := queue];
      }
    }

    /** One turn of `run`. `event` is None for a message that cannot be deserialized: the reader then
        dies before it has touched anything. */
    method OnMessage(id: DeliveryId, p: ShardId, offset: nat, event: Option<RfqRegistered>) returns (alive: bool)
      requires Valid() && id !in pendings
      modifies this`queues, this`pendings, queues.Values
      ensures Valid() && (alive <==> event.Some?)
      ensures p in old(queues) || !alive ==> queues == old(queues)
      ensures p !in old(queues) && alive ==> p in queues && fresh(queues[p])
      ensures Model() == if alive then Mailbox.OnMessage(old(Model()), id, p, offset, event.value) else old(Model())
    {
      if event.None? {
        return false;
      }
      pendings := pendings[id := Pending(p, offset)];
      var queue := QueueOf(p);
      queue.items := queue.items + [Delivery(id, p, event.value)];
      alive := true;
    }

    /** The start of `subscribe`. */
    method Subscribe(p: ShardId) returns (queue: AsyncQueue)
      requires Valid()
      modifies this`queues
      ensures Valid() && p in queues && queues[p] == queue
      ensures queues == old(queues)[p := queue]
      ensures if p in old(queues) then queue == old(queues[p]) else fresh(queue)
      ensures Model() == Subscribed(old(Model()), p)
    {
      queue := QueueOf(p);
    }

    /** A turn of the loop of `subscribe`, when the queue has something to take. */
    method Next(p: ShardId, queue: AsyncQueue) returns (delivery: Delivery)
      requires Valid() && p in queues && queues[p] == queue && queue.items != []
      modifies this`inHand, queue
      ensures Valid() && queues == old(queues)
      ensures delivery == old(queue.items)[0] && Model() == Taken(old(Model()), p)
    {
      delivery := queue.items[0];
      queue.items := queue.items[1..];
      inHand := inHand[p := delivery];
    }

    method DropPendings(p: ShardId)
      modifies this`pendings
      ensures pendings == WithoutPendings(old(pendings), p)
    {
      var rest := set id | id in pendings && pendings[id].shard == p;
      while rest != {}
        invariant rest == set id | id in pendings && pendings[id].shard == p
        invariant WithoutPendings(pendings, p) == WithoutPendings(old(pendings), p)
        decreases |rest|
      {
        var id :| id in rest;
        pendings := pendings - {id};
        rest := rest - {id};
      }
      assert pendings == WithoutPendings(pendings, p) by {
        forall id | id in pendings ensures pendings[id].shard != p { assert id !in rest; }
      }
    }

    /** The `finally` of `subscribe`: the entry of the shard goes if it is still this subscription's queue,
        the shard's pending entries go in any case. */
    method StopSubscription(p: ShardId, queue: AsyncQueue)
      requires Valid()
      modifies this
      ensures Valid()
      ensures p in old(queues) && old(queues[p]) == queue ==>
        queues == old(queues) - {p} && Model() == StoppedShard(old(Model()), p)
      ensures !(p in old(queues) && old(queues[p]) == queue) ==>
        queues == old(queues) && Model() == old(Model()).(pendings := WithoutPendings(old(pendings), p))
    {
      if p in queues && queues[p] == queue {
        queues := queues - {p};
        inHand := inHand - {p};
      }
      DropPendings(p);
    }

    /** Commits the offset after the acknowledged message; an unknown delivery is an error and changes
        nothing. */
    method Ack(delivery: Delivery) returns (result: Result<(), AckError>)
      requires Valid()
      modifies this`pendings, this`inHand, consumer
      ensures Valid() && queues == old(queues)
      ensures delivery.id !in old(pendings) ==>
        && result == Failure(UnknownDelivery(delivery.id))
        && pendings == old(pendings) && inHand == old(inHand) && consumer.committed == old(consumer.committed)
      ensures delivery.id in old(pendings) ==>
        var pending := old(pendings)[delivery.id];
        && result == Success(())
        && Model() == Acked(old(Model()), delivery)
        && consumer.committed == old(consumer.committed)[pending.shard := pending.offset + 1]
    {
      if delivery.id !in pendings {
        return Failure(UnknownDelivery(delivery.id));
      }
      var pending := pendings[delivery.id];
      pendings := pendings - {delivery.id};
      inHand := inHand - {delivery.shard};
      consumer.Commit(pending.shard, pending.offset + 1);
      result := Success(());
    }
  }
}
