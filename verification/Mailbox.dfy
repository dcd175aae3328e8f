/** The per-shard mailboxes of the Kafka subscriber and its table of unacknowledged deliveries. */
module Mailbox {
  import opened Common
  import opened ShardProtocol

  type DeliveryId = string

  datatype Delivery = Delivery(id: DeliveryId, shard: ShardId, event: RfqRegistered)

  datatype Pending = Pending(shard: ShardId, offset: nat)

  /** `inHand` are the deliveries that consumers have taken from their queue and not yet acknowledged. */
  datatype Mailboxes = Mailboxes(
    queues: map<ShardId, seq<Delivery>>, pendings: map<DeliveryId, Pending>, inHand: map<ShardId, Delivery>)

  const EMPTY: Mailboxes := Mailboxes(map[], map[], map[])

  function Queue(m: Mailboxes, p: ShardId): seq<Delivery> {
    if p in m.queues then m.queues[p] else []
  }

  function OnMessage(m: Mailboxes, id: DeliveryId, p: ShardId, offset: nat, event: RfqRegistered): Mailboxes {
    m.(pendings := m.pendings[id := Pending(p, offset)],
       queues := m.queues[p := Queue(m, p) + [Delivery(id, p, event)]])
  }

  function Subscribed(m: Mailboxes, p: ShardId): Mailboxes {
    m.(queues := m.queues[p := Queue(m, p)])
  }

  function Taken(m: Mailboxes, p: ShardId): Mailboxes
    requires Queue(m, p) != []
  {
    m.(queues := m.queues[p := m.queues[p][1..]], inHand := m.inHand[p := m.queues[p][0]])
  }

  /** The table without the acknowledged delivery; acknowledging one that is not there is an error. */
  function Acked(m: Mailboxes, d: Delivery): Mailboxes {
    m.(pendings := m.pendings - {d.id}, inHand := m.inHand - {d.shard})
  }

  function WithoutPendings(pendings: map<DeliveryId, Pending>, p: ShardId): map<DeliveryId, Pending> {
    map id | id in pendings && pendings[id].shard != p :: pendings[id]
  }

  function StoppedShard(m: Mailboxes, p: ShardId): Mailboxes {
    Mailboxes(m.queues - {p}, WithoutPendings(m.pendings, p), m.inHand - {p})
  }

  /** A shard's unacknowledged deliveries: the one in hand, then those in its queue. */
  function Unacked(m: Mailboxes, p: ShardId): seq<Delivery> {
    (if p in m.inHand then [m.inHand[p]] else []) + Queue(m, p)
  }

  predicate Listed(pendings: map<DeliveryId, Pending>, ds: seq<Delivery>, p: ShardId) {
    && (forall i :: 0 <= i < |ds| ==>
          ds[i].shard == p && ds[i].id in pendings && pendings[ds[i].id].shard == p)
    && (forall i, j :: 0 <= i < j < |ds| ==> ds[i].id != ds[j].id)
  }

  predicate HasId(ds: seq<Delivery>, id: DeliveryId) {
    exists i :: 0 <= i < |ds| && ds[i].id == id
  }

  /** The pending table holds exactly the unacknowledged deliveries, each once and under its own shard. */
  ghost predicate Agree(m: Mailboxes) {
    && (forall p: ShardId :: Listed(m.pendings, Unacked(m, p), p))
    && (forall id :: id in m.pendings ==> HasId(Unacked(m, m.pendings[id].shard), id))
  }

  function OffsetOf(pendings: map<DeliveryId, Pending>, id: DeliveryId): nat {
    if id in pendings then pendings[id].offset else 0
  }

  function ItemsOf(pendings: map<DeliveryId, Pending>, ds: seq<Delivery>): seq<Item> {
    seq(|ds|, i requires 0 <= i < |ds| => Item(OffsetOf(pendings, ds[i].id), ds[i].event))
  }

  /** The unacknowledged deliveries of a shard with the offsets that the pending table keeps for them. */
  function Flight(m: Mailboxes, p: ShardId): seq<Item> {
    ItemsOf(m.pendings, Unacked(m, p))
  }

  lemma EmptyAgrees()
    ensures Agree(EMPTY) && forall p: ShardId :: Flight(EMPTY, p) == []
  {
  }

  // A change of the table elsewhere leaves a list of deliveries as it was.
  lemma ListedFrame(before: map<DeliveryId, Pending>, after: map<DeliveryId, Pending>, ds: seq<Delivery>, p: ShardId)
    requires Listed(before, ds, p)
    requires forall i :: 0 <= i < |ds| ==> ds[i].id in after && after[ds[i].id] == before[ds[i].id]
    ensures Listed(after, ds, p) && ItemsOf(after, ds) == ItemsOf(before, ds)
  {
  }

  lemma ListedMore(pendings: map<DeliveryId, Pending>, ds: seq<Delivery>, p: ShardId, id: DeliveryId, offset: nat,
                   event: RfqRegistered)
    requires Listed(pendings, ds, p) && id !in pendings
    ensures var after := pendings[id := Pending(p, offset)];
            && Listed(after, ds + [Delivery(id, p, event)], p)
            && ItemsOf(after, ds + [Delivery(id, p, event)]) == ItemsOf(pendings, ds) + [Item(offset, event)]
  {
    var after, more := pendings[id := Pending(p, offset)], ds + [Delivery(id, p, event)];
    ListedFrame(pendings, after, ds, p);
    forall i | 0 <= i < |more| ensures more[i].shard == p && more[i].id in after && after[more[i].id].shard == p {
      assert i < |ds| ==> more[i] == ds[i];
    }
    assert ItemsOf(after, more) == ItemsOf(after, ds) + [Item(offset, event)];
  }

  lemma ListedLess(pendings: map<DeliveryId, Pending>, d: Delivery, rest: seq<Delivery>, p: ShardId)
    requires Listed(pendings, [d] + rest, p)
    ensures d.shard == p && d.id in pendings && pendings[d.id].shard == p
    ensures Listed(pendings - {d.id}, rest, p)
    ensures ItemsOf(pendings, [d] + rest) == [Item(pendings[d.id].offset, d.event)] + ItemsOf(pendings - {d.id}, rest)
  {
    var ds := [d] + rest;
    assert ds[0] == d;
    forall i | 0 <= i < |rest|
      ensures rest[i].shard == p && rest[i].id in pendings - {d.id} && pendings[rest[i].id].shard == p
    {
      assert ds[i + 1] == rest[i];
    }
    forall i, j | 0 <= i < j < |rest| ensures rest[i].id != rest[j].id {
      assert ds[i + 1] == rest[i] && ds[j + 1] == rest[j];
    }
  }

  lemma MessageListed(m: Mailboxes, id: DeliveryId, p: ShardId, offset: nat, event: RfqRegistered, q: ShardId)
    requires Agree(m) && id !in m.pendings
    ensures var m' := OnMessage(m, id, p, offset, event);
            && Unacked(m', q) == (if q == p then Unacked(m, p) + [Delivery(id, p, event)] else Unacked(m, q))
            && Listed(m'.pendings, Unacked(m', q), q)
            && Flight(m', q) == (if q == p then Flight(m, p) + [Item(offset, event)] else Flight(m, q))
  {
    var m' := OnMessage(m, id, p, offset, event);
    assert Listed(m.pendings, Unacked(m, q), q);
    if q == p {
      assert Unacked(m', p) == Unacked(m, p) + [Delivery(id, p, event)];
      ListedMore(m.pendings, Unacked(m, p), p, id, offset, event);
    } else {
      assert Unacked(m', q) == Unacked(m, q);
      ListedFrame(m.pendings, m'.pendings, Unacked(m, q), q);
    }
    hide Listed, ItemsOf;
  }

  lemma MessageAgrees(m: Mailboxes, id: DeliveryId, p: ShardId, offset: nat, event: RfqRegistered)
    requires Agree(m) && id !in m.pendings
    ensures var m' := OnMessage(m, id, p, offset, event);
            && Agree(m')
            && Flight(m', p) == Flight(m, p) + [Item(offset, event)]
            && (forall q: ShardId :: q != p ==> Flight(m', q) == Flight(m, q))
  {
    var m' := OnMessage(m, id, p, offset, event);
    forall q: ShardId
      ensures Listed(m'.pendings, Unacked(m', q), q)
      ensures Flight(m', q) == if q == p then Flight(m, p) + [Item(offset, event)] else Flight(m, q)
    {
      MessageListed(m, id, p, offset, event, q);
    }
    forall x | x in m'.pendings ensures HasId(Unacked(m', m'.pendings[x].shard), x) {
      MessageListed(m, id, p, offset, event, m'.pendings[x].shard);
      if x == id {
        assert Unacked(m', p)[|Unacked(m, p)|].id == id;
      } else {
        var i :| 0 <= i < |Unacked(m, m.pendings[x].shard)| && Unacked(m, m.pendings[x].shard)[i].id == x;
        assert Unacked(m', m.pendings[x].shard)[i].id == x;
      }
    }
  }

  lemma SubscribeAgrees(m: Mailboxes, p: ShardId)
    requires Agree(m)
    ensures Agree(Subscribed(m, p)) && forall q: ShardId :: Flight(Subscribed(m, p), q) == Flight(m, q)
  {
    assert forall q: ShardId :: Unacked(Subscribed(m, p), q) == Unacked(m, q);
  }

  lemma TakeAgrees(m: Mailboxes, p: ShardId)
    requires Agree(m) && Queue(m, p) != [] && p !in m.inHand
    ensures Agree(Taken(m, p)) && forall q: ShardId :: Flight(Taken(m, p), q) == Flight(m, q)
    ensures Taken(m, p).inHand[p] == Unacked(m, p)[0]
  {
    assert forall q: ShardId :: Unacked(Taken(m, p), q) == Unacked(m, q);
  }

  lemma AckListed(m: Mailboxes, p: ShardId, q: ShardId)
    requires Agree(m) && p in m.inHand
    ensures var d, m' := m.inHand[p], Acked(m, m.inHand[p]);
            && d.shard == p && d.id in m.pendings
            && Unacked(m, q) == (if q == p then [d] else []) + Unacked(m', q)
            && Listed(m'.pendings, Unacked(m', q), q)
            && Flight(m, q) == (if q == p then [Item(m.pendings[d.id].offset, d.event)] else []) + Flight(m', q)
  {
    var d := m.inHand[p];
    assert Listed(m.pendings, Unacked(m, p), p) && Unacked(m, p) == [d] + Queue(m, p);
    ListedLess(m.pendings, d, Queue(m, p), p);
    var m' := Acked(m, d);
    if q == p {
      assert Unacked(m', p) == Queue(m, p);
    } else {
      assert Listed(m.pendings, Unacked(m, q), q);
      assert Unacked(m', q) == Unacked(m, q);
      ListedFrame(m.pendings, m'.pendings, Unacked(m, q), q);
    }
  }

  lemma IdStaysBehind(d: Delivery, rest: seq<Delivery>, x: DeliveryId)
    requires HasId([d] + rest, x) && d.id != x
    ensures HasId(rest, x)
  {
    var ds := [d] + rest;
    var i :| 0 <= i < |ds| && ds[i].id == x;
    assert rest[i - 1] == ds[i];
  }

  lemma AckKeepsIds(m: Mailboxes, p: ShardId, x: DeliveryId)
    requires Agree(m) && p in m.inHand && x in Acked(m, m.inHand[p]).pendings
    ensures var m' := Acked(m, m.inHand[p]);
            HasId(Unacked(m', m'.pendings[x].shard), x)
  {
    var m', q := Acked(m, m.inHand[p]), m.pendings[x].shard;
    AckListed(m, p, q);
    assert HasId(Unacked(m, q), x);
    hide Agree, Listed, ItemsOf, Unacked, Flight;
    if q == p {
      IdStaysBehind(m.inHand[p], Unacked(m', q), x);
    } else {
      assert [] + Unacked(m', q) == Unacked(m', q);
    }
  }

  /** Acknowledging the delivery in hand never fails, and takes exactly that one off the table. */
  lemma AckAgrees(m: Mailboxes, p: ShardId)
    requires Agree(m) && p in m.inHand
    ensures var d, m' := m.inHand[p], Acked(m, m.inHand[p]);
            && d.shard == p && d.id in m.pendings
            && Flight(m, p) == [Item(m.pendings[d.id].offset, d.event)] + Flight(m', p)
            && Agree(m')
            && (forall q: ShardId :: q != p ==> Flight(m', q) == Flight(m, q))
  {
    hide Listed, ItemsOf, Unacked, Flight, HasId;
    var m' := Acked(m, m.inHand[p]);
    AckListed(m, p, p);
    forall q: ShardId
      ensures Listed(m'.pendings, Unacked(m', q), q)
      ensures q != p ==> Flight(m', q) == Flight(m, q)
    {
      AckListed(m, p, q);
      assert [] + Flight(m', q) == Flight(m', q);
    }
    forall x | x in m'.pendings ensures HasId(Unacked(m', m'.pendings[x].shard), x) {
      AckKeepsIds(m, p, x);
    }
  }

  lemma StopListed(m: Mailboxes, p: ShardId, q: ShardId)
    requires Agree(m)
    ensures var m' := StoppedShard(m, p);
            && Unacked(m', q) == (if q == p then [] else Unacked(m, q))
            && Listed(m'.pendings, Unacked(m', q), q)
            && Flight(m', q) == (if q == p then [] else Flight(m, q))
  {
    var m' := StoppedShard(m, p);
    assert Listed(m.pendings, Unacked(m, q), q);
    if q == p {
      assert Unacked(m', p) == [];
    } else {
      assert Unacked(m', q) == Unacked(m, q);
      ListedFrame(m.pendings, m'.pendings, Unacked(m, q), q);
    }
  }

  /** Stopping a shard removes all its entries and touches no other shard. */
  lemma StopAgrees(m: Mailboxes, p: ShardId)
    requires Agree(m)
    ensures var m' := StoppedShard(m, p);
            && Agree(m')
            && Flight(m', p) == []
            && (forall id :: id in m'.pendings ==> m'.pendings[id].shard != p)
            && (forall q: ShardId :: q != p ==> Unacked(m', q) == Unacked(m, q) && Flight(m', q) == Flight(m, q))
  {
    hide Listed, ItemsOf, Unacked, Flight, HasId;
    var m' := StoppedShard(m, p);
    forall q: ShardId
      ensures Unacked(m', q) == (if q == p then [] else Unacked(m, q))
      ensures Listed(m'.pendings, Unacked(m', q), q)
      ensures Flight(m', q) == (if q == p then [] else Flight(m, q))
    {
      StopListed(m, p, q);
    }
    forall x | x in m'.pendings ensures HasId(Unacked(m', m'.pendings[x].shard), x) {
      assert HasId(Unacked(m, m.pendings[x].shard), x);
    }
  }

  /** In terms of ids only: what is pending for a shard is what is queued or in hand for it. */
  lemma PendingIsUnacked(m: Mailboxes, p: ShardId)
    requires Agree(m)
    ensures (set id | id in m.pendings && m.pendings[id].shard == p) == (set d | d in Unacked(m, p) :: d.id)
  {
    assert Listed(m.pendings, Unacked(m, p), p);
    forall id | id in m.pendings && m.pendings[id].shard == p ensures exists d :: d in Unacked(m, p) && d.id == id {
      var i :| 0 <= i < |Unacked(m, p)| && Unacked(m, p)[i].id == id;
      assert Unacked(m, p)[i] in Unacked(m, p);
    }
  }
}
