/** The bridge between Kafka's rebalance callbacks and the shard runtime: a queue of ownership changes
    one way, and one future per change the other way. */
module Handshake {
  import opened Common
  import opened Wrappers
  import opened Sequences

  type TransitionId = string

  datatype Change = Acquired(id: TransitionId, shard: ShardId) | Released(id: TransitionId, shard: ShardId)

  datatype Future = Waiting | Done | Cancelled

  datatype Bridge = Bridge(queue: seq<Change>, completions: map<TransitionId, Future>)

  function Ids(changes: seq<Change>): set<TransitionId> {
    set c | c in changes :: c.id
  }

  function Shards(changes: seq<Change>): set<ShardId> {
    set c | c in changes :: c.shard
  }

  function Published(b: Bridge, changes: seq<Change>): Bridge {
    Bridge(b.queue + changes,
           map id | id in b.completions.Keys + Ids(changes) ::
             if id in Ids(changes) then Waiting else b.completions[id])
  }

  function Completed(b: Bridge, c: Change): Bridge
    requires c.id in b.completions
  {
    if b.completions[c.id].Waiting? then b.(completions := b.completions[c.id := Done]) else b
  }

  function Returned(b: Bridge, changes: seq<Change>): Bridge {
    b.(completions := b.completions - Ids(changes))
  }

  function Ended(future: Future): Future {
    if future.Waiting? then Cancelled else future
  }

  function PendingCancelled(b: Bridge): Bridge {
    b.(completions := map id | id in b.completions :: Ended(b.completions[id]))
  }

  predicate AllDone(b: Bridge, changes: seq<Change>) {
    forall c :: c in changes ==> c.id in b.completions && b.completions[c.id].Done?
  }

  datatype TopicPartition = TopicPartition(topic: string, partition: ShardId)

  /** The changes a callback publishes: one per partition of the topic, in order. */
  function ChangesFor(topic: string, tps: seq<TopicPartition>, ids: seq<TransitionId>, acquire: bool): seq<Change>
    requires |ids| == |tps|
  {
    if tps == [] then []
    else
      var init := ChangesFor(topic, tps[..|tps| - 1], ids[..|tps| - 1], acquire);
      var tp, id := tps[|tps| - 1], ids[|tps| - 1];
      if tp.topic != topic then init
      else init + [if acquire then Acquired(id, tp.partition) else Released(id, tp.partition)]
  }

  /** What a callback may publish besides nothing: changes of one kind, for different shards and under
      different ids. */
  predicate SameKind(changes: seq<Change>) {
    (forall c :: c in changes ==> c.Acquired?) || (forall c :: c in changes ==> c.Released?)
  }

  predicate Announceable(changes: seq<Change>) {
    && changes != []
    && (forall i, j :: 0 <= i < j < |changes| ==>
          changes[i].id != changes[j].id && changes[i].shard != changes[j].shard)
  }

  /** The places of the partitions of the topic, in order. */
  ghost predicate ArePlacesOf(places: seq<nat>, topic: string, tps: seq<TopicPartition>) {
    && (forall i, j :: 0 <= i < j < |places| ==> places[i] < places[j])
    && (forall n: nat :: n in places <==> n < |tps| && tps[n].topic == topic)
  }

  predicate FollowPlaces(changes: seq<Change>, places: seq<nat>, tps: seq<TopicPartition>, ids: seq<TransitionId>,
                         acquire: bool) {
    && |places| == |changes|
    && forall k :: 0 <= k < |changes| ==>
         && places[k] < |tps| && places[k] < |ids|
         && changes[k].id == ids[places[k]] && changes[k].shard == tps[places[k]].partition
         && changes[k].Acquired? == acquire
  }

  /** One change per partition of the topic: the k-th is for the k-th of them, under its id. */
  ghost predicate IsOnePerPartition(changes: seq<Change>, topic: string, tps: seq<TopicPartition>,
                                    ids: seq<TransitionId>, acquire: bool) {
    exists places :: ArePlacesOf(places, topic, tps) && FollowPlaces(changes, places, tps, ids, acquire)
  }

  datatype CompletionError = UnknownTransition(id: TransitionId)

  class KafkaPricingShardOwnership {
    const topic: string
    var changes: seq<Change>
    var completions: map<TransitionId, Future>

    constructor (topic: string)
      ensures this.topic == topic && Model() == Bridge([], map[])
    {
      this.topic := topic;
      changes, completions := [], map[];
    }

    ghost function Model(): Bridge
      reads this
    {
      Bridge(changes, completions)
    }

    /** The part of a callback before it waits; `ids` are the new transition ids, one per partition. */
    method Announce(tps: seq<TopicPartition>, ids: seq<TransitionId>, acquire: bool) returns (published: seq<Change>)
      requires |ids| == |tps|
      modifies this
      ensures published == ChangesFor(topic, tps, ids, acquire)
      ensures IsOnePerPartition(published, topic, tps, ids, acquire)
      ensures Distinct(tps) && Distinct(ids) ==>
        published == [] || (Announceable(published) && SameKind(published))
      ensures changes == old(changes) + published
      ensures Model() == Published(old(Model()), published)
    {
      hide IsOnePerPartition, Announceable, SameKind, Distinct;
      published := [];
      for i := 0 to |tps|
        invariant published == ChangesFor(topic, tps[..i], ids[..i], acquire)
      {
        assert tps[..i + 1][..i] == tps[..i] && ids[..i + 1][..i] == ids[..i];
        if tps[i].topic == topic {
          var p := tps[i].partition;
          published := published + [if acquire then Acquired(ids[i], p) else Released(ids[i], p)];
        }
      }
      assert tps[..|tps|] == tps && ids[..|tps|] == ids;
      ChangesForExact(topic, tps, ids, acquire);
      if Distinct(tps) && Distinct(ids) {
        PublishedAreAnnounceable(topic, tps, ids, acquire, published);
      }
      assert published[..0] == [];
      NothingPublished(Model());
      hide ChangesFor, Published;
      for i := 0 to |published|
        invariant Model() == Published(old(Model()), published[..i])
        invariant changes == old(changes) + published[..i]
      {
        assert published[..i + 1] == published[..i] + [published[i]];
        PublishOneMore(old(Model()), published[..i], published[i]);
        completions := completions[published[i].id := Waiting];
        changes := changes + [published[i]];
      }
      assert published[..|published|] == published;
    }

    /** The `finally` of a callback, once every future it waits for is done. */
    method Return(published: seq<Change>)
      modifies this
      ensures Model() == Returned(old(Model()), published)
    {
      for i := 0 to |published|
        invariant Model() == Returned(old(Model()), published[..i])
      {
        assert published[..i + 1] == published[..i] + [published[i]];
        assert Ids(published[..i + 1]) == Ids(published[..i]) + {published[i].id};
        completions := completions - {published[i].id};
      }
      assert published[..|published|] == published;
    }

    /** A turn of the runtime's `async for`, when the queue has something. */
    method TakeChange() returns (change: Change)
      requires changes != []
      modifies this`changes
      ensures change == old(changes)[0] && changes == old(changes)[1..]
    {
      change := changes[0];
      changes := changes[1..];
    }

    method Complete(change: Change) returns (result: Result<(), CompletionError>)
      modifies this`completions
      ensures change.id in old(completions) ==>
        result == Success(()) && Model() == Completed(old(Model()), change)
      ensures change.id !in old(completions) ==>
        result == Failure(UnknownTransition(change.id)) && completions == old(completions)
    {
      if change.id !in completions {
        return Failure(UnknownTransition(change.id));
      }
      if completions[change.id].Waiting? {
        completions := completions[change.id := Done];
      }
      result := Success(());
    }

    /** For the shutdown of the process: every future that somebody still waits for is cancelled. */
    method CancelPending()
      modifies this`completions
      ensures Model() == PendingCancelled(old(Model()))
      ensures completions.Keys == old(completions).Keys
      ensures forall id :: id in completions ==>
                completions[id] == if old(completions)[id] == Waiting then Cancelled else old(completions)[id]
    {
      var rest := completions.Keys;
      while rest != {}
        invariant rest <= completions.Keys == old(completions).Keys
        invariant forall id :: id in completions ==>
                    completions[id] == if id in rest then old(completions)[id] else Ended(old(completions)[id])
        decreases |rest|
      {
        var id :| id in rest;
        if completions[id].Waiting? {
          completions := completions[id := Cancelled];
        }
        rest := rest - {id};
      }
    }
  }

  lemma NothingPublished(b: Bridge)
    ensures Published(b, []) == b
  {
  }

  lemma PublishOneMore(b: Bridge, changes: seq<Change>, c: Change)
    ensures var done := Published(b, changes);
            Published(b, changes + [c]) == Bridge(done.queue + [c], done.completions[c.id := Waiting])
  {
    var all := changes + [c];
    assert Ids(all) == Ids(changes) + {c.id} by {
      assert all[|changes|] == c;
      forall x | x in changes ensures x in all {
      }
    }
    assert b.queue + all == (b.queue + changes) + [c];
  }

  lemma {:induction false} ChangesForExact(topic: string, tps: seq<TopicPartition>, ids: seq<TransitionId>,
                                           acquire: bool)
    requires |ids| == |tps|
    ensures IsOnePerPartition(ChangesFor(topic, tps, ids, acquire), topic, tps, ids, acquire)
  {
    hide ArePlacesOf, FollowPlaces;
    if tps == [] {
      NoPlaces(topic, ids, acquire);
    } else {
      var n: nat := |tps| - 1;
      ChangesForExact(topic, tps[..n], ids[..n], acquire);
      var before := ChangesFor(topic, tps[..n], ids[..n], acquire);
      var places :| ArePlacesOf(places, topic, tps[..n]) && FollowPlaces(before, places, tps[..n], ids[..n], acquire);
      NextPlace(places, topic, tps);
      NextFollows(before, places, tps, ids, acquire);
      assert tps[n].topic == topic ==>
        FollowPlaces(ChangesFor(topic, tps, ids, acquire), places + [n], tps, ids, acquire);
    }
  }

  lemma NoPlaces(topic: string, ids: seq<TransitionId>, acquire: bool)
    ensures ArePlacesOf([], topic, []) && FollowPlaces([], [], [], ids, acquire)
  {
  }

  lemma NextPlace(places: seq<nat>, topic: string, tps: seq<TopicPartition>)
    requires tps != [] && ArePlacesOf(places, topic, tps[..|tps| - 1])
    ensures var n: nat := |tps| - 1;
            if tps[n].topic == topic then ArePlacesOf(places + [n], topic, tps) else ArePlacesOf(places, topic, tps)
  {
    var n: nat := |tps| - 1;
    forall i | 0 <= i < |places| ensures places[i] < n {
      assert places[i] in places;
    }
    var more := places + [n];
    assert more[|places|] == n;
    assert forall m: nat :: m in more <==> m in places || m == n;
  }

  lemma NextFollows(before: seq<Change>, places: seq<nat>, tps: seq<TopicPartition>, ids: seq<TransitionId>,
                    acquire: bool)
    requires tps != [] && |ids| == |tps|
    requires FollowPlaces(before, places, tps[..|tps| - 1], ids[..|tps| - 1], acquire)
    ensures FollowPlaces(before, places, tps, ids, acquire)
    ensures var n: nat := |tps| - 1;
            var next := if acquire then Acquired(ids[n], tps[n].partition) else Released(ids[n], tps[n].partition);
            FollowPlaces(before + [next], places + [n], tps, ids, acquire)
  {
  }

  /** Different partitions under different ids are what a callback may announce. */
  lemma PublishedAreAnnounceable(topic: string, tps: seq<TopicPartition>, ids: seq<TransitionId>, acquire: bool,
                                 changes: seq<Change>)
    requires IsOnePerPartition(changes, topic, tps, ids, acquire)
    requires Distinct(tps) && Distinct(ids)
    ensures changes == [] || (Announceable(changes) && SameKind(changes))
    ensures forall c :: c in changes ==> c.Acquired? == acquire
  {
    var places :| ArePlacesOf(places, topic, tps) && FollowPlaces(changes, places, tps, ids, acquire);
    forall i, j | 0 <= i < j < |changes|
      ensures changes[i].id != changes[j].id && changes[i].shard != changes[j].shard
    {
      assert places[i] in places && places[j] in places;
      assert tps[places[i]] != tps[places[j]];
    }
    hide Distinct;
  }
}
