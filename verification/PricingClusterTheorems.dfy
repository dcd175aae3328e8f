/** What holds in every run of the Kafka pricing workers, whatever the rebalances and crashes. */
module PricingClusterTheorems {
  import opened Common
  import opened Wrappers
  import opened Sessions
  import opened Replay
  import opened Handshake
  import opened Mailbox
  import opened PricingWorker
  import opened PricingCluster
  import opened PricingClusterSafety
  import SP = ShardProtocol

  // ----- Single owner -----

  lemma EntryIsOwned(wk: Worker, route: RequestId -> ShardId, owned: set<ShardId>, id: RequestId)
    requires WorkerInv(wk, route, owned) && id in wk.registry
    ensures route(id) in owned
  {
    hide BridgeInv, TaskInv, MailInv;
    assert id in OfShard(wk.registry, route, route(id));
    assert route(id) in owned || NothingOf(LocalOf(wk, route, route(id)));
  }

  /** The worker has a task for the shard, or is about to release it. */
  predicate HoldsShard(wk: Worker, p: ShardId) {
    p in wk.tasks || ((wk.phase.Stopping? || wk.phase.Releasing?) && wk.phase.change.shard == p)
  }

  lemma ModeIsHeld(wk: Worker, route: RequestId -> ShardId, owned: set<ShardId>, p: ShardId)
    requires WorkerInv(wk, route, owned)
    ensures ModeOf(wk, route, p).Running? || ModeOf(wk, route, p).Stopped? ==> HoldsShard(wk, p)
  {
    hide BridgeInv, MailInv, OnlyOwned;
  }

  lemma QuietRegistryIsEmpty(x: SP.Shard)
    requires SP.Inv(x) && x.registry != map[]
    ensures x.mode.Running? || x.mode.Stopped?
  {
    hide SP.OffsetInv, SP.FlightInv, SP.CursorInv, SP.ReplayInv;
  }

  lemma EntryIsHeld(c: Cluster, w: WorkerId, id: RequestId)
    requires Inv(c) && w in c.workers && id in c.workers[w].registry
    ensures var p := c.route(id);
            && p in c.partitions && c.partitions[p].owner == Some(w)
            && HoldsShard(c.workers[w], p)
            && LocalAt(c, p) == LocalOf(c.workers[w], c.route, p)
            && id in ShardOf(c, p).registry && ShardOf(c, p).registry[id] == c.workers[w].registry[id]
  {
    hide WorkersInv, ShardsInv, RoutedInv, WorkerInv, SP.Inv, ModeOf, Flight, HoldsShard;
    var wk, p := c.workers[w], c.route(id);
    WorkerOk(c, w);
    EntryIsOwned(wk, c.route, Owned(c, w), id);
    assert p in c.partitions && c.partitions[p].owner == Some(w);
    assert id in OfShard(wk.registry, c.route, p);
    ShardOk(c, p);
    QuietRegistryIsEmpty(ShardOf(c, p));
    ModeIsHeld(wk, c.route, Owned(c, w), p);
  }

  /** No request is ever in two workers' registries, and each entry of a registry resolves to a shard
      that the broker has assigned to that worker alone and that the worker holds or is releasing. */
  lemma SingleOwner(c: Cluster, actions: seq<Action>, v: WorkerId, w: WorkerId, id: RequestId)
    requires Init(c) && IsRun(c, actions)
    requires var f := Final(c, actions); w in f.workers && id in f.workers[w].registry
    ensures var f := Final(c, actions);
            var p := f.route(id);
            && p in f.partitions && f.partitions[p].owner == Some(w) && HoldsShard(f.workers[w], p)
            && (v in f.workers && v != w ==> id !in f.workers[v].registry)
  {
    hide Inv, Init, HoldsShard, LocalAt, LocalOf, ShardOf;
    Reached(c, actions);
    var f := Final(c, actions);
    EntryIsHeld(f, w, id);
    if v in f.workers && id in f.workers[v].registry {
      EntryIsHeld(f, v, id);
    }
  }

  /** Hence no shard ever has consumers in two workers. */
  lemma SingleConsumer(c: Cluster, actions: seq<Action>, v: WorkerId, w: WorkerId, p: ShardId)
    requires Init(c) && IsRun(c, actions)
    requires var f := Final(c, actions);
             v in f.workers && w in f.workers && p in f.workers[v].consumers && p in f.workers[w].consumers
    ensures v == w
  {
    hide Inv, Init, WorkersInv, RoutedInv, ShardsInv, WorkerInv;
    Reached(c, actions);
    var f := Final(c, actions);
    assert WorkersInv(f) by { InvHasWorkers(f); }
    WorkerOk(f, v);
    WorkerOk(f, w);
    ConsumerIsOwned(f.workers[v], f.route, Owned(f, v), p);
    ConsumerIsOwned(f.workers[w], f.route, Owned(f, w), p);
  }

  lemma InvHasWorkers(c: Cluster)
    requires Inv(c)
    ensures WorkersInv(c)
  {
  }

  lemma ConsumerIsOwned(wk: Worker, route: RequestId -> ShardId, owned: set<ShardId>, p: ShardId)
    requires WorkerInv(wk, route, owned) && p in wk.consumers
    ensures p in owned
  {
    hide BridgeInv, TaskInv, MailInv;
    assert p in owned || NothingOf(LocalOf(wk, route, p));
  }

  /** "Shard already acquired", "Unknown ownership transition" and "Unknown RFQ domain event delivery"
      are never raised. */
  lemma NoRuntimeErrors(c: Cluster, actions: seq<Action>, next: Action)
    requires Init(c) && IsRun(c, actions) && Enabled(Final(c, actions), next)
    ensures !Raises(Final(c, actions), next)
    ensures NothingToRaise(Final(c, actions), next)
  {
    hide Inv, Init, Enabled, Raises, NothingToRaise;
    Reached(c, actions);
    StepGood(Final(c, actions), next);
    RaisesOtherwise(Final(c, actions), next);
  }

  /** A shard to be acquired has no task, a change to be completed has its future, and a delivery to be
      acknowledged is pending. */
  predicate NothingToRaise(c: Cluster, a: Action)
    requires Enabled(c, a)
  {
    match a
    case TakeChange(w) =>
      var change := c.workers[w].bridge.queue[0];
      change.Released? || change.shard !in c.workers[w].tasks
    case CompleteChange(w) => c.workers[w].phase.change.id in c.workers[w].bridge.completions
    case PopPending(w, p) => c.workers[w].mail.inHand[p].id in c.workers[w].mail.pendings
    case _ => true
  }

  /** The three errors are raised exactly otherwise. */
  lemma RaisesOtherwise(c: Cluster, a: Action)
    requires Enabled(c, a)
    ensures Raises(c, a) <==> !NothingToRaise(c, a)
  {
  }

  // ----- No skipped message -----

  lemma {:induction false} RunsCompose(c: Cluster, actions: seq<Action>, more: seq<Action>)
    requires IsRun(c, actions) && IsRun(Final(c, actions), more)
    ensures IsRun(c, actions + more) && Final(c, actions + more) == Final(Final(c, actions), more)
    decreases |actions|
  {
    hide Apply, Enabled;
    if actions == [] {
      assert actions + more == more;
    } else {
      assert (actions + more)[1..] == actions[1..] + more;
      RunsCompose(Apply(c, actions[0]), actions[1..], more);
    }
  }

  /** However a run goes on, the committed offset of a partition never decreases, and every message
      between its first committed offset and the current one has had its handler finish. */
  lemma NothingSkipped(c: Cluster, actions: seq<Action>, more: seq<Action>, p: ShardId)
    requires Init(c) && IsRun(c, actions) && IsRun(Final(c, actions), more) && p in c.partitions
    ensures var f, g := Final(c, actions), Final(Final(c, actions), more);
            && p in f.partitions && p in g.partitions
            && var start, middle, end := c.partitions[p].committed, f.partitions[p].committed, g.partitions[p];
               && start <= middle <= end.committed <= |end.log|
               && forall o :: start <= o < end.committed && end.log[o].Message? ==> o in end.handled
  {
    InitInv(c);
    ClusterRefinesShards(c, actions, p);
    var f := Final(c, actions);
    ClusterRefinesShards(f, more, p);
    var g := Final(f, more);
    assert c.partitions[p].start == c.partitions[p].committed;
    hide Init, OwnersLive, WorkersInv, RoutedInv, SP.Inv, IsRun, Final, SP.IsRun, SP.Final;
    ShardOk(c, p);
    ShardOk(f, p);
    ShardOk(g, p);
    SP.RunMovesForward(ShardOf(c, p), ShardRun(c, actions, p));
    SP.RunMovesForward(ShardOf(f, p), ShardRun(f, more, p));
    forall o | c.partitions[p].committed <= o < g.partitions[p].committed
      ensures o < |g.partitions[p].log| && (g.partitions[p].log[o].Message? ==> o in g.partitions[p].handled)
    {
      SP.NothingSkipped(ShardOf(g, p), o);
    }
    assert g.partitions[p].committed <= |g.partitions[p].log| by { CommittedInLog(ShardOf(g, p)); }
  }

  lemma CommittedInLog(x: SP.Shard)
    requires SP.Inv(x)
    ensures x.committed <= |x.log|
  {
  }

  // ----- Cache and store -----

  /** Every session in a registry is stored durably. Its value differs from the stored one exactly when its
      shard's last durable save is not committed, was of this very session, and has not reached the
      registry; while the shard's consumer runs, that is when the event in hand is between its two saves. */
  lemma CacheAgreesWithStore(c: Cluster, actions: seq<Action>, w: WorkerId, id: RequestId)
    requires Init(c) && IsRun(c, actions)
    requires var f := Final(c, actions); w in f.workers && id in f.workers[w].registry
    ensures var f := Final(c, actions);
            var wk, p := f.workers[w], f.route(id);
            && id in f.durable && p in f.partitions
            && (wk.registry[id] != f.durable[id] <==> SaveNotShared(f.partitions[p], wk.registry, id))
            && (p in wk.consumers ==>
                  (wk.registry[id] != f.durable[id] <==>
                     && wk.consumers[p].Saved? && p in wk.mail.inHand
                     && wk.mail.inHand[p].event.rfqId == id
                     && wk.registry[id] != RegisteredSession(wk.mail.inHand[p].event)))
  {
    hide Inv, Init;
    Reached(c, actions);
    var f := Final(c, actions);
    EntryIsHeld(f, w, id);
    var wk, p := f.workers[w], f.route(id);
    hide WorkersInv, RoutedInv, ShardsInv, SP.Inv, LocalOf, LocalAt, HoldsShard, WorkerInv;
    ShardOk(f, p) by { InvHasShards(f); }
    assert ShardOf(f, p).durable == OfShard(f.durable, f.route, p);
    SP.CacheDiffersExactlyAfterUnsharedSave(ShardOf(f, p), id);
    if p in wk.consumers {
      assert ShardOf(f, p).mode == SP.Running(wk.consumers[p]) by { ConsumerMode(wk, f.route, p); }
      SP.CacheDiffersExactlyBetweenSaves(ShardOf(f, p), id);
      if wk.consumers[p].Saved? {
        assert p in wk.mail.inHand by { InvHasWorkers(f); WorkerOk(f, w); SavedHasInHand(wk, f.route, Owned(f, w), p); }
        HeldEventIsRouted(f, w, p);
      }
    }
  }

  /** The last durable save of the partition's holder is not committed, was of this session, and the
      registry does not have it. */
  predicate SaveNotShared(part: Partition, registry: SessionMap, id: RequestId)
    requires id in registry
  {
    && part.committed < part.cursor <= |part.log| && part.log[part.cursor - 1].Message?
    && part.log[part.cursor - 1].event.rfqId == id
    && registry[id] != RegisteredSession(part.log[part.cursor - 1].event)
  }

  lemma InvHasShards(c: Cluster)
    requires Inv(c)
    ensures OwnersLive(c) && ShardsInv(c)
  {
  }

  lemma ConsumerMode(wk: Worker, route: RequestId -> ShardId, p: ShardId)
    requires p in wk.consumers
    ensures LocalOf(wk, route, p).mode == SP.Running(wk.consumers[p])
  {
  }

  lemma SavedHasInHand(wk: Worker, route: RequestId -> ShardId, owned: set<ShardId>, p: ShardId)
    requires WorkerInv(wk, route, owned) && At(wk, p, SP.Saved)
    ensures p in wk.mail.inHand
  {
    hide BridgeInv, TaskInv, OnlyOwned, Agree;
  }

  /** Between events, a shard's part of its worker's registry is the shard's active durable sessions. */
  lemma CacheEqualsStoreBetweenEvents(c: Cluster, actions: seq<Action>, w: WorkerId, p: ShardId)
    requires Init(c) && IsRun(c, actions)
    requires var f := Final(c, actions); w in f.workers && At(f.workers[w], p, SP.Waiting)
    ensures var f := Final(c, actions);
            && OfShard(f.workers[w].registry, f.route, p) == OfShard(ActiveOnly(f.durable), f.route, p)
            && forall id :: f.route(id) == p ==>
                 var registry := f.workers[w].registry;
                 && (id in registry <==> id in f.durable && f.durable[id].status == Active)
                 && (id in registry ==> registry[id] == f.durable[id])
  {
    hide Inv, Init;
    Reached(c, actions);
    var f := Final(c, actions);
    hide WorkersInv, RoutedInv, ShardsInv, SP.Inv, ModeOf, Flight, WorkerInv, OfShard, ActiveOnly;
    InvHasWorkers(f);
    WorkerOk(f, w);
    ConsumerIsOwned(f.workers[w], f.route, Owned(f, w), p);
    ShardOk(f, p) by { InvHasShards(f); }
    ConsumerMode(f.workers[w], f.route, p);
    SP.CacheEqualsStoreBetweenEvents(ShardOf(f, p));
    ActiveOfShard(f.durable, f.route, p);
    SameSessions(f.workers[w].registry, f.durable, f.route, p);
  }

  lemma SameSessions(registry: SessionMap, durable: SessionMap, route: RequestId -> ShardId, p: ShardId)
    requires OfShard(registry, route, p) == OfShard(ActiveOnly(durable), route, p)
    ensures forall id :: route(id) == p ==>
              && (id in registry <==> id in durable && durable[id].status == Active)
              && (id in registry ==> registry[id] == durable[id])
  {
    forall id | route(id) == p
      ensures id in registry <==> id in durable && durable[id].status == Active
      ensures id in registry ==> registry[id] == durable[id]
    {
      assert id in registry <==> id in OfShard(registry, route, p);
    }
  }

  // What a run of the cluster is for one of its shards.
  lemma ShardReached(c: Cluster, actions: seq<Action>, p: ShardId)
    requires Init(c) && IsRun(c, actions) && p in c.partitions
    ensures var f := Final(c, actions);
            && Inv(f) && p in f.partitions && f.route == c.route
            && SP.Inv(ShardOf(f, p))
            && f.partitions[p].start == c.partitions[p].committed
            && ShardOf(f, p).initial == OfShard(c.durable, c.route, p)
  {
    InitInv(c);
    ClusterRefinesShards(c, actions, p);
    RunKeepsRoute(c, actions);
    var f := Final(c, actions);
    assert c.partitions[p].start == c.partitions[p].committed && c.initial == c.durable;
    hide Init, OwnersLive, WorkersInv, RoutedInv, SP.Inv, IsRun, Final, SP.IsRun, SP.Final, OfShard, LocalAt;
    ShardOk(c, p);
    ShardOk(f, p);
    SP.RunMovesForward(ShardOf(c, p), ShardRun(c, actions, p));
  }

  /** Whatever was redelivered, and to whomever: the durable session of every request that the current
      replay is not going to register again is what processing its log once, up to the furthest save ever,
      leaves. If the holder has caught up with that save, this is so for all sessions of the shard. */
  lemma SessionsConverge(c: Cluster, actions: seq<Action>, p: ShardId)
    requires Init(c) && IsRun(c, actions) && p in c.partitions
    ensures var f := Final(c, actions);
            && p in f.partitions
            && var part, start := f.partitions[p], c.partitions[p].committed;
               && start <= part.highWater <= |part.log|
               && var once := Process(OfShard(c.durable, c.route, p), part.log[start..part.highWater]);
                  && (forall id: RequestId :: Silent(part.log, part.cursor, part.highWater, id) ==>
                        SameAt(OfShard(f.durable, c.route, p), once, id))
                  && (part.cursor == part.highWater ==> OfShard(f.durable, c.route, p) == once)
                  && forall id: RequestId, o: nat ::
                       start <= o && IsLastFor(part.log, o, part.highWater, id)
                       && Silent(part.log, part.cursor, part.highWater, id) ==>
                         id in f.durable && HasTermsOf(f.durable[id], part.log[o].event)
  {
    ShardReached(c, actions, p);
    var f := Final(c, actions);
    var x := ShardOf(f, p);
    hide Inv, Init, IsRun, Final, SP.Inv, OfShard, Process, LocalAt, Silent, SameAt, HasTermsOf, IsLastFor;
    assert x.log == f.partitions[p].log && x.durable == OfShard(f.durable, c.route, p);
    SP.HighWaterInLog(x);
    forall id: RequestId | Silent(x.log, x.cursor, x.highWater, id)
      ensures SameAt(x.durable, Process(x.initial, x.log[x.start..x.highWater]), id)
    {
      SP.RequestConverges(x, id);
    }
    if x.cursor == x.highWater {
      SP.CaughtUpConverges(x);
    }
    forall id: RequestId, o: nat
      | c.partitions[p].committed <= o && IsLastFor(x.log, o, x.highWater, id)
        && Silent(x.log, x.cursor, x.highWater, id)
      ensures id in f.durable && HasTermsOf(f.durable[id], x.log[o].event)
    {
      StretchGivesTerms(x.initial, x.log, x.start, o, x.highWater, id);
      DurableOfShard(f.durable, Process(x.initial, x.log[x.start..x.highWater]), c.route, p, id);
    }
  }

  lemma DurableOfShard(durable: SessionMap, once: SessionMap, route: RequestId -> ShardId, p: ShardId, id: RequestId)
    requires SameAt(OfShard(durable, route, p), once, id) && id in once
    ensures id in durable && durable[id] == once[id]
  {
  }

  /** Hence once a partition has no message left to commit, the shard's durable sessions are those that
      processing its whole log once would have left. */
  lemma RedeliveryConverges(c: Cluster, actions: seq<Action>, p: ShardId)
    requires Init(c) && IsRun(c, actions) && p in c.partitions
    requires var f := Final(c, actions);
             p in f.partitions && SP.NoMessages(f.partitions[p].log, f.partitions[p].committed)
    ensures var f := Final(c, actions);
            && c.partitions[p].committed <= |f.partitions[p].log|
            && OfShard(f.durable, c.route, p) ==
                 Process(OfShard(c.durable, c.route, p), f.partitions[p].log[c.partitions[p].committed..])
            && var log := f.partitions[p].log;
               forall id: RequestId, o: nat :: c.partitions[p].committed <= o && IsLastFor(log, o, |log|, id) ==>
                 id in f.durable && HasTermsOf(f.durable[id], log[o].event)
  {
    ShardReached(c, actions, p);
    hide Inv, Init, IsRun, Final, SP.Inv, OfShard, Process, LocalAt, SP.NoMessages, HasTermsOf, IsLastFor, SameAt;
    var f, x := Final(c, actions), ShardOf(Final(c, actions), p);
    SP.RedeliveryConverges(x);
    forall id: RequestId, o: nat | x.start <= o && IsLastFor(x.log, o, |x.log|, id)
      ensures id in f.durable && HasTermsOf(f.durable[id], x.log[o].event)
    {
      RedeliveredTerms(f.durable, x.initial, x.log, x.start, o, c.route, p, id);
    }
  }

  lemma RedeliveredTerms(durable: SessionMap, initial: SessionMap, log: seq<Entry>, start: nat, o: nat,
                         route: RequestId -> ShardId, p: ShardId, id: RequestId)
    requires start <= o && IsLastFor(log, o, |log|, id) && OfShard(durable, route, p) == Process(initial, log[start..])
    ensures id in durable && HasTermsOf(durable[id], log[o].event)
  {
    hide HasTermsOf, OfShard, Process, SameAt, Silent;
    assert log[start..] == log[start..|log|];
    StretchGivesTerms(initial, log, start, o, |log|, id);
    SameAtItself(OfShard(durable, route, p), id);
    DurableOfShard(durable, OfShard(durable, route, p), route, p, id);
  }

  lemma SameAtItself(m: SessionMap, id: RequestId)
    ensures SameAt(m, m, id)
  {
  }

  lemma {:induction false} RunKeepsRoute(c: Cluster, actions: seq<Action>)
    requires IsRun(c, actions)
    ensures Final(c, actions).route == c.route
    decreases |actions|
  {
    if actions != [] {
      assert Apply(c, actions[0]).route == c.route;
      RunKeepsRoute(Apply(c, actions[0]), actions[1..]);
    }
  }

  // ----- Handshake -----

  /** A rebalance callback that waits has published some changes; the runtime completes them in that order,
      each once: the open ones are a suffix, those before it are done, and `_completions` has exactly
      these ids. It can return just when the runtime has completed them all. */
  lemma HandshakeHolds(c: Cluster, actions: seq<Action>, w: WorkerId)
    requires Init(c) && IsRun(c, actions) && w in Final(c, actions).workers
    ensures var wk := Final(c, actions).workers[w];
            match wk.callback
            case None => Open(wk) == [] && wk.bridge.completions == map[]
            case Some(changes) =>
              && Progress(wk.bridge.completions, changes, Open(wk))
              && (CanReturn(wk) <==> Open(wk) == [])
  {
    hide Inv, Init, WorkersInv, WorkerInv;
    Reached(c, actions);
    var f := Final(c, actions);
    InvHasWorkers(f);
    WorkerOk(f, w);
    BridgeHolds(f.workers[w], f.route, Owned(f, w));
  }

  lemma BridgeHolds(wk: Worker, route: RequestId -> ShardId, owned: set<ShardId>)
    requires WorkerInv(wk, route, owned)
    ensures match wk.callback
            case None => Open(wk) == [] && wk.bridge.completions == map[]
            case Some(changes) =>
              && Progress(wk.bridge.completions, changes, Open(wk))
              && (CanReturn(wk) <==> Open(wk) == [])
  {
    hide TaskInv, MailInv, OnlyOwned, Open;
    if wk.callback.Some? {
      var changes, open := wk.callback.value, Open(wk);
      if open == [] {
        forall x | x in changes ensures x.id in wk.bridge.completions && wk.bridge.completions[x.id].Done? {
          var i :| 0 <= i < |changes| && changes[i] == x;
        }
      } else {
        var x := changes[|changes| - |open|];
        assert x in changes && wk.bridge.completions[x.id] == Waiting;
      }
    }
  }

  /** When a revoke callback returns, its worker has nothing left of the revoked shards: no session,
      no task, no delivery, no position. */
  lemma RevokeReturnsEmptyHanded(c: Cluster, actions: seq<Action>, w: WorkerId, p: ShardId)
    requires Init(c) && IsRun(c, actions)
    requires var f := Final(c, actions);
             && w in f.workers && CanReturn(f.workers[w])
             && var changes := f.workers[w].callback.value;
                changes != [] && changes[0].Released? && p in Shards(changes)
    ensures var f := Final(c, actions);
            var wk := f.workers[w];
            && p in Owned(f, w)
            && (forall id :: id in wk.registry ==> f.route(id) != p)
            && p !in wk.consumers && p !in wk.positions && Unacked(wk.mail, p) == []
  {
    hide Inv, Init, CanReturn, Shards;
    Reached(c, actions);
    var f := Final(c, actions);
    ReturnLeavesNothing(f, w, p);
    NothingMeans(f.workers[w], f.route, p);
  }

  lemma NothingMeans(wk: Worker, route: RequestId -> ShardId, p: ShardId)
    requires LocalOf(wk, route, p) == Local(SP.Quiet, map[], [], None)
    ensures forall id :: id in wk.registry ==> route(id) != p
    ensures p !in wk.consumers && p !in wk.positions && Unacked(wk.mail, p) == []
  {
    forall id | id in wk.registry ensures route(id) != p {
      assert id in OfShard(wk.registry, route, p) <==> route(id) == p;
    }
    assert |Flight(wk.mail, p)| == |Unacked(wk.mail, p)|;
  }

  // ----- Mailboxes -----

  /** In every run, the pending entries of a shard are exactly its queued deliveries plus the one in hand;
      and for a shard that is listened to, they are the messages of its log from the first offset not yet
      popped up to its position, in order. */
  lemma PendingTableIsExact(c: Cluster, actions: seq<Action>, w: WorkerId, p: ShardId)
    requires Init(c) && IsRun(c, actions) && w in Final(c, actions).workers
    ensures var f := Final(c, actions);
            var wk := f.workers[w];
            && (set id | id in wk.mail.pendings && wk.mail.pendings[id].shard == p) ==
                 (set d | d in Unacked(wk.mail, p) :: d.id)
            && (p in Owned(f, w) && p in wk.positions ==>
                  var part := f.partitions[p];
                  var popped := p in wk.consumers && wk.consumers[p].Committing?;
                  var low := if popped then wk.consumers[p].offset + 1 else part.committed;
                  && low <= wk.positions[p] <= |part.log|
                  && Flight(wk.mail, p) == SP.Items(part.log, low, wk.positions[p]))
  {
    hide Inv, Init, WorkersInv, WorkerInv, ShardsInv, SP.Inv;
    Reached(c, actions);
    var f := Final(c, actions);
    var wk := f.workers[w];
    InvHasWorkers(f);
    WorkerOk(f, w);
    MailAgrees(wk, f.route, Owned(f, w));
    PendingIsUnacked(wk.mail, p);
    hide Agree, Unacked, Flight;
    if p in Owned(f, w) && p in wk.positions {
      InvHasShards(f);
      ShardOk(f, p);
      FlightIsInterval(ShardOf(f, p));
    }
  }

  lemma MailAgrees(wk: Worker, route: RequestId -> ShardId, owned: set<ShardId>)
    requires WorkerInv(wk, route, owned)
    ensures Agree(wk.mail)
  {
  }

  lemma FlightIsInterval(x: SP.Shard)
    requires SP.Inv(x) && x.position.Some?
    ensures SP.Low(x) <= x.position.value <= |x.log|
    ensures x.flight == SP.Items(x.log, SP.Low(x), x.position.value)
  {
    hide SP.OffsetInv, SP.CacheInv, SP.CursorInv, SP.ReplayInv;
  }
}
