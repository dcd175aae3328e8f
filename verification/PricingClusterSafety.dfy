/** Every step of the cluster is, for each shard, one step of that shard or none; hence what holds of a
    shard in all its runs holds in all runs of the cluster, and no RuntimeError is ever raised. */
module PricingClusterSafety {
  import opened Common
  import opened Wrappers
  import opened Sessions
  import opened Replay
  import opened Handshake
  import opened Mailbox
  import opened PricingWorker
  import opened PricingWorkerSteps
  import opened PricingWorkerSafety
  import opened PricingCluster
  import SP = ShardProtocol

  /** The step that an action of the cluster is for shard `p`, if any. */
  function Projection(c: Cluster, a: Action, p: ShardId): Option<SP.Action>
    requires Enabled(c, a) && p in c.partitions
  {
    match a
    case Produce(q, entry) => if q == p then Some(SP.Append(entry)) else None
    case CrashWorker(w) => if c.partitions[p].owner == Some(w) then Some(SP.Crash) else None
    case CallAssigned(w, changes) => if p in Shards(changes) then Some(SP.Assign(w)) else None
    case ReturnCallback(w) =>
      var changes := c.workers[w].callback.value;
      if changes != [] && changes[0].Released? && p in Shards(changes) then Some(SP.Unassign) else None
    case ReadSnapshot(w) => if c.workers[w].phase.change.shard == p then Some(SP.ReadSnapshot) else None
    case FillRegistry(w) => if c.workers[w].phase.change.shard == p then Some(SP.FillRegistry) else None
    case EndTask(w) => if c.workers[w].phase.change.shard == p then Some(SP.Stop) else None
    case ReleaseShard(w) => if c.workers[w].phase.change.shard == p then Some(SP.Release) else None
    case Deliver(_, q, _, o) => if q == p then Some(SP.Deliver(o)) else None
    case TakeDelivery(_, q) => if q == p then Some(SP.Take) else None
    case SaveDurable(_, q) => if q == p then Some(SP.SaveDurable) else None
    case SaveRegistry(_, q) => if q == p then Some(SP.SaveRegistry) else None
    case FinishHandler(_, q) => if q == p then Some(SP.Finish) else None
    case PopPending(_, q) => if q == p then Some(SP.Pop) else None
    case CommitOffset(_, q) => if q == p then Some(SP.Commit) else None
    case _ => None
  }

  ghost predicate Simulates(c: Cluster, c': Cluster, p: ShardId, m: Option<SP.Action>)
    requires OwnersLive(c) && p in c.partitions
  {
    && OwnersLive(c') && p in c'.partitions
    && match m
       case None => ShardOf(c', p) == ShardOf(c, p)
       case Some(x) => SP.Enabled(ShardOf(c, p), x) && ShardOf(c', p) == SP.Apply(ShardOf(c, p), x)
  }

  /** All but the shards' own invariant, plus the simulation that gives it. */
  ghost predicate GoodStep(c: Cluster, a: Action)
    requires OwnersLive(c) && Enabled(c, a)
  {
    var c' := Apply(c, a);
    && !Raises(c, a)
    && OwnersLive(c') && WorkersInv(c') && RoutedInv(c')
    && c'.partitions.Keys == c.partitions.Keys
    && (forall p :: p in c.partitions ==> Simulates(c, c', p, Projection(c, a, p)))
  }

  lemma WorkerOk(c: Cluster, w: WorkerId)
    requires WorkersInv(c) && w in c.workers
    ensures WorkerInv(c.workers[w], c.route, Owned(c, w))
  {
    hide WorkerInv;
  }

  // ----- Frames -----

  /** A step of one worker that only one of its shards can see. */
  lemma OneShardMoves(c: Cluster, c': Cluster, w: WorkerId, p: ShardId)
    requires OwnersLive(c) && WorkersInv(c) && RoutedInv(c) && w in c.workers && p in Owned(c, w)
    requires c'.route == c.route && c'.initial == c.initial
    requires c'.workers.Keys == c.workers.Keys && forall v :: v in c.workers && v != w ==> c'.workers[v] == c.workers[v]
    requires c'.partitions.Keys == c.partitions.Keys
    requires forall q :: q in c.partitions && q != p ==> c'.partitions[q] == c.partitions[q]
    requires c'.partitions[p].owner == c.partitions[p].owner && c'.partitions[p].log == c.partitions[p].log
    requires forall q: ShardId :: q != p ==> OfShard(c'.durable, c.route, q) == OfShard(c.durable, c.route, q)
    requires WorkerInv(c'.workers[w], c.route, Owned(c, w))
    requires SameElsewhere(c.workers[w], c'.workers[w], c.route, p)
    ensures OwnersLive(c') && WorkersInv(c') && RoutedInv(c')
    ensures forall q :: q in c.partitions && q != p ==> ShardOf(c', q) == ShardOf(c, q)
    ensures ShardOf(c', p) == Combine(c'.partitions[p], OfShard(c'.durable, c.route, p), OfShard(c.initial, c.route, p),
                                      LocalOf(c'.workers[w], c.route, p))
  {
    hide WorkerInv, LocalOf, OfShard, Routed;
    forall v | v in c'.workers ensures WorkerInv(c'.workers[v], c'.route, Owned(c', v)) {
      assert Owned(c', v) == Owned(c, v);
    }
  }

  /** A step of one worker that no shard can see. */
  lemma NoShardMoves(c: Cluster, w: WorkerId, wk: Worker)
    requires OwnersLive(c) && WorkersInv(c) && RoutedInv(c) && w in c.workers
    requires WorkerInv(wk, c.route, Owned(c, w)) && SameEverywhere(c.workers[w], wk, c.route)
    ensures var c' := SetWorker(c, w, wk);
            && OwnersLive(c') && WorkersInv(c') && RoutedInv(c')
            && forall p :: p in c.partitions ==> Simulates(c, c', p, None)
  {
    hide WorkerInv, LocalOf, OfShard, Routed;
    var c' := SetWorker(c, w, wk);
    forall v | v in c'.workers ensures WorkerInv(c'.workers[v], c'.route, Owned(c', v)) {
      assert Owned(c', v) == Owned(c, v);
    }
  }

  lemma SetWorkerMoves(c: Cluster, w: WorkerId, wk: Worker, p: ShardId)
    requires OwnersLive(c) && WorkersInv(c) && RoutedInv(c) && w in c.workers && p in Owned(c, w)
    requires WorkerInv(wk, c.route, Owned(c, w)) && SameElsewhere(c.workers[w], wk, c.route, p)
    ensures var c' := SetWorker(c, w, wk);
            && OwnersLive(c') && WorkersInv(c') && RoutedInv(c')
            && (forall q :: q in c.partitions && q != p ==> Simulates(c, c', q, None))
            && ShardOf(c', p) == Combine(c.partitions[p], OfShard(c.durable, c.route, p),
                OfShard(c.initial, c.route, p),
                                         LocalOf(wk, c.route, p))
  {
    hide WorkerInv, LocalOf, OfShard, Routed, SameElsewhere;
    OneShardMoves(c, SetWorker(c, w, wk), w, p);
  }

  // ----- Environment -----

  lemma OwnedSame(c: Cluster, c': Cluster, v: WorkerId)
    requires c'.partitions.Keys == c.partitions.Keys
    requires forall p :: p in c.partitions ==> (c'.partitions[p].owner == Some(v) <==> c.partitions[p].owner == Some(v))
    ensures Owned(c', v) == Owned(c, v)
  {
  }

  lemma ProduceKeepsWorkers(c: Cluster, a: Action)
    requires OwnersLive(c) && WorkersInv(c) && a.Produce? && Enabled(c, a)
    ensures OwnersLive(Apply(c, a)) && WorkersInv(Apply(c, a))
  {
    hide WorkerInv;
    var c' := Apply(c, a);
    forall v | v in c'.workers ensures WorkerInv(c'.workers[v], c'.route, Owned(c', v)) {
      OwnedSame(c, c', v);
    }
  }

  lemma ProduceKeepsRoutes(c: Cluster, a: Action)
    requires RoutedInv(c) && a.Produce? && Enabled(c, a)
    ensures RoutedInv(Apply(c, a))
  {
    assert Routed(c.route, a.p, c.partitions[a.p].log);
  }

  lemma ProduceGood(c: Cluster, a: Action)
    requires Inv(c) && a.Produce? && Enabled(c, a)
    ensures GoodStep(c, a)
  {
    hide WorkersInv, ShardsInv, RoutedInv, OwnersLive, WorkerInv, LocalOf, OfShard;
    ProduceKeepsWorkers(c, a);
    ProduceKeepsRoutes(c, a);
  }

  lemma StartKeepsWorkers(c: Cluster, a: Action)
    requires OwnersLive(c) && WorkersInv(c) && a.StartWorker? && Enabled(c, a)
    ensures OwnersLive(Apply(c, a)) && WorkersInv(Apply(c, a))
  {
    NewWorkerInv(c.route);
    hide WorkerInv;
    var c' := Apply(c, a);
    forall v | v in c'.workers ensures WorkerInv(c'.workers[v], c'.route, Owned(c', v)) {
      OwnedSame(c, c', v);
      if v == a.w {
        assert Owned(c, v) == {};
      }
    }
  }

  lemma StartedElsewhere(c: Cluster, a: Action, p: ShardId)
    requires OwnersLive(c) && a.StartWorker? && Enabled(c, a) && p in c.partitions
    requires OwnersLive(Apply(c, a))
    ensures Simulates(c, Apply(c, a), p, None)
  {
    hide LocalOf, OfShard;
  }

  lemma StartGood(c: Cluster, a: Action)
    requires Inv(c) && a.StartWorker? && Enabled(c, a)
    ensures GoodStep(c, a)
  {
    hide WorkersInv, ShardsInv, OwnersLive, WorkerInv, Simulates, Routed;
    StartKeepsWorkers(c, a);
    forall p | p in c.partitions ensures Simulates(c, Apply(c, a), p, None) {
      StartedElsewhere(c, a, p);
    }
  }

  lemma CrashKeepsWorkers(c: Cluster, w: WorkerId)
    requires OwnersLive(c) && WorkersInv(c) && w in c.workers
    ensures OwnersLive(Crashed(c, w)) && WorkersInv(Crashed(c, w))
  {
    hide WorkerInv;
    var c' := Crashed(c, w);
    forall v | v in c'.workers ensures WorkerInv(c'.workers[v], c'.route, Owned(c', v)) {
      OwnedSame(c, c', v);
    }
  }

  lemma OwnedIsNotFree(wk: Worker, route: RequestId -> ShardId, p: ShardId)
    ensures !LocalOf(wk, route, p).mode.Free?
  {
  }

  lemma CrashMoves(c: Cluster, w: WorkerId, p: ShardId)
    requires OwnersLive(c) && w in c.workers && OwnersLive(Crashed(c, w)) && p in c.partitions
    ensures Simulates(c, Crashed(c, w), p, if c.partitions[p].owner == Some(w) then Some(SP.Crash) else None)
  {
    OwnedIsNotFree(c.workers[w], c.route, p);
    hide LocalOf, OfShard;
  }

  lemma CrashKeepsRoutes(c: Cluster, w: WorkerId)
    requires RoutedInv(c)
    ensures RoutedInv(Crashed(c, w))
  {
    hide Routed;
  }

  lemma CrashGood(c: Cluster, a: Action)
    requires Inv(c) && a.CrashWorker? && Enabled(c, a)
    ensures GoodStep(c, a)
  {
    hide WorkersInv, ShardsInv, RoutedInv, OwnersLive, WorkerInv, Simulates;
    CrashKeepsWorkers(c, a.w);
    CrashKeepsRoutes(c, a.w);
    forall p | p in c.partitions ensures Simulates(c, Apply(c, a), p, Projection(c, a, p)) {
      CrashMoves(c, a.w, p);
    }
  }

  // ----- Callbacks -----

  lemma FirstIsIn(changes: seq<Change>)
    requires Announceable(changes)
    ensures changes[0] in changes
  {
  }

  lemma RevokedGood(c: Cluster, a: Action)
    requires Inv(c) && a.CallRevoked? && Enabled(c, a)
    ensures GoodStep(c, a)
  {
    hide WorkersInv, ShardsInv, RoutedInv, OwnersLive, WorkerInv, Simulates;
    FirstIsIn(a.changes);
    WorkerOk(c, a.w);
    RevokeStep(c.workers[a.w], a.changes, c.route, Owned(c, a.w));
    NoShardMoves(c, a.w, Announced(c.workers[a.w], a.changes));
  }

  lemma AssignKeepsWorkers(c: Cluster, a: Action)
    requires OwnersLive(c) && WorkersInv(c) && a.CallAssigned? && Enabled(c, a)
    requires WorkerInv(AssignedFrom(c.workers[a.w], a.changes, CommittedOffsets(c)), c.route,
                       Owned(c, a.w) + Shards(a.changes))
    ensures OwnersLive(Apply(c, a)) && WorkersInv(Apply(c, a))
  {
    hide WorkerInv, AssignedFrom, Shards, Announceable;
    var c' := Apply(c, a);
    forall v | v in c'.workers ensures WorkerInv(c'.workers[v], c'.route, Owned(c', v)) {
      if v == a.w {
        assert Owned(c', v) == Owned(c, v) + Shards(a.changes);
      } else {
        OwnedSame(c, c', v);
      }
    }
  }

  lemma AssignMoves(c: Cluster, a: Action, p: ShardId)
    requires OwnersLive(c) && a.CallAssigned? && Enabled(c, a) && p in c.partitions
    requires OwnersLive(Apply(c, a))
    requires var l' := LocalOf(AssignedFrom(c.workers[a.w], a.changes, CommittedOffsets(c)), c.route, p);
             if p in Shards(a.changes) then l' == Local(SP.Quiet, map[], [], Some(c.partitions[p].committed))
             else l' == LocalOf(c.workers[a.w], c.route, p)
    ensures Simulates(c, Apply(c, a), p, Projection(c, a, p))
  {
    hide LocalOf, OfShard, AssignedFrom, Shards, Announceable;
  }

  lemma AssignKeepsRoutes(c: Cluster, a: Action)
    requires RoutedInv(c) && a.CallAssigned? && Enabled(c, a)
    ensures RoutedInv(Apply(c, a))
  {
    hide Routed, Announceable, AssignedFrom;
  }

  lemma AssignedGood(c: Cluster, a: Action)
    requires Inv(c) && a.CallAssigned? && Enabled(c, a)
    ensures GoodStep(c, a)
  {
    hide WorkersInv, ShardsInv, RoutedInv, OwnersLive, WorkerInv, Simulates, LocalOf, AssignedFrom;
    FirstIsIn(a.changes);
    WorkerOk(c, a.w);
    AssignStep(c.workers[a.w], a.changes, CommittedOffsets(c), c.route, Owned(c, a.w));
    AssignKeepsWorkers(c, a);
    AssignKeepsRoutes(c, a);
    hide Announceable;
    forall p | p in c.partitions ensures Simulates(c, Apply(c, a), p, Projection(c, a, p)) {
      AssignMoves(c, a, p);
    }
  }

  // A shard that is quiet and no longer listened to has nothing left in its worker.
  lemma QuietHasNothing(x: SP.Shard)
    requires SP.FlightInv(x) && SP.CacheInv(x) && x.mode.Quiet? && x.position.None?
    ensures x.registry == map[] && x.flight == []
  {
  }

  lemma ShardOk(c: Cluster, p: ShardId)
    requires OwnersLive(c) && ShardsInv(c) && p in c.partitions
    ensures SP.Inv(ShardOf(c, p))
  {
    hide SP.Inv;
  }

  lemma ReturnLeavesNothing(c: Cluster, w: WorkerId, p: ShardId)
    requires Inv(c) && w in c.workers && CanReturn(c.workers[w])
    requires var changes := c.workers[w].callback.value;
             changes != [] && changes[0].Released? && p in Shards(changes)
    ensures p in Owned(c, w)
    ensures LocalOf(c.workers[w], c.route, p) == Local(SP.Quiet, map[], [], None)
  {
    hide WorkersInv, ShardsInv, RoutedInv, MailInv, OnlyOwned, OfShard, Flight, SP.ReplayInv, SP.OffsetInv,
      SP.CursorInv;
    var wk := c.workers[w];
    WorkerOk(c, w);
    ReturnKeepsBridge(wk);
    ReturnKeepsTasks(wk, Owned(c, w));
    assert p in Owned(c, w) by { CallbackShardsOwned(wk, Owned(c, w)); }
    ShardOk(c, p);
    hide BridgeInv, TaskInv, SP.FlightInv, SP.CacheInv;
    QuietHasNothing(ShardOf(c, p));
  }

  lemma CallbackShardsOwned(wk: Worker, owned: set<ShardId>)
    requires TaskInv(wk, owned) && wk.callback.Some?
    ensures Shards(wk.callback.value) <= owned
  {
  }

  lemma ReturnedNonempty(wk: Worker)
    requires BridgeInv(wk) && wk.callback.Some?
    ensures wk.callback.value != []
  {
  }

  lemma ReturnEnabled(c: Cluster, a: Action)
    requires a.ReturnCallback? && Enabled(c, a)
    ensures a.w in c.workers && c.workers[a.w].callback.Some? && CanReturn(c.workers[a.w])
  {
  }

  lemma ReturnKeepsWorkers(c: Cluster, a: Action)
    requires OwnersLive(c) && WorkersInv(c) && a.ReturnCallback? && Enabled(c, a) && c.workers[a.w].callback.value != []
    requires var changes := c.workers[a.w].callback.value;
             && (changes[0].Released? ==> Shards(changes) <= Owned(c, a.w))
             && WorkerInv(CallbackReturned(c.workers[a.w]), c.route,
                          if changes[0].Acquired? then Owned(c, a.w) else Owned(c, a.w) - Shards(changes))
    ensures OwnersLive(Apply(c, a)) && WorkersInv(Apply(c, a))
  {
    hide WorkerInv, CallbackReturned, Shards, CanReturn;
    ReturnEnabled(c, a);
    var c', changes := Apply(c, a), c.workers[a.w].callback.value;
    forall v | v in c'.workers ensures WorkerInv(c'.workers[v], c'.route, Owned(c', v)) {
      if v == a.w && changes[0].Released? {
        assert Owned(c', v) == Owned(c, v) - Shards(changes);
      } else {
        OwnedSame(c, c', v);
      }
    }
  }

  lemma ReturnMoves(c: Cluster, a: Action, p: ShardId)
    requires OwnersLive(c) && a.ReturnCallback? && Enabled(c, a) && p in c.partitions
    requires OwnersLive(Apply(c, a))
    requires LocalOf(CallbackReturned(c.workers[a.w]), c.route, p) == LocalOf(c.workers[a.w], c.route, p)
    requires Projection(c, a, p).Some? ==>
               p in Owned(c, a.w) && LocalOf(c.workers[a.w], c.route, p) == Local(SP.Quiet, map[], [], None)
    ensures Simulates(c, Apply(c, a), p, Projection(c, a, p))
  {
    hide LocalOf, OfShard, CallbackReturned, Shards, CanReturn;
  }

  lemma ReturnKeepsRoutes(c: Cluster, a: Action)
    requires RoutedInv(c) && a.ReturnCallback? && Enabled(c, a)
    ensures RoutedInv(Apply(c, a))
  {
    hide Routed, CanReturn, CallbackReturned;
  }

  lemma ReturnGood(c: Cluster, a: Action)
    requires Inv(c) && a.ReturnCallback? && Enabled(c, a)
    ensures GoodStep(c, a)
  {
    hide WorkersInv, ShardsInv, RoutedInv, OwnersLive, Simulates, LocalOf, CallbackReturned, CanReturn, BridgeInv,
      TaskInv, MailInv, OnlyOwned;
    ReturnEnabled(c, a);
    var wk := c.workers[a.w];
    var changes := wk.callback.value;
    WorkerOk(c, a.w);
    ReturnedNonempty(wk);
    CallbackShardsOwned(wk, Owned(c, a.w));
    forall p | p in Shards(changes) && changes[0].Released?
      ensures p in Owned(c, a.w) && LocalOf(wk, c.route, p) == Local(SP.Quiet, map[], [], None)
    {
      ReturnLeavesNothing(c, a.w, p);
    }
    ReturnStep(wk, c.route, Owned(c, a.w));
    hide WorkerInv, Shards;
    ReturnKeepsWorkers(c, a);
    ReturnKeepsRoutes(c, a);
    forall p | p in c.partitions ensures Simulates(c, Apply(c, a), p, Projection(c, a, p)) {
      ReturnMoves(c, a, p);
    }
  }

  // ----- Runtime -----

  lemma TakeGood(c: Cluster, a: Action)
    requires Inv(c) && a.TakeChange? && Enabled(c, a)
    ensures GoodStep(c, a)
  {
    hide WorkersInv, ShardsInv, RoutedInv, OwnersLive, WorkerInv, Simulates, TookChange, CanTake, TakeRaises;
    WorkerOk(c, a.w);
    TakeStep(c.workers[a.w], c.route, Owned(c, a.w));
    NoShardMoves(c, a.w, TookChange(c.workers[a.w]));
  }

  lemma CompleteGood(c: Cluster, a: Action)
    requires Inv(c) && a.CompleteChange? && Enabled(c, a)
    ensures GoodStep(c, a)
  {
    hide WorkersInv, ShardsInv, RoutedInv, OwnersLive, WorkerInv, Simulates, ChangeCompleted, CompleteRaises;
    WorkerOk(c, a.w);
    CompleteStep(c.workers[a.w], c.route, Owned(c, a.w));
    NoShardMoves(c, a.w, ChangeCompleted(c.workers[a.w]));
  }

  lemma PoisonStep(wk: Worker, route: RequestId -> ShardId, owned: set<ShardId>)
    requires WorkerInv(wk, route, owned)
    ensures WorkerInv(wk.(reading := false), route, owned) && SameEverywhere(wk, wk.(reading := false), route)
  {
    var wk' := wk.(reading := false);
    SameMode(wk, wk', route);
    ConsumerKeepsRuntime(wk, wk', owned);
    hide BridgeInv, TaskInv, MailInv, OnlyOwned, ModeOf, LocalOf;
    QuietStep(wk, wk', route, owned);
  }

  lemma PoisonGood(c: Cluster, a: Action)
    requires Inv(c) && a.ReadPoison? && Enabled(c, a)
    ensures GoodStep(c, a)
  {
    hide WorkersInv, ShardsInv, RoutedInv, OwnersLive, WorkerInv, Simulates, NextMessage;
    assert a.w in c.workers by { PoisonWorker(c, a); }
    WorkerOk(c, a.w);
    PoisonStep(c.workers[a.w], c.route, Owned(c, a.w));
    NoShardMoves(c, a.w, c.workers[a.w].(reading := false));
  }

  lemma PoisonWorker(c: Cluster, a: Action)
    requires a.ReadPoison? && Enabled(c, a)
    ensures a.w in c.workers
  {
  }

  lemma ActiveOfShard(m: SessionMap, route: RequestId -> ShardId, p: ShardId)
    ensures OfShard(ActiveOnly(m), route, p) == ActiveOnly(OfShard(m, route, p))
  {
  }

  lemma SnapshotGood(c: Cluster, a: Action)
    requires Inv(c) && a.ReadSnapshot? && Enabled(c, a)
    ensures GoodStep(c, a)
  {
    hide WorkersInv, ShardsInv, RoutedInv, OwnersLive, WorkerInv, SnapshotRead, LocalOf, OfShard, ActiveOnly,
      SameElsewhere;
    var wk, p := c.workers[a.w], c.workers[a.w].phase.change.shard;
    WorkerOk(c, a.w);
    SnapshotStep(wk, ActiveOnly(c.durable), c.route, Owned(c, a.w));
    ActiveOfShard(c.durable, c.route, p);
    SetWorkerMoves(c, a.w, SnapshotRead(wk, ActiveOnly(c.durable)), p);
  }

  lemma FillGood(c: Cluster, a: Action)
    requires Inv(c) && a.FillRegistry? && Enabled(c, a)
    ensures GoodStep(c, a)
  {
    hide WorkersInv, ShardsInv, RoutedInv, OwnersLive, WorkerInv, RegistryFilled, LocalOf, OfShard, SameElsewhere;
    var wk, p := c.workers[a.w], c.workers[a.w].phase.change.shard;
    WorkerOk(c, a.w);
    FillStep(wk, c.route, Owned(c, a.w));
    SetWorkerMoves(c, a.w, RegistryFilled(wk, c.route), p);
  }

  lemma EndTaskGood(c: Cluster, a: Action)
    requires Inv(c) && a.EndTask? && Enabled(c, a)
    ensures GoodStep(c, a)
  {
    hide WorkersInv, ShardsInv, RoutedInv, OwnersLive, WorkerInv, TaskEnded, LocalOf, OfShard, SameElsewhere;
    var wk, p := c.workers[a.w], c.workers[a.w].phase.change.shard;
    WorkerOk(c, a.w);
    StopStep(wk, c.route, Owned(c, a.w));
    SetWorkerMoves(c, a.w, TaskEnded(wk), p);
  }

  lemma ReleaseGood(c: Cluster, a: Action)
    requires Inv(c) && a.ReleaseShard? && Enabled(c, a)
    ensures GoodStep(c, a)
  {
    hide WorkersInv, ShardsInv, RoutedInv, OwnersLive, WorkerInv, ShardReleased, LocalOf, OfShard, SameElsewhere;
    var wk, p := c.workers[a.w], c.workers[a.w].phase.change.shard;
    WorkerOk(c, a.w);
    ReleaseStep(wk, c.route, Owned(c, a.w));
    SetWorkerMoves(c, a.w, ShardReleased(wk, c.route), p);
  }

  // ----- Deliveries and consumers -----

  lemma DeliverGood(c: Cluster, a: Action)
    requires Inv(c) && a.Deliver? && Enabled(c, a)
    ensures GoodStep(c, a)
  {
    hide WorkersInv, ShardsInv, RoutedInv, OwnersLive, WorkerInv, MessageDelivered, LocalOf, OfShard, SameElsewhere;
    var wk, event := c.workers[a.w], c.partitions[a.p].log[a.offset].event;
    WorkerOk(c, a.w);
    DeliverStep(wk, a.p, a.id, a.offset, event, c.route, Owned(c, a.w));
    SetWorkerMoves(c, a.w, MessageDelivered(wk, a.p, a.id, a.offset, event), a.p);
  }

  lemma TakeDeliveryGood(c: Cluster, a: Action)
    requires Inv(c) && a.TakeDelivery? && Enabled(c, a)
    ensures GoodStep(c, a)
  {
    hide WorkersInv, ShardsInv, RoutedInv, OwnersLive, WorkerInv, DeliveryTaken, CanTakeDelivery, LocalOf, OfShard,
      SameElsewhere;
    var wk := c.workers[a.w];
    WorkerOk(c, a.w);
    TakeDeliveryStep(wk, a.p, c.route, Owned(c, a.w));
    SetWorkerMoves(c, a.w, DeliveryTaken(wk, a.p), a.p);
  }

  lemma HeldItem(wk: Worker, route: RequestId -> ShardId, owned: set<ShardId>, p: ShardId)
    requires WorkerInv(wk, route, owned) && p in wk.mail.inHand
    ensures p in wk.consumers && SP.HasInHand(SP.Running(wk.consumers[p])) && p in owned
    ensures LocalOf(wk, route, p).mode == SP.Running(wk.consumers[p])
    ensures LocalOf(wk, route, p).flight != []
    ensures LocalOf(wk, route, p).flight[0] == SP.Item(OffsetInHand(wk, p), wk.mail.inHand[p].event)
  {
    hide BridgeInv, TaskInv, OnlyOwned, OfShard, Agree, Flight;
    InHandIsFirst(wk, p);
    ConsumerOwned(wk, owned, p);
  }

  lemma FlightIsFromLog(x: SP.Shard)
    requires SP.Inv(x) && x.flight != []
    ensures x.flight[0].offset < |x.log| && x.log[x.flight[0].offset] == Message(x.flight[0].event)
  {
    hide SP.ReplayInv, SP.CacheInv, SP.CursorInv;
    SP.InHand(x);
  }

  /** The event in hand belongs to the shard whose consumer holds it. */
  lemma HeldEventIsRouted(c: Cluster, w: WorkerId, p: ShardId)
    requires Inv(c) && w in c.workers && p in c.workers[w].mail.inHand
    ensures p in Owned(c, w)
    ensures c.route(c.workers[w].mail.inHand[p].event.rfqId) == p
    ensures ShardOf(c, p).flight == LocalOf(c.workers[w], c.route, p).flight != []
    ensures ShardOf(c, p).flight[0] == SP.Item(OffsetInHand(c.workers[w], p), c.workers[w].mail.inHand[p].event)
  {
    hide WorkersInv, ShardsInv, OwnersLive, WorkerInv, LocalOf, OfShard, SP.Inv, OffsetInHand;
    var wk := c.workers[w];
    WorkerOk(c, w);
    HeldItem(wk, c.route, Owned(c, w), p);
    assert p in c.partitions && c.partitions[p].owner == Some(w);
    ShardOk(c, p);
    FlightIsFromLog(ShardOf(c, p));
    assert Routed(c.route, p, c.partitions[p].log);
  }

  lemma SaveDurableGood(c: Cluster, a: Action)
    requires Inv(c) && a.SaveDurable? && Enabled(c, a)
    ensures GoodStep(c, a)
  {
    hide WorkersInv, ShardsInv, RoutedInv, OwnersLive, WorkerInv, StageReached, LocalOf, OfShard, Register,
      OffsetInHand, SameElsewhere;
    var wk, p := c.workers[a.w], a.p;
    WorkerOk(c, a.w);
    HeldEventIsRouted(c, a.w, p);
    StageStep(wk, p, SP.Saved, c.route, Owned(c, a.w));
    RegisterElsewhere(c.durable, wk.mail.inHand[p].event, c.route, p);
    OneShardMoves(c, Apply(c, a), a.w, p);
  }

  lemma SaveRegistryGood(c: Cluster, a: Action)
    requires Inv(c) && a.SaveRegistry? && Enabled(c, a)
    ensures GoodStep(c, a)
  {
    hide WorkersInv, ShardsInv, RoutedInv, OwnersLive, WorkerInv, SessionRegistered, LocalOf, OfShard, Register,
      OffsetInHand, SameElsewhere;
    var wk, p := c.workers[a.w], a.p;
    WorkerOk(c, a.w);
    HeldEventIsRouted(c, a.w, p);
    RegisterStep(wk, p, c.route, Owned(c, a.w));
    SetWorkerMoves(c, a.w, SessionRegistered(wk, p), p);
  }

  lemma FinishGood(c: Cluster, a: Action)
    requires Inv(c) && a.FinishHandler? && Enabled(c, a)
    ensures GoodStep(c, a)
  {
    hide WorkersInv, ShardsInv, RoutedInv, OwnersLive, WorkerInv, StageReached, LocalOf, OfShard, OffsetInHand,
      SameElsewhere;
    var wk, p := c.workers[a.w], a.p;
    WorkerOk(c, a.w);
    HeldEventIsRouted(c, a.w, p);
    StageStep(wk, p, SP.Handled, c.route, Owned(c, a.w));
    OneShardMoves(c, Apply(c, a), a.w, p);
  }

  lemma PopNeverRaises(wk: Worker, p: ShardId, route: RequestId -> ShardId, owned: set<ShardId>)
    requires WorkerInv(wk, route, owned) && Holds(wk, p, SP.Handled)
    ensures p in wk.mail.inHand && !AckRaises(wk, p)
  {
    hide WorkerInv;
    PopStep(wk, p, route, owned);
  }

  lemma PopGood(c: Cluster, a: Action)
    requires Inv(c) && a.PopPending? && Enabled(c, a)
    ensures GoodStep(c, a)
  {
    hide WorkersInv, ShardsInv, RoutedInv, OwnersLive, WorkerInv, PendingPopped, LocalOf, Holds, AckRaises, OfShard,
      SameElsewhere;
    var wk := c.workers[a.w];
    WorkerOk(c, a.w);
    PopNeverRaises(wk, a.p, c.route, Owned(c, a.w));
    PopStep(wk, a.p, c.route, Owned(c, a.w));
    SetWorkerMoves(c, a.w, PendingPopped(wk, a.p), a.p);
  }

  lemma CommitGood(c: Cluster, a: Action)
    requires Inv(c) && a.CommitOffset? && Enabled(c, a)
    ensures GoodStep(c, a)
  {
    hide WorkersInv, ShardsInv, RoutedInv, OwnersLive, WorkerInv, StageReached, LocalOf, OfShard, SameElsewhere;
    var wk, p := c.workers[a.w], a.p;
    WorkerOk(c, a.w);
    StageStep(wk, p, SP.Waiting, c.route, Owned(c, a.w));
    OneShardMoves(c, Apply(c, a), a.w, p);
  }

  // ----- All steps, and whole runs -----

  lemma StepGood(c: Cluster, a: Action)
    requires Inv(c) && Enabled(c, a)
    ensures GoodStep(c, a)
  {
    hide Inv, Enabled, GoodStep;
    match a
    case Produce(_, _) => ProduceGood(c, a);
    case StartWorker(_) => StartGood(c, a);
    case CrashWorker(_) => CrashGood(c, a);
    case CallAssigned(_, _) => AssignedGood(c, a);
    case CallRevoked(_, _) => RevokedGood(c, a);
    case ReturnCallback(_) => ReturnGood(c, a);
    case TakeChange(_) => TakeGood(c, a);
    case ReadSnapshot(_) => SnapshotGood(c, a);
    case FillRegistry(_) => FillGood(c, a);
    case EndTask(_) => EndTaskGood(c, a);
    case ReleaseShard(_) => ReleaseGood(c, a);
    case CompleteChange(_) => CompleteGood(c, a);
    case Deliver(_, _, _, _) => DeliverGood(c, a);
    case ReadPoison(_, _, _) => PoisonGood(c, a);
    case TakeDelivery(_, _) => TakeDeliveryGood(c, a);
    case SaveDurable(_, _) => SaveDurableGood(c, a);
    case SaveRegistry(_, _) => SaveRegistryGood(c, a);
    case FinishHandler(_, _) => FinishGood(c, a);
    case PopPending(_, _) => PopGood(c, a);
    case CommitOffset(_, _) => CommitGood(c, a);
  }

  lemma StepKeepsInv(c: Cluster, a: Action)
    requires Inv(c) && Enabled(c, a)
    ensures Inv(Apply(c, a)) && Apply(c, a).partitions.Keys == c.partitions.Keys
  {
    StepGood(c, a);
    hide Apply, Enabled, WorkersInv, RoutedInv, OwnersLive, Projection, Raises, SP.Inv, SP.Apply, SP.Enabled, ShardOf;
    forall p | p in c.partitions ensures SP.Inv(ShardOf(Apply(c, a), p)) {
      ShardOk(c, p);
      assert Simulates(c, Apply(c, a), p, Projection(c, a, p));
      if Projection(c, a, p).Some? {
        SP.StepKeepsInv(ShardOf(c, p), Projection(c, a, p).value);
      }
    }
  }

  lemma InitInv(c: Cluster)
    requires Init(c)
    ensures Inv(c)
  {
    hide SP.Inv, Routed;
    forall p | p in c.partitions ensures SP.Inv(ShardOf(c, p)) {
      SP.InitInv(ShardOf(c, p));
    }
  }

  lemma {:induction false} RunKeepsInv(c: Cluster, actions: seq<Action>)
    requires Inv(c) && IsRun(c, actions)
    ensures Inv(Final(c, actions)) && Final(c, actions).partitions.Keys == c.partitions.Keys
    decreases |actions|
  {
    hide Inv, Apply, Enabled;
    if actions != [] {
      StepKeepsInv(c, actions[0]);
      RunKeepsInv(Apply(c, actions[0]), actions[1..]);
    }
  }

  lemma Reached(c: Cluster, actions: seq<Action>)
    requires Init(c) && IsRun(c, actions)
    ensures Inv(Final(c, actions)) && Final(c, actions).partitions.Keys == c.partitions.Keys
  {
    hide Inv, Init;
    InitInv(c);
    RunKeepsInv(c, actions);
  }

  /** What a cluster run looks like to one shard. */
  function ShardRun(c: Cluster, actions: seq<Action>, p: ShardId): seq<SP.Action>
    requires IsRun(c, actions)
    decreases |actions|
  {
    if actions == [] || p !in c.partitions then []
    else
      (match Projection(c, actions[0], p) case None => [] case Some(x) => [x])
      + ShardRun(Apply(c, actions[0]), actions[1..], p)
  }

  lemma ShardRunStep(x: SP.Shard, m: Option<SP.Action>, x': SP.Shard, rest: seq<SP.Action>)
    requires match m case None => x' == x case Some(s) => SP.Enabled(x, s) && x' == SP.Apply(x, s)
    requires SP.IsRun(x', rest)
    ensures var all := (match m case None => [] case Some(s) => [s]) + rest;
            SP.IsRun(x, all) && SP.Final(x, all) == SP.Final(x', rest)
  {
    hide SP.Enabled, SP.Apply;
    if m.Some? {
      assert ([m.value] + rest)[1..] == rest;
    } else {
      assert [] + rest == rest;
    }
  }

  /** Every run of the cluster is, for each shard, a run of that shard. */
  lemma {:induction false} ClusterRefinesShards(c: Cluster, actions: seq<Action>, p: ShardId)
    requires Inv(c) && IsRun(c, actions) && p in c.partitions
    ensures Inv(Final(c, actions)) && p in Final(c, actions).partitions
    ensures SP.IsRun(ShardOf(c, p), ShardRun(c, actions, p))
    ensures ShardOf(Final(c, actions), p) == SP.Final(ShardOf(c, p), ShardRun(c, actions, p))
    decreases |actions|
  {
    RunKeepsInv(c, actions);
    if actions != [] {
      var a := actions[0];
      StepGood(c, a);
      StepKeepsInv(c, a);
      ClusterRefinesShards(Apply(c, a), actions[1..], p);
      assert Simulates(c, Apply(c, a), p, Projection(c, a, p));
      hide Apply, Enabled, WorkersInv, RoutedInv, OwnersLive, ShardsInv, Raises, SP.Apply, SP.Enabled, ShardOf,
        Projection, SP.IsRun, SP.Final;
      ShardRunStep(ShardOf(c, p), Projection(c, a, p), ShardOf(Apply(c, a), p), ShardRun(Apply(c, a), actions[1..], p));
    }
  }
}
