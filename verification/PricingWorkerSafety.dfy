/** Each step of a worker: its invariant after it, and what the step means for each shard. */
module PricingWorkerSafety {
  import opened Common
  import opened Wrappers
  import opened Sessions
  import opened Handshake
  import opened Mailbox
  import opened PricingWorker
  import opened PricingWorkerSteps
  import SP = ShardProtocol

  lemma SameMode(wk: Worker, wk': Worker, route: RequestId -> ShardId)
    requires wk'.consumers == wk.consumers && wk'.phase == wk.phase
    ensures forall p: ShardId :: ModeOf(wk', route, p) == ModeOf(wk, route, p)
  {
  }

  // Steps that leave consumers, mailboxes, registry and positions alone, and do not change what
  // any shard sees of the runtime's phase.
  lemma QuietStep(wk: Worker, wk': Worker, route: RequestId -> ShardId, owned: set<ShardId>)
    requires wk'.consumers == wk.consumers && wk'.mail == wk.mail
    requires wk'.registry == wk.registry && wk'.positions == wk.positions
    requires forall p: ShardId :: ModeOf(wk', route, p) == ModeOf(wk, route, p)
    requires MailInv(wk) && OnlyOwned(wk, route, owned)
    ensures SameEverywhere(wk, wk', route) && MailInv(wk') && OnlyOwned(wk', route, owned)
  {
    hide OfShard, ModeOf, Flight, Agree, NothingOf;
    forall p: ShardId ensures LocalOf(wk', route, p) == LocalOf(wk, route, p) {
    }
    forall p: ShardId | p !in owned ensures NothingOf(LocalOf(wk', route, p)) {
      assert NothingOf(LocalOf(wk, route, p));
    }
  }

  lemma RevokeStep(wk: Worker, changes: seq<Change>, route: RequestId -> ShardId, owned: set<ShardId>)
    requires WorkerInv(wk, route, owned) && wk.callback.None?
    requires Announceable(changes) && SameKind(changes) && changes[0].Released? && Shards(changes) <= owned
    ensures WorkerInv(Announced(wk, changes), route, owned)
    ensures SameEverywhere(wk, Announced(wk, changes), route)
  {
    hide BridgeInv, TaskInv, MailInv, OnlyOwned, Shards, Announceable, SameKind, ModeOf, Published;
    AnnounceKeepsBridge(wk, changes);
    AnnounceKeepsTasks(wk, changes, owned, owned);
    SameMode(wk, Announced(wk, changes), route);
    QuietStep(wk, Announced(wk, changes), route, owned);
  }

  lemma AssignView(wk: Worker, changes: seq<Change>, committed: map<ShardId, nat>, route: RequestId -> ShardId,
                   p: ShardId)
    requires Shards(changes) <= committed.Keys
    ensures LocalOf(AssignedFrom(wk, changes, committed), route, p) ==
            if p in Shards(changes) then LocalOf(wk, route, p).(position := Some(committed[p]))
            else LocalOf(wk, route, p)
  {
    SameMode(wk, AssignedFrom(wk, changes, committed), route);
    hide OfShard, Flight, ModeOf, Published;
  }

  lemma AssignInv(wk: Worker, changes: seq<Change>, committed: map<ShardId, nat>, route: RequestId -> ShardId,
                  owned: set<ShardId>)
    requires WorkerInv(wk, route, owned) && wk.callback.None?
    requires Announceable(changes) && SameKind(changes) && changes[0].Acquired?
    requires Shards(changes) !! owned && Shards(changes) <= committed.Keys
    ensures WorkerInv(AssignedFrom(wk, changes, committed), route, owned + Shards(changes))
  {
    var mid, wk' := Announced(wk, changes), AssignedFrom(wk, changes, committed);
    AnnounceKeepsBridge(wk, changes);
    AnnounceKeepsTasks(wk, changes, owned, owned + Shards(changes));
    forall p: ShardId | p !in Shards(changes) ensures LocalOf(wk', route, p) == LocalOf(wk, route, p) {
      AssignView(wk, changes, committed, route, p);
    }
    assert wk' == mid.(positions := wk'.positions);
    assert wk'.mail == wk.mail && wk'.consumers == wk.consumers;
    assert mid.callback == Some(changes) && mid.phase == wk.phase;
    hide BridgeInv, TaskInv, MailInv, OnlyOwned, LocalOf, AssignedFrom, Announced, Shards;
    SameBridge(mid, wk');
    AssignedTasks(mid, wk', owned + Shards(changes));
    SameMail(wk, wk');
    OnlyOwnedMore(wk, wk', route, owned, Shards(changes));
  }

  lemma AssignStep(wk: Worker, changes: seq<Change>, committed: map<ShardId, nat>, route: RequestId -> ShardId,
                   owned: set<ShardId>)
    requires WorkerInv(wk, route, owned) && wk.callback.None?
    requires Announceable(changes) && SameKind(changes) && changes[0].Acquired?
    requires Shards(changes) !! owned && Shards(changes) <= committed.Keys
    ensures var wk' := AssignedFrom(wk, changes, committed);
            && WorkerInv(wk', route, owned + Shards(changes))
            && (forall p: ShardId :: p !in Shards(changes) ==> LocalOf(wk', route, p) == LocalOf(wk, route, p))
            && (forall p :: p in Shards(changes) ==>
                  && LocalOf(wk, route, p) == Local(SP.Quiet, map[], [], None)
                  && LocalOf(wk', route, p) == Local(SP.Quiet, map[], [], Some(committed[p])))
  {
    var wk' := AssignedFrom(wk, changes, committed);
    AssignInv(wk, changes, committed, route, owned);
    assert wk.phase.Idle?;
    forall p: ShardId
      ensures p !in Shards(changes) ==> LocalOf(wk', route, p) == LocalOf(wk, route, p)
      ensures p in Shards(changes) ==>
                && LocalOf(wk, route, p) == Local(SP.Quiet, map[], [], None)
                && LocalOf(wk', route, p) == Local(SP.Quiet, map[], [], Some(committed[p]))
    {
      AssignView(wk, changes, committed, route, p);
      if p in Shards(changes) {
        NotOwned(wk, route, owned, p);
      }
    }
    hide WorkerInv, LocalOf, AssignedFrom;
  }

  lemma SameBridge(wk: Worker, wk': Worker)
    requires BridgeInv(wk) && wk'.bridge == wk.bridge && wk'.callback == wk.callback && wk'.phase == wk.phase
    ensures BridgeInv(wk')
  {
    assert Open(wk') == Open(wk);
  }

  lemma AssignedTasks(wk: Worker, wk': Worker, owned: set<ShardId>)
    requires TaskInv(wk, owned) && wk.callback.Some? && wk.callback.value != [] && wk.callback.value[0].Acquired?
    requires wk' == wk.(positions := wk'.positions)
    ensures TaskInv(wk', owned)
  {
  }

  lemma SameMail(wk: Worker, wk': Worker)
    requires MailInv(wk) && wk'.mail == wk.mail && wk'.consumers == wk.consumers
    ensures MailInv(wk')
  {
  }

  lemma OnlyOwnedMore(wk: Worker, wk': Worker, route: RequestId -> ShardId, owned: set<ShardId>, more: set<ShardId>)
    requires OnlyOwned(wk, route, owned)
    requires forall p: ShardId :: p !in more ==> LocalOf(wk', route, p) == LocalOf(wk, route, p)
    ensures OnlyOwned(wk', route, owned + more)
  {
  }

  lemma NotOwned(wk: Worker, route: RequestId -> ShardId, owned: set<ShardId>, p: ShardId)
    requires OnlyOwned(wk, route, owned) && p !in owned && wk.phase.Idle?
    ensures LocalOf(wk, route, p) == Local(SP.Quiet, map[], [], None)
  {
    assert NothingOf(LocalOf(wk, route, p));
  }

  lemma ReturnStep(wk: Worker, route: RequestId -> ShardId, owned: set<ShardId>)
    requires WorkerInv(wk, route, owned) && CanReturn(wk)
    requires forall p :: p in Shards(wk.callback.value) && wk.callback.value[0].Released? ==>
        NothingOf(LocalOf(wk, route, p))
    ensures var changes := wk.callback.value;
            WorkerInv(CallbackReturned(wk), route, if changes[0].Acquired? then owned else owned - Shards(changes))
    ensures SameEverywhere(wk, CallbackReturned(wk), route)
  {
    var changes := wk.callback.value;
    ReturnKeepsBridge(wk);
    ReturnKeepsTasks(wk, owned);
    hide BridgeInv, TaskInv, MailInv;
    QuietStep(wk, CallbackReturned(wk), route, owned);
    hide LocalOf, NothingOf;
    forall p: ShardId | p !in (if changes[0].Acquired? then owned else owned - Shards(changes))
      ensures NothingOf(LocalOf(CallbackReturned(wk), route, p))
    {
      assert LocalOf(CallbackReturned(wk), route, p) == LocalOf(wk, route, p);
    }
  }

  lemma TakeStep(wk: Worker, route: RequestId -> ShardId, owned: set<ShardId>)
    requires WorkerInv(wk, route, owned) && CanTake(wk)
    ensures !TakeRaises(wk)
    ensures WorkerInv(TookChange(wk), route, owned) && SameEverywhere(wk, TookChange(wk), route)
  {
    hide BridgeInv, TaskInv, MailInv, OnlyOwned, ModeOf;
    TakeKeepsBridge(wk);
    TakeKeepsTasks(wk, owned);
    TookModes(wk, route, owned);
    QuietStep(wk, TookChange(wk), route, owned);
  }

  lemma TookModes(wk: Worker, route: RequestId -> ShardId, owned: set<ShardId>)
    requires PhaseFits(wk.phase) && TaskInv(wk, owned) && CanTake(wk)
    requires wk.bridge.queue[0].Released? ==> wk.bridge.queue[0].shard in wk.tasks
    ensures forall p: ShardId :: ModeOf(TookChange(wk), route, p) == ModeOf(wk, route, p)
  {
    hide Absent, Shards, OfShard;
  }

  // The shard whose acquisition is under way has no consumer yet, the one under release no more.
  lemma NoConsumerNow(wk: Worker, owned: set<ShardId>)
    requires PhaseFits(wk.phase) && BridgeInv(wk) && TaskInv(wk, owned)
    requires wk.phase.Acquiring? || wk.phase.Restoring? || wk.phase.Releasing?
    ensures wk.phase.change.shard !in wk.consumers
  {
    hide BridgeInv, Shards;
    assert Open(wk)[0] == wk.phase.change && Open(wk)[1..] == wk.bridge.queue;
    CurrentChange(wk);
  }

  lemma SnapshotStep(wk: Worker, snapshot: SessionMap, route: RequestId -> ShardId, owned: set<ShardId>)
    requires WorkerInv(wk, route, owned) && wk.phase.Acquiring?
    ensures var p, wk' := wk.phase.change.shard, SnapshotRead(wk, snapshot);
            && p in owned && WorkerInv(wk', route, owned) && SameElsewhere(wk, wk', route, p)
            && LocalOf(wk, route, p).mode == SP.Quiet
            && LocalOf(wk', route, p) == LocalOf(wk, route, p).(mode := SP.Restoring(OfShard(snapshot, route, p)))
  {
    var p, wk' := wk.phase.change.shard, SnapshotRead(wk, snapshot);
    PhaseShardOwned(wk, owned);
    PhaseKeepsBridge(wk, wk');
    PhaseKeepsTasks(wk, wk', owned);
    NoConsumerNow(wk, owned);
    SameMail(wk, wk');
    hide BridgeInv, TaskInv, MailInv, OnlyOwned, OfShard, Flight;
    OwnedElsewhere(wk, wk', route, owned, p);
  }

  lemma FillStep(wk: Worker, route: RequestId -> ShardId, owned: set<ShardId>)
    requires WorkerInv(wk, route, owned) && wk.phase.Restoring?
    ensures var p, wk' := wk.phase.change.shard, RegistryFilled(wk, route);
            var l := LocalOf(wk, route, p);
            && p in owned && WorkerInv(wk', route, owned) && SameElsewhere(wk, wk', route, p)
            && l.mode.Restoring?
            && LocalOf(wk', route, p) == l.(mode := SP.Running(SP.Waiting), registry := l.registry + l.mode.snapshot)
  {
    hide BridgeInv, TaskInv, OnlyOwned, OfShard, Flight, Subscribed, Agree;
    var p, wk' := wk.phase.change.shard, RegistryFilled(wk, route);
    PhaseShardOwned(wk, owned);
    PhaseKeepsBridge(wk, wk');
    FillKeepsTasks(wk, route, owned);
    SubscribeAgrees(wk.mail, p);
    FillElsewhere(wk.registry, wk.phase.snapshot, route, p);
    FillKeepsMail(wk, route);
    hide MailInv;
    OwnedElsewhere(wk, wk', route, owned, p);
  }

  lemma FillKeepsMail(wk: Worker, route: RequestId -> ShardId)
    requires MailInv(wk) && wk.phase.Restoring? && wk.phase.change.shard !in wk.consumers
    ensures MailInv(RegistryFilled(wk, route))
  {
    SubscribeAgrees(wk.mail, wk.phase.change.shard);
    hide Agree;
  }

  lemma StopStep(wk: Worker, route: RequestId -> ShardId, owned: set<ShardId>)
    requires WorkerInv(wk, route, owned) && wk.phase.Stopping?
    ensures var p, wk' := wk.phase.change.shard, TaskEnded(wk);
            && p in owned && WorkerInv(wk', route, owned) && SameElsewhere(wk, wk', route, p)
            && LocalOf(wk, route, p).mode.Running?
            && LocalOf(wk', route, p) == LocalOf(wk, route, p).(mode := SP.Stopped, flight := [], position := None)
  {
    var p, wk' := wk.phase.change.shard, TaskEnded(wk);
    PhaseShardOwned(wk, owned);
    PhaseKeepsBridge(wk, wk');
    StopKeepsTasks(wk, owned);
    StopKeepsMail(wk);
    hide BridgeInv, TaskInv, OnlyOwned, LocalOf, TaskEnded;
    StopView(wk, route);
    hide MailInv, SameElsewhere;
    OwnedElsewhere(wk, wk', route, owned, p);
  }

  lemma StopView(wk: Worker, route: RequestId -> ShardId)
    requires MailInv(wk) && wk.phase.Stopping? && wk.phase.change.shard in wk.consumers
    ensures var p, wk' := wk.phase.change.shard, TaskEnded(wk);
            && SameElsewhere(wk, wk', route, p)
            && LocalOf(wk, route, p).mode.Running?
            && LocalOf(wk', route, p) == LocalOf(wk, route, p).(mode := SP.Stopped, flight := [], position := None)
  {
    hide OfShard, Flight, StoppedShard, Agree, Unacked;
    StopAgrees(wk.mail, wk.phase.change.shard);
    hide MailInv;
  }

  lemma StopKeepsMail(wk: Worker)
    requires MailInv(wk) && wk.phase.Stopping?
    ensures MailInv(TaskEnded(wk))
  {
    StopAgrees(wk.mail, wk.phase.change.shard);
    hide Agree;
  }

  lemma ReleaseStep(wk: Worker, route: RequestId -> ShardId, owned: set<ShardId>)
    requires WorkerInv(wk, route, owned) && wk.phase.Releasing?
    ensures var p, wk' := wk.phase.change.shard, ShardReleased(wk, route);
            && p in owned && WorkerInv(wk', route, owned) && SameElsewhere(wk, wk', route, p)
            && LocalOf(wk, route, p).mode == SP.Stopped
            && LocalOf(wk', route, p) == LocalOf(wk, route, p).(mode := SP.Quiet, registry := map[])
  {
    var p, wk' := wk.phase.change.shard, ShardReleased(wk, route);
    PhaseShardOwned(wk, owned);
    PhaseKeepsBridge(wk, wk');
    PhaseKeepsTasks(wk, wk', owned);
    NoConsumerNow(wk, owned);
    SameMail(wk, wk');
    ReleaseElsewhere(wk.registry, route, p);
    hide BridgeInv, TaskInv, MailInv, OnlyOwned, OfShard, WithoutShard, Flight;
    OwnedElsewhere(wk, wk', route, owned, p);
  }

  lemma CompleteStep(wk: Worker, route: RequestId -> ShardId, owned: set<ShardId>)
    requires WorkerInv(wk, route, owned) && wk.phase.Completing?
    ensures !CompleteRaises(wk)
    ensures WorkerInv(ChangeCompleted(wk), route, owned) && SameEverywhere(wk, ChangeCompleted(wk), route)
  {
    hide BridgeInv, TaskInv, MailInv, OnlyOwned, CompleteRaises, ChangeCompleted, LocalOf, SameEverywhere, ModeOf, Open;
    CompleteKeepsBridge(wk);
    CompleteKeepsTasks(wk, owned);
    CompletedOnly(wk);
    var wk' := ChangeCompleted(wk);
    CompletedModes(wk, route);
    QuietStep(wk, wk', route, owned);
  }

  lemma CompletedModes(wk: Worker, route: RequestId -> ShardId)
    requires wk.phase.Completing? && !CompleteRaises(wk)
    ensures forall p: ShardId :: ModeOf(ChangeCompleted(wk), route, p) == ModeOf(wk, route, p)
  {
    hide Completed, OfShard;
  }

  lemma CompletedOnly(wk: Worker)
    requires wk.phase.Completing? && !CompleteRaises(wk)
    ensures ChangeCompleted(wk) == wk.(phase := Idle, bridge := ChangeCompleted(wk).bridge)
  {
    hide Completed;
  }

  // ----- Deliveries and consumers -----

  // What a step of one consumer, or a delivery, leaves alone.
  predicate RuntimeKept(wk: Worker, wk': Worker) {
    && wk'.bridge == wk.bridge && wk'.callback == wk.callback && wk'.phase == wk.phase
    && wk'.tasks == wk.tasks && wk'.consumers.Keys == wk.consumers.Keys && wk'.positions.Keys == wk.positions.Keys
  }

  lemma ConsumerKeepsRuntime(wk: Worker, wk': Worker, owned: set<ShardId>)
    requires PhaseFits(wk.phase) && BridgeInv(wk) && TaskInv(wk, owned)
    requires RuntimeKept(wk, wk')
    ensures PhaseFits(wk'.phase) && BridgeInv(wk') && TaskInv(wk', owned)
  {
    SameBridge(wk, wk');
    hide BridgeInv;
    assert Absent(wk') == Absent(wk);
    hide Absent;
  }

  // One consumer moves on, keeping or not keeping its delivery in hand as the mailboxes say.
  lemma ConsumerKeepsMail(wk: Worker, wk': Worker, p: ShardId)
    requires MailInv(wk) && Agree(wk'.mail)
    requires || wk'.consumers == wk.consumers
             || (p in wk.consumers && p in wk'.consumers && wk'.consumers == wk.consumers[p := wk'.consumers[p]])
    requires forall q :: q != p ==> (q in wk'.mail.inHand <==> q in wk.mail.inHand)
    requires p in wk'.mail.inHand <==> p in wk'.consumers && SP.HasInHand(SP.Running(wk'.consumers[p]))
    ensures MailInv(wk')
  {
    hide Agree;
  }

  lemma ConsumerStep(wk: Worker, wk': Worker, p: ShardId, route: RequestId -> ShardId, owned: set<ShardId>)
    requires WorkerInv(wk, route, owned) && RuntimeKept(wk, wk') && MailInv(wk')
    requires p in owned && SameElsewhere(wk, wk', route, p)
    ensures WorkerInv(wk', route, owned)
  {
    hide BridgeInv, TaskInv, MailInv, OnlyOwned, SameElsewhere, RuntimeKept;
    ConsumerKeepsRuntime(wk, wk', owned);
    OwnedElsewhere(wk, wk', route, owned, p);
  }

  lemma DeliverView(wk: Worker, p: ShardId, id: DeliveryId, offset: nat, event: RfqRegistered,
                    route: RequestId -> ShardId)
    requires MailInv(wk) && p in wk.positions && id !in wk.mail.pendings
    ensures var wk', l := MessageDelivered(wk, p, id, offset, event), LocalOf(wk, route, p);
            && RuntimeKept(wk, wk') && MailInv(wk') && SameElsewhere(wk, wk', route, p)
            && LocalOf(wk', route, p) == l.(flight := l.flight + [SP.Item(offset, event)], position := Some(offset + 1))
  {
    hide Agree, OfShard, Flight, ModeOf, Listed, Unacked, Queue;
    var wk' := MessageDelivered(wk, p, id, offset, event);
    MessageAgrees(wk.mail, id, p, offset, event);
    ConsumerKeepsMail(wk, wk', p);
    SameMode(wk, wk', route);
    hide MailInv, OnMessage;
  }

  lemma DeliverStep(wk: Worker, p: ShardId, id: DeliveryId, offset: nat, event: RfqRegistered,
                    route: RequestId -> ShardId, owned: set<ShardId>)
    requires WorkerInv(wk, route, owned) && p in wk.positions && id !in wk.mail.pendings
    ensures var wk', l := MessageDelivered(wk, p, id, offset, event), LocalOf(wk, route, p);
            && p in owned && WorkerInv(wk', route, owned) && SameElsewhere(wk, wk', route, p)
            && l.position == Some(wk.positions[p])
            && LocalOf(wk', route, p) == l.(flight := l.flight + [SP.Item(offset, event)], position := Some(offset + 1))
  {
    var wk' := MessageDelivered(wk, p, id, offset, event);
    PositionOwned(wk, route, owned, p);
    DeliverView(wk, p, id, offset, event, route);
    hide MessageDelivered, WorkerInv, SameElsewhere;
    ConsumerStep(wk, wk', p, route, owned);
  }

  lemma TakeDeliveryView(wk: Worker, p: ShardId, route: RequestId -> ShardId)
    requires MailInv(wk) && CanTakeDelivery(wk, p)
    ensures var wk', l := DeliveryTaken(wk, p), LocalOf(wk, route, p);
            && RuntimeKept(wk, wk') && MailInv(wk') && SameElsewhere(wk, wk', route, p)
            && l.mode == SP.Running(SP.Waiting) && l.flight != []
            && LocalOf(wk', route, p) == l.(mode := SP.Running(SP.Taken))
  {
    hide Agree, OfShard, Listed;
    var wk' := DeliveryTaken(wk, p);
    TakeAgrees(wk.mail, p);
    assert |Flight(wk.mail, p)| == |Unacked(wk.mail, p)| >= |Queue(wk.mail, p)|;
    hide Flight, Unacked;
    ConsumerKeepsMail(wk, wk', p);
    hide MailInv;
  }

  lemma TakeDeliveryStep(wk: Worker, p: ShardId, route: RequestId -> ShardId, owned: set<ShardId>)
    requires WorkerInv(wk, route, owned) && CanTakeDelivery(wk, p)
    ensures var wk', l := DeliveryTaken(wk, p), LocalOf(wk, route, p);
            && p in owned && WorkerInv(wk', route, owned) && SameElsewhere(wk, wk', route, p)
            && l.mode == SP.Running(SP.Waiting) && l.flight != []
            && LocalOf(wk', route, p) == l.(mode := SP.Running(SP.Taken))
  {
    var wk' := DeliveryTaken(wk, p);
    ConsumerOwned(wk, owned, p);
    TakeDeliveryView(wk, p, route);
    hide DeliveryTaken, CanTakeDelivery, WorkerInv, SameElsewhere, LocalOf;
    ConsumerStep(wk, wk', p, route, owned);
  }

  lemma StageView(wk: Worker, p: ShardId, stage: SP.Stage, route: RequestId -> ShardId)
    requires MailInv(wk) && p in wk.consumers
    requires SP.HasInHand(SP.Running(stage)) <==> SP.HasInHand(SP.Running(wk.consumers[p]))
    ensures var wk', l := StageReached(wk, p, stage), LocalOf(wk, route, p);
            && RuntimeKept(wk, wk') && MailInv(wk') && SameElsewhere(wk, wk', route, p)
            && l.mode == SP.Running(wk.consumers[p])
            && LocalOf(wk', route, p) == l.(mode := SP.Running(stage))
  {
    ConsumerKeepsMail(wk, StageReached(wk, p, stage), p);
    hide MailInv, Agree, OfShard, Flight;
  }

  /** A consumer that moves on without touching mailbox or registry. */
  lemma StageStep(wk: Worker, p: ShardId, stage: SP.Stage, route: RequestId -> ShardId, owned: set<ShardId>)
    requires WorkerInv(wk, route, owned) && p in wk.consumers
    requires SP.HasInHand(SP.Running(stage)) <==> SP.HasInHand(SP.Running(wk.consumers[p]))
    ensures var wk', l := StageReached(wk, p, stage), LocalOf(wk, route, p);
            && p in owned && WorkerInv(wk', route, owned) && SameElsewhere(wk, wk', route, p)
            && l.mode == SP.Running(wk.consumers[p])
            && LocalOf(wk', route, p) == l.(mode := SP.Running(stage))
  {
    var wk' := StageReached(wk, p, stage);
    ConsumerOwned(wk, owned, p);
    StageView(wk, p, stage, route);
    hide StageReached, WorkerInv, SameElsewhere, LocalOf;
    ConsumerStep(wk, wk', p, route, owned);
  }

  lemma RegisterView(wk: Worker, p: ShardId, route: RequestId -> ShardId)
    requires MailInv(wk) && Holds(wk, p, SP.Saved) && route(wk.mail.inHand[p].event.rfqId) == p
    ensures var wk', l := SessionRegistered(wk, p), LocalOf(wk, route, p);
            && RuntimeKept(wk, wk') && MailInv(wk') && SameElsewhere(wk, wk', route, p)
            && l.mode == SP.Running(SP.Saved)
            && LocalOf(wk', route, p) ==
               l.(mode := SP.Running(SP.Registered), registry := Register(l.registry, wk.mail.inHand[p].event))
  {
    ConsumerKeepsMail(wk, SessionRegistered(wk, p), p);
    RegisterElsewhere(wk.registry, wk.mail.inHand[p].event, route, p);
    hide MailInv, Agree, OfShard, Flight, Register;
  }

  lemma RegisterStep(wk: Worker, p: ShardId, route: RequestId -> ShardId, owned: set<ShardId>)
    requires WorkerInv(wk, route, owned) && Holds(wk, p, SP.Saved) && route(wk.mail.inHand[p].event.rfqId) == p
    ensures var wk', l := SessionRegistered(wk, p), LocalOf(wk, route, p);
            && p in owned && WorkerInv(wk', route, owned) && SameElsewhere(wk, wk', route, p)
            && l.mode == SP.Running(SP.Saved) && l.flight != []
            && l.flight[0].event == wk.mail.inHand[p].event
            && LocalOf(wk', route, p) ==
                 l.(mode := SP.Running(SP.Registered), registry := Register(l.registry, l.flight[0].event))
  {
    var wk' := SessionRegistered(wk, p);
    ConsumerOwned(wk, owned, p);
    InHandIsFirst(wk, p);
    RegisterView(wk, p, route);
    hide SessionRegistered, WorkerInv, SameElsewhere, Flight, Register, OfShard, ModeOf;
    ConsumerStep(wk, wk', p, route, owned);
  }

  lemma PopView(wk: Worker, p: ShardId, route: RequestId -> ShardId)
    requires MailInv(wk) && Holds(wk, p, SP.Handled) && !AckRaises(wk, p)
    ensures var wk', l := PendingPopped(wk, p), LocalOf(wk, route, p);
            && RuntimeKept(wk, wk') && MailInv(wk') && SameElsewhere(wk, wk', route, p)
            && l.mode == SP.Running(SP.Handled) && l.flight != []
            && LocalOf(wk', route, p) ==
                 l.(mode := SP.Running(SP.Committing(l.flight[0].offset)), flight := l.flight[1..])
  {
    AckAgrees(wk.mail, p);
    var wk' := PendingPopped(wk, p);
    assert Flight(wk.mail, p)[1..] == Flight(wk'.mail, p);
    ConsumerKeepsMail(wk, wk', p);
    hide MailInv, Agree, OfShard, Flight;
  }

  lemma PopStep(wk: Worker, p: ShardId, route: RequestId -> ShardId, owned: set<ShardId>)
    requires WorkerInv(wk, route, owned) && Holds(wk, p, SP.Handled)
    ensures !AckRaises(wk, p)
    ensures var wk', l := PendingPopped(wk, p), LocalOf(wk, route, p);
            && p in owned && WorkerInv(wk', route, owned) && SameElsewhere(wk, wk', route, p)
            && l.mode == SP.Running(SP.Handled) && l.flight != []
            && LocalOf(wk', route, p) ==
                 l.(mode := SP.Running(SP.Committing(l.flight[0].offset)), flight := l.flight[1..])
  {
    AckAgrees(wk.mail, p);
    assert !AckRaises(wk, p);
    var wk' := PendingPopped(wk, p);
    ConsumerOwned(wk, owned, p);
    PopView(wk, p, route);
    hide PendingPopped, WorkerInv, SameElsewhere, LocalOf, Flight, Agree, AckRaises;
    ConsumerStep(wk, wk', p, route, owned);
  }
}
