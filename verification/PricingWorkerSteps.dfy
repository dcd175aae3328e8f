/** Every step of a worker keeps what a worker keeps, and changes the view of at most one shard. */
module PricingWorkerSteps {
  import opened Common
  import opened Sessions
  import opened Handshake
  import opened Mailbox
  import opened PricingWorker
  import SP = ShardProtocol

  // ----- Rebalance callbacks and the queue of changes -----

  lemma AnnounceKeepsBridge(wk: Worker, changes: seq<Change>)
    requires BridgeInv(wk) && wk.callback.None?
    requires Announceable(changes) && SameKind(changes)
    ensures BridgeInv(Announced(wk, changes)) && Open(Announced(wk, changes)) == changes
  {
    var wk' := Announced(wk, changes);
    assert wk.phase.Idle? && wk.bridge.queue == [];
    assert Open(wk') == changes;
    forall i | 0 <= i < |changes| ensures changes[i].id in Ids(changes) {
      assert changes[i] in changes;
    }
  }

  lemma LastOpenWaits(completions: map<TransitionId, Future>, changes: seq<Change>, open: seq<Change>)
    requires Progress(completions, changes, open) && open != []
    ensures exists c :: c in changes && c.id in completions && completions[c.id] == Waiting
  {
    assert changes[|changes| - 1] in changes;
  }

  lemma ReturnKeepsBridge(wk: Worker)
    requires BridgeInv(wk) && CanReturn(wk)
    ensures Open(wk) == [] && wk.phase.Idle? && BridgeInv(CallbackReturned(wk))
  {
    var changes := wk.callback.value;
    if Open(wk) != [] {
      LastOpenWaits(wk.bridge.completions, changes, Open(wk));
    }
    assert wk.phase.Idle?;
    assert wk.bridge.completions - Ids(changes) == map[];
  }

  lemma TakeKeepsBridge(wk: Worker)
    requires BridgeInv(wk) && CanTake(wk)
    ensures wk.callback.Some? && BridgeInv(TookChange(wk)) && Open(TookChange(wk)) == Open(wk)
  {
    hide Progress, Announceable, SameKind;
    assert Open(TookChange(wk)) == Open(wk);
  }

  lemma OneMoreDone(completions: map<TransitionId, Future>, changes: seq<Change>, open: seq<Change>)
    requires Announceable(changes) && Progress(completions, changes, open) && open != []
    ensures open[0].id in completions && completions[open[0].id] == Waiting
    ensures Progress(completions[open[0].id := Done], changes, open[1..])
  {
    var k := |changes| - |open|;
    assert open[0] == changes[k];
  }

  lemma CompleteKeepsBridge(wk: Worker)
    requires BridgeInv(wk) && wk.phase.Completing?
    ensures wk.callback.Some? && !CompleteRaises(wk) && BridgeInv(ChangeCompleted(wk))
    ensures Open(ChangeCompleted(wk)) == Open(wk)[1..]
  {
    hide Progress, Announceable, SameKind;
    assert Open(wk)[0] == wk.phase.change;
    OneMoreDone(wk.bridge.completions, wk.callback.value, Open(wk));
    assert Open(ChangeCompleted(wk)) == Open(wk)[1..];
  }

  // A step that moves the current change from one phase to the next.
  lemma PhaseKeepsBridge(wk: Worker, wk': Worker)
    requires BridgeInv(wk) && !wk.phase.Idle? && !wk'.phase.Idle?
    requires wk'.phase.change == wk.phase.change && wk'.bridge == wk.bridge && wk'.callback == wk.callback
    ensures BridgeInv(wk')
  {
    assert Open(wk') == Open(wk);
  }

  /** The change at hand is the first open one, of the callback's kind, and its shard occurs only once. */
  lemma FirstOpen(completions: map<TransitionId, Future>, changes: seq<Change>, open: seq<Change>)
    requires Announceable(changes) && SameKind(changes) && Progress(completions, changes, open) && open != []
    ensures open[0] in changes
    ensures forall c :: c in changes ==> c.Acquired? == changes[0].Acquired?
    ensures open[0].shard in Shards(changes)
    ensures open[0].shard !in Shards(open[1..])
  {
    var k := |changes| - |open|;
    assert open[0] == changes[k];
    assert changes[k] in changes && changes[0] in changes;
    forall c | c in open[1..] ensures c.shard != open[0].shard {
      var i :| 0 <= i < |open[1..]| && open[1..][i] == c;
      assert c == changes[k + 1 + i];
    }
  }

  lemma CurrentChange(wk: Worker)
    requires BridgeInv(wk) && Open(wk) != []
    ensures wk.callback.Some? && wk.callback.value != []
    ensures Open(wk)[0] in wk.callback.value
    ensures forall c :: c in wk.callback.value ==> c.Acquired? == wk.callback.value[0].Acquired?
    ensures Open(wk)[0].shard in Shards(wk.callback.value)
    ensures Open(wk)[0].shard !in Shards(Open(wk)[1..])
  {
    FirstOpen(wk.bridge.completions, wk.callback.value, Open(wk));
    hide Progress, SameKind;
  }

  lemma ShardsSplit(changes: seq<Change>)
    requires changes != []
    ensures Shards(changes) == {changes[0].shard} + Shards(changes[1..])
  {
    assert changes == [changes[0]] + changes[1..];
  }

  lemma AnnounceKeepsTasks(wk: Worker, changes: seq<Change>, owned: set<ShardId>, owned': set<ShardId>)
    requires BridgeInv(wk) && wk.callback.None? && TaskInv(wk, owned)
    requires Announceable(changes) && SameKind(changes)
    requires changes[0].Acquired? ==> Shards(changes) !! owned && owned' == owned + Shards(changes)
    requires changes[0].Released? ==> Shards(changes) <= owned && owned' == owned
    ensures TaskInv(Announced(wk, changes), owned')
  {
    assert wk.phase.Idle? && wk.bridge.queue == [];
    assert wk.bridge.queue + changes == changes;
    assert changes[0] in changes;
  }

  lemma ReturnKeepsTasks(wk: Worker, owned: set<ShardId>)
    requires BridgeInv(wk) && CanReturn(wk) && TaskInv(wk, owned)
    ensures var changes := wk.callback.value;
            var owned' := if changes[0].Acquired? then owned else owned - Shards(changes);
            && TaskInv(CallbackReturned(wk), owned')
            && (changes[0].Released? ==> forall p :: p in Shards(changes) ==> p !in wk.consumers && p !in wk.positions)
  {
    ReturnKeepsBridge(wk);
    assert wk.bridge.queue == [];
    assert Shards([]) == {};
  }

  lemma TakeAcquiredKeepsTasks(wk: Worker, owned: set<ShardId>)
    requires CanTake(wk) && TaskInv(wk, owned) && wk.bridge.queue[0].Acquired?
    requires wk.callback.Some? && wk.callback.value != [] && wk.callback.value[0].Acquired?
    requires Shards(wk.bridge.queue) == {wk.bridge.queue[0].shard} + Shards(wk.bridge.queue[1..])
    ensures !TakeRaises(wk)
    ensures TaskInv(TookChange(wk), owned)
  {
    hide Shards;
    assert Absent(wk) == Shards(wk.bridge.queue) == Absent(TookChange(wk));
  }

  lemma TakeReleasedKeepsTasks(wk: Worker, owned: set<ShardId>)
    requires CanTake(wk) && TaskInv(wk, owned) && wk.bridge.queue[0].Released?
    requires wk.callback.Some? && wk.callback.value != [] && wk.callback.value[0].Released?
    requires Shards(wk.bridge.queue) == {wk.bridge.queue[0].shard} + Shards(wk.bridge.queue[1..])
    requires wk.bridge.queue[0].shard in Shards(wk.callback.value)
    requires wk.bridge.queue[0].shard !in Shards(wk.bridge.queue[1..])
    ensures wk.bridge.queue[0].shard in wk.tasks
    ensures TaskInv(TookChange(wk), owned)
  {
    hide Shards;
    assert Absent(TookChange(wk)) == Absent(wk) + {wk.bridge.queue[0].shard};
  }

  lemma TakeKeepsTasks(wk: Worker, owned: set<ShardId>)
    requires PhaseFits(wk.phase) && BridgeInv(wk) && CanTake(wk) && TaskInv(wk, owned)
    ensures !TakeRaises(wk)
    ensures wk.bridge.queue[0].Released? ==> wk.bridge.queue[0].shard in wk.tasks
    ensures TaskInv(TookChange(wk), owned)
  {
    hide BridgeInv, Shards, TaskInv;
    assert Open(wk) == wk.bridge.queue;
    CurrentChange(wk);
    ShardsSplit(wk.bridge.queue);
    if wk.bridge.queue[0].Acquired? {
      TakeAcquiredKeepsTasks(wk, owned);
    } else {
      TakeReleasedKeepsTasks(wk, owned);
    }
  }

  lemma FillKeepsTasks(wk: Worker, route: RequestId -> ShardId, owned: set<ShardId>)
    requires PhaseFits(wk.phase) && BridgeInv(wk) && wk.phase.Restoring? && TaskInv(wk, owned)
    ensures wk.phase.change.shard !in wk.consumers
    ensures TaskInv(RegistryFilled(wk, route), owned)
  {
    hide BridgeInv, Shards;
    assert Open(wk)[0] == wk.phase.change && Open(wk)[1..] == wk.bridge.queue;
    CurrentChange(wk);
  }

  lemma StopKeepsTasks(wk: Worker, owned: set<ShardId>)
    requires PhaseFits(wk.phase) && BridgeInv(wk) && wk.phase.Stopping? && TaskInv(wk, owned)
    ensures wk.phase.change.shard in wk.consumers && wk.phase.change.shard !in wk.tasks
    ensures TaskInv(TaskEnded(wk), owned)
  {
    hide BridgeInv, Shards;
    assert Open(wk)[0] == wk.phase.change && Open(wk)[1..] == wk.bridge.queue;
    CurrentChange(wk);
  }

  lemma SameAbsentKeepsTasks(wk: Worker, wk': Worker, owned: set<ShardId>)
    requires TaskInv(wk, owned)
    requires !wk.phase.Stopping? && !wk'.phase.Stopping?
    requires Absent(wk') == Absent(wk) && wk'.callback == wk.callback && wk'.tasks == wk.tasks
    requires wk'.consumers == wk.consumers && wk'.positions == wk.positions
    ensures TaskInv(wk', owned)
  {
    hide Absent, Shards;
  }

  lemma CompleteKeepsTasks(wk: Worker, owned: set<ShardId>)
    requires PhaseFits(wk.phase) && BridgeInv(wk) && wk.phase.Completing? && TaskInv(wk, owned)
    ensures !CompleteRaises(wk) && TaskInv(ChangeCompleted(wk), owned)
  {
    hide BridgeInv, Shards, Open, Completed, TaskInv;
    CompleteKeepsBridge(wk);
    CompletedQueue(wk.bridge, wk.phase.change);
    assert Absent(ChangeCompleted(wk)) == Absent(wk);
    hide Absent;
    SameAbsentKeepsTasks(wk, ChangeCompleted(wk), owned);
  }

  lemma CompletedQueue(b: Bridge, c: Change)
    requires c.id in b.completions
    ensures Completed(b, c).queue == b.queue
  {
  }

  lemma PhaseKeepsTasks(wk: Worker, wk': Worker, owned: set<ShardId>)
    requires TaskInv(wk, owned)
    requires (wk.phase.Acquiring? && wk'.phase.Restoring?) || (wk.phase.Releasing? && wk'.phase.Completing?)
    requires wk'.phase.change == wk.phase.change
    requires wk'.bridge == wk.bridge && wk'.callback == wk.callback && wk'.tasks == wk.tasks
    requires wk'.consumers == wk.consumers && wk'.positions == wk.positions
    ensures TaskInv(wk', owned)
  {
    hide TaskInv, Shards;
    assert Absent(wk') == Absent(wk);
    SameAbsentKeepsTasks(wk, wk', owned);
  }

  // ----- The view of each shard -----

  lemma OwnedElsewhere(wk: Worker, wk': Worker, route: RequestId -> ShardId, owned: set<ShardId>, p: ShardId)
    requires OnlyOwned(wk, route, owned) && p in owned && SameElsewhere(wk, wk', route, p)
    ensures OnlyOwned(wk', route, owned)
  {
    hide NothingOf;
    forall q: ShardId | q !in owned ensures NothingOf(LocalOf(wk', route, q)) {
      assert NothingOf(LocalOf(wk, route, q));
    }
  }

  lemma RegisterElsewhere(m: SessionMap, event: RfqRegistered, route: RequestId -> ShardId, p: ShardId)
    requires route(event.rfqId) == p
    ensures OfShard(Register(m, event), route, p) == Register(OfShard(m, route, p), event)
    ensures forall q: ShardId :: q != p ==> OfShard(Register(m, event), route, q) == OfShard(m, route, q)
  {
  }

  lemma FillElsewhere(m: SessionMap, snapshot: SessionMap, route: RequestId -> ShardId, p: ShardId)
    ensures OfShard(m + OfShard(snapshot, route, p), route, p) == OfShard(m, route, p) + OfShard(snapshot, route, p)
    ensures forall q: ShardId :: q != p ==> OfShard(m + OfShard(snapshot, route, p), route, q) == OfShard(m, route, q)
  {
  }

  lemma ReleaseElsewhere(m: SessionMap, route: RequestId -> ShardId, p: ShardId)
    ensures OfShard(WithoutShard(m, route, p), route, p) == map[]
    ensures forall q: ShardId :: q != p ==> OfShard(WithoutShard(m, route, p), route, q) == OfShard(m, route, q)
  {
  }

  /** A consumer step: the shard has a running consumer, so it is assigned to the worker. */
  lemma ConsumerOwned(wk: Worker, owned: set<ShardId>, p: ShardId)
    requires PhaseFits(wk.phase) && BridgeInv(wk) && TaskInv(wk, owned) && p in wk.consumers
    ensures p in owned
  {
    if p !in wk.tasks {
      PhaseShardOwned(wk, owned);
    }
  }

  lemma PhaseShardOwned(wk: Worker, owned: set<ShardId>)
    requires BridgeInv(wk) && TaskInv(wk, owned) && !wk.phase.Idle?
    ensures wk.phase.change.shard in owned
    ensures wk.callback.Some?
  {
    assert Open(wk)[0] == wk.phase.change;
    CurrentChange(wk);
  }

  lemma PositionOwned(wk: Worker, route: RequestId -> ShardId, owned: set<ShardId>, p: ShardId)
    requires OnlyOwned(wk, route, owned) && p in wk.positions
    ensures p in owned
  {
    assert LocalOf(wk, route, p).position.Some?;
  }

  /** The delivery in hand is the first of the shard's unacknowledged ones. */
  lemma InHandIsFirst(wk: Worker, p: ShardId)
    requires MailInv(wk) && p in wk.mail.inHand
    ensures Flight(wk.mail, p) != []
    ensures Flight(wk.mail, p)[0] == SP.Item(OffsetOf(wk.mail.pendings, wk.mail.inHand[p].id), wk.mail.inHand[p].event)
  {
    assert Unacked(wk.mail, p)[0] == wk.mail.inHand[p];
  }
}
