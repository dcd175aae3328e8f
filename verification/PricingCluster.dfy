/** Any number of Kafka pricing workers over the same partitions and the same session store.

    Assumptions on the broker: a partition is assigned only while nobody owns it, that is after the old
    owner's revoke callback has returned or the old owner has crashed; deliveries after an assignment
    start at the committed offset; nothing of a partition arrives between the end of its consumer and
    its next assignment; a commit takes effect when it is made or never. Producers route an event by the
    partitioner that the workers use. */
module PricingCluster {
  import opened Common
  import opened Wrappers
  import opened Sessions
  import opened Replay
  import opened Handshake
  import opened Mailbox
  import opened PricingWorker
  import SP = ShardProtocol

  /** History, read by no step: `start`, `handled`, `cursor` and `highWater`, as for a single shard. */
  datatype Partition = Partition(
    log: seq<Entry>, committed: nat, owner: Option<WorkerId>,
    start: nat, handled: set<nat>, cursor: nat, highWater: nat)

  datatype Cluster = Cluster(
    route: RequestId -> ShardId, partitions: map<ShardId, Partition>,
    durable: SessionMap, initial: SessionMap, workers: map<WorkerId, Worker>)

  datatype Action =
    | Produce(p: ShardId, entry: Entry)
    | StartWorker(w: WorkerId)
    | CrashWorker(w: WorkerId)
    | CallAssigned(w: WorkerId, changes: seq<Change>)
    | CallRevoked(w: WorkerId, changes: seq<Change>)
    | ReturnCallback(w: WorkerId)
    | TakeChange(w: WorkerId)
    | ReadSnapshot(w: WorkerId)
    | FillRegistry(w: WorkerId)
    | EndTask(w: WorkerId)
    | ReleaseShard(w: WorkerId)
    | CompleteChange(w: WorkerId)
    | Deliver(w: WorkerId, p: ShardId, id: DeliveryId, offset: nat)
    | ReadPoison(w: WorkerId, p: ShardId, offset: nat)
    | TakeDelivery(w: WorkerId, p: ShardId)
    | SaveDurable(w: WorkerId, p: ShardId)
    | SaveRegistry(w: WorkerId, p: ShardId)
    | FinishHandler(w: WorkerId, p: ShardId)
    | PopPending(w: WorkerId, p: ShardId)
    | CommitOffset(w: WorkerId, p: ShardId)

  function Owned(c: Cluster, w: WorkerId): set<ShardId> {
    set p | p in c.partitions && c.partitions[p].owner == Some(w)
  }

  predicate Enabled(c: Cluster, a: Action) {
    match a
    case Produce(p, entry) => p in c.partitions && (entry.Message? ==> c.route(entry.event.rfqId) == p)
    case StartWorker(w) => w !in c.workers
    case CrashWorker(w) => w in c.workers
    case CallAssigned(w, changes) =>
      && w in c.workers && c.workers[w].callback.None?
      && Announceable(changes) && (forall x :: x in changes ==> x.Acquired?)
      && (forall p :: p in Shards(changes) ==> p in c.partitions && c.partitions[p].owner.None?)
    case CallRevoked(w, changes) =>
      && w in c.workers && c.workers[w].callback.None?
      && Announceable(changes) && (forall x :: x in changes ==> x.Released?)
      && Shards(changes) <= Owned(c, w)
    case ReturnCallback(w) => w in c.workers && CanReturn(c.workers[w])
    case TakeChange(w) => w in c.workers && CanTake(c.workers[w])
    case ReadSnapshot(w) => w in c.workers && c.workers[w].phase.Acquiring?
    case FillRegistry(w) => w in c.workers && c.workers[w].phase.Restoring?
    case EndTask(w) => w in c.workers && c.workers[w].phase.Stopping?
    case ReleaseShard(w) => w in c.workers && c.workers[w].phase.Releasing?
    case CompleteChange(w) => w in c.workers && c.workers[w].phase.Completing?
    case Deliver(w, p, id, o) =>
      && NextMessage(c, w, p, o) && c.partitions[p].log[o].Message?
      && id !in c.workers[w].mail.pendings
    case ReadPoison(w, p, o) => NextMessage(c, w, p, o) && c.partitions[p].log[o].Poison?
    case TakeDelivery(w, p) => w in c.workers && CanTakeDelivery(c.workers[w], p)
    case SaveDurable(w, p) => w in c.workers && Holds(c.workers[w], p, SP.Taken) && p in c.partitions
    case SaveRegistry(w, p) => w in c.workers && Holds(c.workers[w], p, SP.Saved)
    case FinishHandler(w, p) => w in c.workers && Holds(c.workers[w], p, SP.Registered) && p in c.partitions
    case PopPending(w, p) => w in c.workers && Holds(c.workers[w], p, SP.Handled)
    case CommitOffset(w, p) =>
      w in c.workers && p in c.workers[w].consumers && c.workers[w].consumers[p].Committing? && p in c.partitions
  }

  /** The reader of `w` is alive, and offset `o` is the next one of `p` that holds anything. */
  predicate NextMessage(c: Cluster, w: WorkerId, p: ShardId, o: nat) {
    && w in c.workers && p in c.partitions && p in c.workers[w].positions
    && c.workers[w].reading
    && c.workers[w].positions[p] <= o < |c.partitions[p].log|
    && SP.Gaps(c.partitions[p].log, c.workers[w].positions[p], o)
  }

  /** The three RuntimeErrors of the code. */
  predicate Raises(c: Cluster, a: Action)
    requires Enabled(c, a)
  {
    match a
    case TakeChange(w) => TakeRaises(c.workers[w])
    case CompleteChange(w) => CompleteRaises(c.workers[w])
    case PopPending(w, p) => AckRaises(c.workers[w], p)
    case _ => false
  }

  function SetWorker(c: Cluster, w: WorkerId, wk: Worker): Cluster {
    c.(workers := c.workers[w := wk])
  }

  function SetPartition(c: Cluster, p: ShardId, part: Partition): Cluster {
    c.(partitions := c.partitions[p := part])
  }

  function WithOwner(partitions: map<ShardId, Partition>, shards: set<ShardId>,
                     owner: Option<WorkerId>): map<ShardId, Partition> {
    map p | p in partitions :: if p in shards then partitions[p].(owner := owner) else partitions[p]
  }

  /** A new assignment starts over at the committed offset. */
  function Rewound(partitions: map<ShardId, Partition>, shards: set<ShardId>): map<ShardId, Partition> {
    map p | p in partitions :: if p in shards then partitions[p].(cursor := partitions[p].committed) else partitions[p]
  }

  function CommittedOffsets(c: Cluster): map<ShardId, nat> {
    map p | p in c.partitions :: c.partitions[p].committed
  }

  // A worker that fails leaves nothing behind but what it had saved and committed.
  function Crashed(c: Cluster, w: WorkerId): Cluster {
    c.(workers := c.workers - {w}, partitions := WithOwner(c.partitions, Owned(c, w), None))
  }

  function OffsetInHand(wk: Worker, p: ShardId): nat
    requires p in wk.mail.inHand
  {
    OffsetOf(wk.mail.pendings, wk.mail.inHand[p].id)
  }

  function SavedAt(part: Partition, offset: nat): Partition {
    part.(cursor := offset + 1, highWater := SP.Max(part.highWater, offset + 1))
  }

  function Apply(c: Cluster, a: Action): Cluster
    requires Enabled(c, a)
  {
    match a
    case Produce(p, entry) => SetPartition(c, p, c.partitions[p].(log := c.partitions[p].log + [entry]))
    case StartWorker(w) => SetWorker(c, w, NEW_WORKER)
    case CrashWorker(w) => Crashed(c, w)
    case CallAssigned(w, changes) =>
      SetWorker(c, w, AssignedFrom(c.workers[w], changes, CommittedOffsets(c)))
        .(partitions := WithOwner(Rewound(c.partitions, Shards(changes)), Shards(changes), Some(w)))
    case CallRevoked(w, changes) => SetWorker(c, w, Announced(c.workers[w], changes))
    case ReturnCallback(w) =>
      var changes := c.workers[w].callback.value;
      SetWorker(c, w, CallbackReturned(c.workers[w]))
        .(partitions :=
            if changes != [] && changes[0].Released? then WithOwner(c.partitions, Shards(changes), None)
            else c.partitions)
    case TakeChange(w) =>
      if TakeRaises(c.workers[w]) then Crashed(c, w) else SetWorker(c, w, TookChange(c.workers[w]))
    case ReadSnapshot(w) => SetWorker(c, w, SnapshotRead(c.workers[w], ActiveOnly(c.durable)))
    case FillRegistry(w) => SetWorker(c, w, RegistryFilled(c.workers[w], c.route))
    case EndTask(w) => SetWorker(c, w, TaskEnded(c.workers[w]))
    case ReleaseShard(w) => SetWorker(c, w, ShardReleased(c.workers[w], c.route))
    case CompleteChange(w) =>
      if CompleteRaises(c.workers[w]) then Crashed(c, w) else SetWorker(c, w, ChangeCompleted(c.workers[w]))
    case Deliver(w, p, id, o) =>
      SetWorker(c, w, MessageDelivered(c.workers[w], p, id, o, c.partitions[p].log[o].event))
    case ReadPoison(w, p, o) => SetWorker(c, w, c.workers[w].(reading := false))
    case TakeDelivery(w, p) => SetWorker(c, w, DeliveryTaken(c.workers[w], p))
    case SaveDurable(w, p) =>
      var wk := c.workers[w];
      SetPartition(SetWorker(c, w, StageReached(wk, p, SP.Saved)), p, SavedAt(c.partitions[p], OffsetInHand(wk, p)))
        .(durable := Register(c.durable, wk.mail.inHand[p].event))
    case SaveRegistry(w, p) => SetWorker(c, w, SessionRegistered(c.workers[w], p))
    case FinishHandler(w, p) =>
      var wk, part := c.workers[w], c.partitions[p];
      SetPartition(SetWorker(c, w, StageReached(wk, p, SP.Handled)), p,
          part.(handled := part.handled + {OffsetInHand(wk, p)}))
    case PopPending(w, p) =>
      if AckRaises(c.workers[w], p) then Crashed(c, w) else SetWorker(c, w, PendingPopped(c.workers[w], p))
    case CommitOffset(w, p) =>
      var wk := c.workers[w];
      SetPartition(SetWorker(c, w, StageReached(wk, p, SP.Waiting)), p,
          c.partitions[p].(committed := wk.consumers[p].offset + 1))
  }

  predicate Routed(route: RequestId -> ShardId, p: ShardId, log: seq<Entry>) {
    forall o :: 0 <= o < |log| && log[o].Message? ==> route(log[o].event.rfqId) == p
  }

  /** No worker yet, any messages in the partitions, any committed offsets, any durable sessions. */
  predicate Init(c: Cluster) {
    && c.workers == map[] && c.durable == c.initial
    && forall p :: p in c.partitions ==>
      var part := c.partitions[p];
      && part.owner.None? && part.handled == {}
      && part.start == part.committed == part.cursor == part.highWater <= |part.log|
      && Routed(c.route, p, part.log)
  }

  predicate IsRun(c: Cluster, actions: seq<Action>)
    decreases |actions|
  {
    actions == [] || (Enabled(c, actions[0]) && IsRun(Apply(c, actions[0]), actions[1..]))
  }

  function Final(c: Cluster, actions: seq<Action>): Cluster
    requires IsRun(c, actions)
    decreases |actions|
  {
    if actions == [] then c else Final(Apply(c, actions[0]), actions[1..])
  }

  // ----- One shard's view of the cluster -----

  predicate OwnersLive(c: Cluster) {
    forall p :: p in c.partitions && c.partitions[p].owner.Some? ==> c.partitions[p].owner.value in c.workers
  }

  function LocalAt(c: Cluster, p: ShardId): Local
    requires p in c.partitions && (c.partitions[p].owner.Some? ==> c.partitions[p].owner.value in c.workers)
  {
    match c.partitions[p].owner
    case None => Local(SP.Free, map[], [], None)
    case Some(w) => LocalOf(c.workers[w], c.route, p)
  }

  function Combine(part: Partition, durable: SessionMap, initial: SessionMap, l: Local): SP.Shard {
    SP.Shard(part.log, part.committed, durable, part.owner, l.mode, l.registry, l.flight, l.position,
             part.start, initial, part.handled, part.cursor, part.highWater)
  }

  function ShardOf(c: Cluster, p: ShardId): SP.Shard
    requires p in c.partitions && (c.partitions[p].owner.Some? ==> c.partitions[p].owner.value in c.workers)
  {
    Combine(c.partitions[p], OfShard(c.durable, c.route, p), OfShard(c.initial, c.route, p), LocalAt(c, p))
  }

  // ----- What every step keeps -----

  ghost predicate WorkersInv(c: Cluster) {
    forall w :: w in c.workers ==> WorkerInv(c.workers[w], c.route, Owned(c, w))
  }

  predicate RoutedInv(c: Cluster) {
    forall p :: p in c.partitions ==> Routed(c.route, p, c.partitions[p].log)
  }

  ghost predicate ShardsInv(c: Cluster)
    requires OwnersLive(c)
  {
    forall p :: p in c.partitions ==> SP.Inv(ShardOf(c, p))
  }

  ghost predicate Inv(c: Cluster) {
    OwnersLive(c) && WorkersInv(c) && RoutedInv(c) && ShardsInv(c)
  }
}
