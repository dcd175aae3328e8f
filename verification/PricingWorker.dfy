/** One Kafka pricing worker: rebalance callback, shard runtime, consumer tasks, mailboxes, registry.

    The functions are the steps of the worker between two awaits. What the worker keeps is stated
    against the set of shards that the broker has assigned to it. */
module PricingWorker {
  import opened Common
  import opened Wrappers
  import opened Sessions
  import opened Handshake
  import opened Mailbox
  import SP = ShardProtocol

  /** What the runtime is doing with the change it has taken from the queue. */
  datatype Phase =
    | Idle
    | Acquiring(change: Change)
    | Restoring(change: Change, snapshot: SessionMap)
    | Stopping(change: Change)
    | Releasing(change: Change)
    | Completing(change: Change)

  /** `callback` holds the changes published by the rebalance callback in progress; `tasks` are the keys
      of shard_tasks, `consumers` the consumer tasks that are alive; `positions` are the partitions the
      broker delivers from, with the next offset. */
  datatype Worker = Worker(
    bridge: Bridge, callback: Option<seq<Change>>, phase: Phase,
    tasks: set<ShardId>, consumers: map<ShardId, SP.Stage>, mail: Mailboxes,
    registry: SessionMap, positions: map<ShardId, nat>, reading: bool)

  const NEW_WORKER: Worker :=
    Worker(Bridge([], map[]), None, Idle, {}, map[], EMPTY, map[], map[], true)

  // ----- The steps -----

  function Announced(wk: Worker, changes: seq<Change>): Worker {
    wk.(bridge := Published(wk.bridge, changes), callback := Some(changes))
  }

  /** An assignment also makes the broker deliver from the committed offsets. */
  function AssignedFrom(wk: Worker, changes: seq<Change>, committed: map<ShardId, nat>): Worker
    requires Shards(changes) <= committed.Keys
  {
    Announced(wk, changes).(positions :=
      map p | p in wk.positions.Keys + Shards(changes) ::
        if p in Shards(changes) then committed[p] else wk.positions[p])
  }

  predicate CanReturn(wk: Worker) {
    wk.callback.Some? && AllDone(wk.bridge, wk.callback.value)
  }

  function CallbackReturned(wk: Worker): Worker
    requires CanReturn(wk)
  {
    wk.(bridge := Returned(wk.bridge, wk.callback.value), callback := None)
  }

  predicate CanTake(wk: Worker) {
    wk.phase.Idle? && wk.bridge.queue != []
  }

  /** "Shard already acquired". */
  predicate TakeRaises(wk: Worker)
    requires CanTake(wk)
  {
    wk.bridge.queue[0].Acquired? && wk.bridge.queue[0].shard in wk.tasks
  }

  function TookChange(wk: Worker): Worker
    requires CanTake(wk)
  {
    var c := wk.bridge.queue[0];
    var next := wk.(bridge := wk.bridge.(queue := wk.bridge.queue[1..]));
    if c.Acquired? then next.(phase := Acquiring(c))
    else if c.shard in wk.tasks then next.(phase := Stopping(c), tasks := wk.tasks - {c.shard})
    else next.(phase := Releasing(c))
  }

  /** The sessions read by `list_active`. */
  function SnapshotRead(wk: Worker, snapshot: SessionMap): Worker
    requires wk.phase.Acquiring?
  {
    wk.(phase := Restoring(wk.phase.change, snapshot))
  }

  function RegistryFilled(wk: Worker, route: RequestId -> ShardId): Worker
    requires wk.phase.Restoring?
  {
    var p := wk.phase.change.shard;
    wk.(phase := Completing(wk.phase.change),
        registry := wk.registry + OfShard(wk.phase.snapshot, route, p),
        tasks := wk.tasks + {p},
        consumers := wk.consumers[p := SP.Waiting],
        mail := Subscribed(wk.mail, p))
  }

  /** The cancelled consumer has ended, the `finally` of its subscription included, and the broker
      delivers nothing more of the shard. */
  function TaskEnded(wk: Worker): Worker
    requires wk.phase.Stopping?
  {
    var p := wk.phase.change.shard;
    wk.(phase := Releasing(wk.phase.change), consumers := wk.consumers - {p},
        mail := StoppedShard(wk.mail, p), positions := wk.positions - {p})
  }

  function ShardReleased(wk: Worker, route: RequestId -> ShardId): Worker
    requires wk.phase.Releasing?
  {
    wk.(phase := Completing(wk.phase.change), registry := WithoutShard(wk.registry, route, wk.phase.change.shard))
  }

  /** "Unknown ownership transition". */
  predicate CompleteRaises(wk: Worker)
    requires wk.phase.Completing?
  {
    wk.phase.change.id !in wk.bridge.completions
  }

  function ChangeCompleted(wk: Worker): Worker
    requires wk.phase.Completing? && !CompleteRaises(wk)
  {
    wk.(phase := Idle, bridge := Completed(wk.bridge, wk.phase.change))
  }

  function MessageDelivered(wk: Worker, p: ShardId, id: DeliveryId, offset: nat, event: RfqRegistered): Worker {
    wk.(mail := OnMessage(wk.mail, id, p, offset, event), positions := wk.positions[p := offset + 1])
  }

  predicate At(wk: Worker, p: ShardId, stage: SP.Stage) {
    p in wk.consumers && wk.consumers[p] == stage
  }

  predicate CanTakeDelivery(wk: Worker, p: ShardId) {
    At(wk, p, SP.Waiting) && Queue(wk.mail, p) != []
  }

  function DeliveryTaken(wk: Worker, p: ShardId): Worker
    requires CanTakeDelivery(wk, p)
  {
    wk.(mail := Taken(wk.mail, p), consumers := wk.consumers[p := SP.Taken])
  }

  predicate Holds(wk: Worker, p: ShardId, stage: SP.Stage) {
    At(wk, p, stage) && p in wk.mail.inHand
  }

  function StageReached(wk: Worker, p: ShardId, stage: SP.Stage): Worker {
    wk.(consumers := wk.consumers[p := stage])
  }

  function SessionRegistered(wk: Worker, p: ShardId): Worker
    requires p in wk.mail.inHand
  {
    StageReached(wk, p, SP.Registered).(registry := Register(wk.registry, wk.mail.inHand[p].event))
  }

  /** "Unknown RFQ domain event delivery". */
  predicate AckRaises(wk: Worker, p: ShardId)
    requires p in wk.mail.inHand
  {
    wk.mail.inHand[p].id !in wk.mail.pendings
  }

  function PendingPopped(wk: Worker, p: ShardId): Worker
    requires p in wk.mail.inHand && !AckRaises(wk, p)
  {
    var d := wk.mail.inHand[p];
    StageReached(wk, p, SP.Committing(wk.mail.pendings[d.id].offset)).(mail := Acked(wk.mail, d))
  }

  // ----- What a worker keeps -----

  function Current(wk: Worker): seq<Change> {
    if wk.phase.Idle? then [] else [wk.phase.change]
  }

  /** The changes published and not yet completed. */
  function Open(wk: Worker): seq<Change> {
    Current(wk) + wk.bridge.queue
  }

  predicate PhaseFits(phase: Phase) {
    && (phase.Acquiring? || phase.Restoring? ==> phase.change.Acquired?)
    && (phase.Stopping? || phase.Releasing? ==> phase.change.Released?)
  }

  /** Of the changes published, the open ones are a suffix; exactly those before it are done. */
  predicate Progress(completions: map<TransitionId, Future>, changes: seq<Change>, open: seq<Change>) {
    && |open| <= |changes|
    && open == changes[|changes| - |open|..]
    && completions.Keys == Ids(changes)
    && (forall i :: 0 <= i < |changes| ==>
          changes[i].id in completions
          && completions[changes[i].id] == if i < |changes| - |open| then Done else Waiting)
  }

  /** While a callback waits, the completed changes are a prefix of what it published and the open ones
      the rest, in order; without one there is nothing open. */
  predicate BridgeInv(wk: Worker) {
    match wk.callback
    case None => Open(wk) == [] && wk.bridge.completions == map[]
    case Some(changes) =>
      Announceable(changes) && SameKind(changes) && Progress(wk.bridge.completions, changes, Open(wk))
  }

  function PhaseShard(wk: Worker): set<ShardId> {
    if wk.phase.Idle? then {} else {wk.phase.change.shard}
  }

  /** The assigned shards that have no task: those still to be acquired, or those already taken down. */
  function Absent(wk: Worker): set<ShardId> {
    if wk.callback.None? || wk.callback.value == [] then {}
    else if wk.callback.value[0].Acquired? then
      Shards(wk.bridge.queue) + (if wk.phase.Acquiring? || wk.phase.Restoring? then PhaseShard(wk) else {})
    else Shards(wk.callback.value) - Shards(wk.bridge.queue)
  }

  predicate TaskInv(wk: Worker, owned: set<ShardId>) {
    && wk.tasks == owned - Absent(wk)
    && wk.consumers.Keys == wk.tasks + (if wk.phase.Stopping? then PhaseShard(wk) else {})
    && (wk.callback.Some? ==> Shards(wk.callback.value) <= owned)
    && (wk.callback.Some? && wk.callback.value != [] && wk.callback.value[0].Released? ==>
          forall p :: p in Absent(wk) && !(wk.phase.Stopping? && p in PhaseShard(wk)) ==> p !in wk.positions)
  }

  ghost predicate MailInv(wk: Worker) {
    && Agree(wk.mail)
    && (forall p :: p in wk.mail.inHand <==> p in wk.consumers && SP.HasInHand(SP.Running(wk.consumers[p])))
  }

  // ----- What a shard sees of its worker -----

  datatype Local = Local(mode: SP.Mode, registry: SessionMap, flight: seq<SP.Item>, position: Option<nat>)

  function ModeOf(wk: Worker, route: RequestId -> ShardId, p: ShardId): SP.Mode {
    if p in wk.consumers then SP.Running(wk.consumers[p])
    else if wk.phase.Restoring? && wk.phase.change.shard == p then SP.Restoring(OfShard(wk.phase.snapshot, route, p))
    else if wk.phase.Releasing? && wk.phase.change.shard == p then SP.Stopped
    else SP.Quiet
  }

  function LocalOf(wk: Worker, route: RequestId -> ShardId, p: ShardId): Local {
    Local(ModeOf(wk, route, p), OfShard(wk.registry, route, p), Flight(wk.mail, p),
          if p in wk.positions then Some(wk.positions[p]) else None)
  }

  // ----- What a worker has of shards that are not its own -----

  predicate NothingOf(l: Local) {
    !l.mode.Running? && l.registry == map[] && l.flight == [] && l.position.None?
  }

  /** Nothing in the worker belongs to a shard that is not assigned to it. */
  ghost predicate OnlyOwned(wk: Worker, route: RequestId -> ShardId, owned: set<ShardId>) {
    forall p: ShardId :: p !in owned ==> NothingOf(LocalOf(wk, route, p))
  }

  ghost predicate WorkerInv(wk: Worker, route: RequestId -> ShardId, owned: set<ShardId>) {
    PhaseFits(wk.phase) && BridgeInv(wk) && TaskInv(wk, owned) && MailInv(wk) && OnlyOwned(wk, route, owned)
  }

  /** Two states of a worker look the same to every shard but one. */
  ghost predicate SameElsewhere(wk: Worker, wk': Worker, route: RequestId -> ShardId, p: ShardId) {
    forall q: ShardId :: q != p ==> LocalOf(wk', route, q) == LocalOf(wk, route, q)
  }

  ghost predicate SameEverywhere(wk: Worker, wk': Worker, route: RequestId -> ShardId) {
    forall q: ShardId :: LocalOf(wk', route, q) == LocalOf(wk, route, q)
  }

  lemma NewWorkerInv(route: RequestId -> ShardId)
    ensures WorkerInv(NEW_WORKER, route, {})
  {
    EmptyAgrees();
  }
}
