/** Nothing is stuck at a shard: the worker that serves it can handle and commit all its messages, alone. */
module PricingClusterProgress {
  import opened Wrappers
  import opened Sequences
  import opened Common
  import opened Sessions
  import opened Replay
  import opened Mailbox
  import opened PricingWorker
  import opened PricingCluster
  import opened PricingClusterSafety
  import SP = ShardProtocol
  import Theorems = PricingClusterTheorems

  // ----- How much is left to do -----

  function MessagesFrom(log: seq<Entry>, lo: nat): nat
    decreases |log| - lo
  {
    if |log| <= lo then 0 else MessagesFrom(log, lo + 1) + if log[lo].Message? then 1 else 0
  }

  /** The first message at or after an offset; the end of the log if there is none. */
  function FirstMessage(log: seq<Entry>, lo: nat): nat
    decreases |log| - lo
  {
    if |log| <= lo || log[lo].Message? then lo else FirstMessage(log, lo + 1)
  }

  lemma {:induction false} FirstMessageIsNext(log: seq<Entry>, lo: nat)
    requires lo <= |log| && forall o :: lo <= o < |log| ==> !log[o].Poison?
    ensures var o := FirstMessage(log, lo);
            && lo <= o <= |log| && SP.Gaps(log, lo, o)
            && (MessagesFrom(log, lo) != 0 ==>
                  o < |log| && log[o].Message? && MessagesFrom(log, o + 1) < MessagesFrom(log, lo))
    decreases |log| - lo
  {
    if lo < |log| && !log[lo].Message? {
      FirstMessageIsNext(log, lo + 1);
    }
  }

  lemma {:induction false} FewerFrom(log: seq<Entry>, lo: nat, o: nat)
    requires lo <= o < |log|
    ensures MessagesFrom(log, o + 1) <= MessagesFrom(log, lo)
    ensures log[o].Message? ==> MessagesFrom(log, o + 1) < MessagesFrom(log, lo)
    decreases o - lo
  {
    if lo < o {
      FewerFrom(log, lo + 1, o);
    }
  }

  lemma {:induction false} NoneFrom(log: seq<Entry>, lo: nat, o: nat)
    requires MessagesFrom(log, lo) == 0 && lo <= o < |log|
    ensures !log[o].Message?
    decreases o - lo
  {
    if lo < o {
      NoneFrom(log, lo + 1, o);
    }
  }

  lemma {:induction false} NoItems(log: seq<Entry>, lo: nat, hi: nat, o: nat)
    requires hi <= |log| && SP.Items(log, lo, hi) == [] && lo <= o < hi
    ensures !log[o].Message?
    decreases o - lo
  {
    if lo < o {
      NoItems(log, lo + 1, hi, o);
    }
  }

  function Rank(stage: SP.Stage): nat {
    match stage
    case Waiting => 5
    case Taken => 4
    case Saved => 3
    case Registered => 2
    case Handled => 1
    case Committing(_) => 0
  }

  predicate IsServed(x: SP.Shard) {
    x.mode.Running? && x.position.Some?
  }

  /** The messages to commit, those to deliver, and the steps up to the next commit. */
  predicate IsLess(x: SP.Shard, y: SP.Shard)
    requires IsServed(x) && IsServed(y)
  {
    var m, n := MessagesFrom(x.log, x.committed), MessagesFrom(y.log, y.committed);
    var k, l := MessagesFrom(x.log, x.position.value), MessagesFrom(y.log, y.position.value);
    m < n || (m == n && (k < l || (k == l && Rank(x.mode.stage) < Rank(y.mode.stage))))
  }

  /** The step of its holder that a served shard is waiting for. */
  function Due(x: SP.Shard): SP.Action
    requires IsServed(x)
  {
    match x.mode.stage
    case Waiting => if x.flight != [] then SP.Take else SP.Deliver(FirstMessage(x.log, x.position.value))
    case Taken => SP.SaveDurable
    case Saved => SP.SaveRegistry
    case Registered => SP.Finish
    case Handled => SP.Pop
    case Committing(_) => SP.Commit
  }

  predicate NoPoisonFrom(log: seq<Entry>, lo: nat) {
    forall o :: lo <= o < |log| ==> !log[o].Poison?
  }

  predicate HasWork(x: SP.Shard)
    requires IsServed(x)
  {
    x.mode != SP.Running(SP.Waiting) || x.flight != [] || MessagesFrom(x.log, x.position.value) != 0
  }

  lemma DueIsEnabledForShard(x: SP.Shard)
    requires SP.Inv(x) && IsServed(x) && NoPoisonFrom(x.log, x.position.value) && HasWork(x)
    ensures SP.Enabled(x, Due(x))
  {
    hide SP.CacheInv, SP.CursorInv, SP.SavedInv, SP.ReplayInv, SP.Items, Register, ActiveOnly, SP.Gaps;
    if Due(x).Deliver? {
      FirstMessageIsNext(x.log, x.position.value);
    }
    hide MessagesFrom, FirstMessage;
  }

  lemma DueIsProgress(x: SP.Shard)
    requires SP.Inv(x) && IsServed(x) && NoPoisonFrom(x.log, x.position.value) && HasWork(x)
    ensures SP.Enabled(x, Due(x))
    ensures var y := SP.Apply(x, Due(x));
            IsServed(y) && y.log == x.log && NoPoisonFrom(y.log, y.position.value) && IsLess(y, x)
  {
    DueIsEnabledForShard(x);
    if Due(x).Deliver? {
      DeliveryIsProgress(x);
    } else if Due(x).Commit? {
      hide SP.CacheInv, SP.CursorInv, SP.SavedInv, SP.ReplayInv, SP.FlightInv,
        Register, ActiveOnly, SP.Gaps, NoPoisonFrom;
      FewerFrom(x.log, x.committed, x.mode.stage.offset);
    } else {
      hide SP.Inv, Register, ActiveOnly, NoPoisonFrom, MessagesFrom, FirstMessage;
    }
  }

  lemma DeliveryIsProgress(x: SP.Shard)
    requires IsServed(x) && NoPoisonFrom(x.log, x.position.value) && SP.Enabled(x, Due(x)) && Due(x).Deliver?
    ensures var y := SP.Apply(x, Due(x));
            IsServed(y) && y.log == x.log && NoPoisonFrom(y.log, y.position.value) && IsLess(y, x)
  {
    FewerFrom(x.log, x.position.value, FirstMessage(x.log, x.position.value));
    hide MessagesFrom, FirstMessage, SP.Gaps, Register, ActiveOnly;
  }

  lemma NoWorkIsDone(x: SP.Shard)
    requires SP.Inv(x) && IsServed(x) && !HasWork(x)
    ensures SP.NoMessages(x.log, x.committed)
  {
    hide SP.CacheInv, SP.CursorInv, SP.SavedInv, SP.ReplayInv, SP.OffsetInv;
    var position := x.position.value;
    forall o | x.committed <= o < |x.log| ensures !x.log[o].Message? {
      if o < position {
        NoItems(x.log, x.committed, position, o);
      } else {
        NoneFrom(x.log, position, o);
      }
    }
  }

  // ----- The worker's step for it -----

  /** The worker has a consumer task for the shard, its reader is alive, and what is ahead can be read. */
  predicate Serves(c: Cluster, w: WorkerId, p: ShardId) {
    && w in c.workers && p in c.partitions && c.partitions[p].owner == Some(w)
    && p in c.workers[w].tasks && p in c.workers[w].consumers && p in c.workers[w].positions && c.workers[w].reading
    && NoPoisonFrom(c.partitions[p].log, c.workers[w].positions[p])
  }

  lemma ServedShard(c: Cluster, w: WorkerId, p: ShardId)
    requires Inv(c) && Serves(c, w, p)
    ensures SP.Inv(ShardOf(c, p)) && IsServed(ShardOf(c, p))
    ensures ShardOf(c, p).mode == SP.Running(c.workers[w].consumers[p])
    ensures ShardOf(c, p).position == Some(c.workers[w].positions[p])
    ensures ShardOf(c, p).flight == Flight(c.workers[w].mail, p) && ShardOf(c, p).log == c.partitions[p].log
    ensures ShardOf(c, p).committed == c.partitions[p].committed
  {
    hide SP.Inv, WorkersInv, RoutedInv, Flight, OfShard, NoPoisonFrom;
    ShardOk(c, p);
  }

  function ActionFor(w: WorkerId, p: ShardId, id: DeliveryId, x: SP.Action): Action {
    match x
    case Deliver(o) => Deliver(w, p, id, o)
    case Take => TakeDelivery(w, p)
    case SaveDurable => SaveDurable(w, p)
    case SaveRegistry => SaveRegistry(w, p)
    case Finish => FinishHandler(w, p)
    case Pop => PopPending(w, p)
    case _ => CommitOffset(w, p)
  }

  lemma HandMatchesStage(wk: Worker, route: RequestId -> ShardId, owned: set<ShardId>, p: ShardId)
    requires WorkerInv(wk, route, owned) && p in wk.consumers
    ensures p in wk.mail.inHand <==> SP.HasInHand(SP.Running(wk.consumers[p]))
    ensures wk.consumers[p].Waiting? && Flight(wk.mail, p) != [] ==> Queue(wk.mail, p) != []
  {
    hide BridgeInv, TaskInv, OnlyOwned, Agree;
    assert |Flight(wk.mail, p)| == |Unacked(wk.mail, p)|;
  }

  // The step that is due is enabled for the worker when it is for the shard.
  lemma DueMatches(c: Cluster, w: WorkerId, p: ShardId, id: DeliveryId, x: SP.Shard)
    requires Serves(c, w, p) && id !in c.workers[w].mail.pendings && IsServed(x) && SP.Enabled(x, Due(x))
    requires var wk := c.workers[w];
             && x.mode == SP.Running(wk.consumers[p]) && x.position == Some(wk.positions[p])
             && x.log == c.partitions[p].log
             && (p in wk.mail.inHand <==> SP.HasInHand(x.mode))
             && (wk.consumers[p].Waiting? && x.flight != [] ==> Queue(wk.mail, p) != [])
    ensures Enabled(c, ActionFor(w, p, id, Due(x))) && Projection(c, ActionFor(w, p, id, Due(x)), p) == Some(Due(x))
  {
    hide Queue, FirstMessage, NoPoisonFrom, SP.Gaps;
  }

  lemma DueIsEnabled(c: Cluster, w: WorkerId, p: ShardId, id: DeliveryId)
    requires Inv(c) && Serves(c, w, p) && id !in c.workers[w].mail.pendings
    requires IsServed(ShardOf(c, p)) && SP.Enabled(ShardOf(c, p), Due(ShardOf(c, p)))
    ensures Enabled(c, ActionFor(w, p, id, Due(ShardOf(c, p))))
    ensures Projection(c, ActionFor(w, p, id, Due(ShardOf(c, p))), p) == Some(Due(ShardOf(c, p)))
  {
    InvParts(c);
    hide Inv, WorkersInv, ShardsInv, SP.Inv, SP.Enabled, WorkerInv, Flight, ShardOf, Queue, Due, Enabled, Projection,
      ActionFor, SP.HasInHand;
    ServedShard(c, w, p);
    WorkerOk(c, w);
    HandMatchesStage(c.workers[w], c.route, Owned(c, w), p);
    DueMatches(c, w, p, id, ShardOf(c, p));
  }

  lemma InvParts(c: Cluster)
    requires Inv(c)
    ensures OwnersLive(c) && WorkersInv(c) && ShardsInv(c)
  {
  }

  // What a consumer's step leaves alone in its worker.
  predicate StillServes(wk: Worker, wk': Worker, p: ShardId) {
    && wk'.tasks == wk.tasks && wk'.reading == wk.reading
    && p in wk'.consumers && p in wk'.positions
  }

  predicate IsConsumerStep(x: SP.Action) {
    x.Deliver? || x.Take? || x.SaveDurable? || x.SaveRegistry? || x.Finish? || x.Pop? || x.Commit?
  }

  // The worker that it leaves.
  function WorkerAfter(c: Cluster, w: WorkerId, p: ShardId, id: DeliveryId, x: SP.Action): Worker
    requires IsConsumerStep(x)
    requires Enabled(c, ActionFor(w, p, id, x)) && !Raises(c, ActionFor(w, p, id, x))
  {
    var wk := c.workers[w];
    match x
    case Deliver(o) => MessageDelivered(wk, p, id, o, c.partitions[p].log[o].event)
    case Take => DeliveryTaken(wk, p)
    case SaveDurable => StageReached(wk, p, SP.Saved)
    case SaveRegistry => SessionRegistered(wk, p)
    case Finish => StageReached(wk, p, SP.Handled)
    case Pop => PendingPopped(wk, p)
    case Commit => StageReached(wk, p, SP.Waiting)
  }

  lemma StepChangesWorker(c: Cluster, w: WorkerId, p: ShardId, id: DeliveryId, x: SP.Action)
    requires IsConsumerStep(x)
    requires Enabled(c, ActionFor(w, p, id, x)) && !Raises(c, ActionFor(w, p, id, x))
    ensures Apply(c, ActionFor(w, p, id, x)).workers == c.workers[w := WorkerAfter(c, w, p, id, x)]
  {
    hide MessageDelivered, DeliveryTaken, StageReached, SessionRegistered, PendingPopped, Register, OffsetInHand,
      SP.Gaps, Queue, AckRaises, SavedAt;
  }

  lemma StepStillServes(c: Cluster, w: WorkerId, p: ShardId, id: DeliveryId, x: SP.Action)
    requires Serves(c, w, p) && IsConsumerStep(x)
    requires Enabled(c, ActionFor(w, p, id, x)) && !Raises(c, ActionFor(w, p, id, x))
    ensures var c' := Apply(c, ActionFor(w, p, id, x));
            w in c'.workers && StillServes(c.workers[w], c'.workers[w], p)
  {
    hide OnMessage, Taken, Acked, Register, NoPoisonFrom, OffsetInHand, SP.Gaps, Queue, Apply, Enabled,
      Raises, ActionFor;
    StepChangesWorker(c, w, p, id, x);
  }

  lemma StepKeepsOwner(c: Cluster, w: WorkerId, p: ShardId, id: DeliveryId, x: SP.Action)
    requires p in c.partitions && IsConsumerStep(x)
    requires Enabled(c, ActionFor(w, p, id, x)) && !Raises(c, ActionFor(w, p, id, x))
    ensures var c' := Apply(c, ActionFor(w, p, id, x));
            p in c'.partitions && c'.partitions[p].owner == c.partitions[p].owner
  {
    hide MessageDelivered, DeliveryTaken, StageReached, SessionRegistered, PendingPopped, Register, OffsetInHand,
      SP.Gaps, Queue, AckRaises;
  }

  lemma DueIsTaken(c: Cluster, w: WorkerId, p: ShardId, id: DeliveryId, a: Action, d: SP.Action)
    requires Inv(c) && Serves(c, w, p) && id !in c.workers[w].mail.pendings
    requires IsServed(ShardOf(c, p)) && d == Due(ShardOf(c, p)) && SP.Enabled(ShardOf(c, p), d)
    requires a == ActionFor(w, p, id, d)
    ensures Enabled(c, a) && !Raises(c, a) && Inv(Apply(c, a)) && p in Apply(c, a).partitions
    ensures OwnersLive(Apply(c, a)) && ShardOf(Apply(c, a), p) == SP.Apply(ShardOf(c, p), d)
  {
    hide Inv, SP.Inv, SP.Enabled, SP.Apply, Apply, Enabled, Serves, Due, ShardOf, Simulates, Projection, ActionFor,
      Raises, WorkersInv, RoutedInv, ShardsInv;
    InvParts(c);
    DueIsEnabled(c, w, p, id);
    StepGood(c, a);
    StepKeepsInv(c, a);
    ServesParts(c, w, p);
    GoodStepParts(c, a, p, d);
  }

  lemma DueServes(c: Cluster, w: WorkerId, p: ShardId, id: DeliveryId) returns (a: Action)
    requires Inv(c) && Serves(c, w, p) && HasWorkAt(c, p) && id !in c.workers[w].mail.pendings
    ensures Enabled(c, a) && OnlyServes([a], w, p) && Inv(Apply(c, a)) && Serves(Apply(c, a), w, p)
    ensures Apply(c, a).partitions[p].log == c.partitions[p].log
    ensures IsServed(ShardOf(c, p)) && IsServed(ShardOf(Apply(c, a), p))
    ensures IsLess(ShardOf(Apply(c, a), p), ShardOf(c, p))
  {
    hide Inv, SP.Inv, SP.Enabled, SP.Apply, Apply, Enabled, IsLess, HasWork, NoPoisonFrom, Serves, Due, ShardOf,
      Simulates, Projection, ActionFor, OnlyServes, Raises, IsConsumerStep;
    ServesParts(c, w, p);
    ServedShard(c, w, p);
    PositionIsServed(c, w, p);
    var x := ShardOf(c, p);
    DueIsProgress(x);
    var d := Due(x);
    a := ActionFor(w, p, id, d);
    DueKind(w, p, id, x);
    DueIsTaken(c, w, p, id, a, d);
    StepStillServes(c, w, p, id, d);
    StepKeepsOwner(c, w, p, id, d);
    AfterDue(c, Apply(c, a), w, p, SP.Apply(x, d));
  }

  lemma PositionIsServed(c: Cluster, w: WorkerId, p: ShardId)
    requires Serves(c, w, p)
    ensures NoPoisonFrom(c.partitions[p].log, c.workers[w].positions[p])
  {
    hide NoPoisonFrom;
  }

  lemma DueKind(w: WorkerId, p: ShardId, id: DeliveryId, x: SP.Shard)
    requires IsServed(x)
    ensures IsConsumerStep(Due(x))
    ensures OnlyServes([ActionFor(w, p, id, Due(x))], w, p)
  {
    hide FirstMessage;
  }

  lemma GoodStepParts(c: Cluster, a: Action, p: ShardId, x: SP.Action)
    requires OwnersLive(c) && Enabled(c, a) && GoodStep(c, a) && p in c.partitions && Projection(c, a, p) == Some(x)
    ensures !Raises(c, a) && OwnersLive(Apply(c, a)) && p in Apply(c, a).partitions
    ensures SP.Enabled(ShardOf(c, p), x) && ShardOf(Apply(c, a), p) == SP.Apply(ShardOf(c, p), x)
  {
    hide Apply, Enabled, ShardOf, SP.Apply, SP.Enabled, Projection, WorkersInv, RoutedInv, OwnersLive, Raises;
    assert Simulates(c, Apply(c, a), p, Projection(c, a, p));
  }

  predicate HasWorkAt(c: Cluster, p: ShardId) {
    && p in c.partitions && (c.partitions[p].owner.Some? ==> c.partitions[p].owner.value in c.workers)
    && IsServed(ShardOf(c, p)) && HasWork(ShardOf(c, p))
  }

  lemma AfterDue(c: Cluster, c': Cluster, w: WorkerId, p: ShardId, y: SP.Shard)
    requires Serves(c, w, p) && Inv(c') && w in c'.workers && StillServes(c.workers[w], c'.workers[w], p)
    requires p in c'.partitions && c'.partitions[p].owner == Some(w)
    requires ShardOf(c', p) == y && y.log == c.partitions[p].log
    requires y.position.Some? && NoPoisonFrom(y.log, y.position.value)
    ensures Serves(c', w, p) && c'.partitions[p].log == c.partitions[p].log
  {
    hide Inv, NoPoisonFrom, ModeOf, Flight, OfShard;
  }

  // ----- Progress -----

  /** Only this consumer, and the reader for it, move. */
  predicate OnlyServes(actions: seq<Action>, w: WorkerId, p: ShardId) {
    forall a :: a in actions ==>
      match a
      case Deliver(v, q, _, _) => v == w && q == p
      case TakeDelivery(v, q) => v == w && q == p
      case SaveDurable(v, q) => v == w && q == p
      case SaveRegistry(v, q) => v == w && q == p
      case FinishHandler(v, q) => v == w && q == p
      case PopPending(v, q) => v == w && q == p
      case CommitOffset(v, q) => v == w && q == p
      case _ => false
  }

  predicate IsDone(c: Cluster, p: ShardId, log: seq<Entry>) {
    p in c.partitions && c.partitions[p].log == log && SP.NoMessages(log, c.partitions[p].committed)
  }

  ghost predicate CanFinish(c: Cluster, w: WorkerId, p: ShardId, log: seq<Entry>) {
    exists actions :: IsRun(c, actions) && OnlyServes(actions, w, p) && IsDone(Final(c, actions), p, log)
  }

  lemma CanFinishNow(c: Cluster, w: WorkerId, p: ShardId, log: seq<Entry>)
    requires IsDone(c, p, log)
    ensures CanFinish(c, w, p, log)
  {
    assert IsRun(c, []) && OnlyServes([], w, p) && Final(c, []) == c;
  }

  lemma CanFinishAfter(c: Cluster, a: Action, w: WorkerId, p: ShardId, log: seq<Entry>)
    requires Enabled(c, a) && OnlyServes([a], w, p) && CanFinish(Apply(c, a), w, p, log)
    ensures CanFinish(c, w, p, log)
  {
    hide Enabled, Apply, IsDone;
    var next := Apply(c, a);
    var actions :| IsRun(next, actions) && OnlyServes(actions, w, p) && IsDone(Final(next, actions), p, log);
    assert a in [a] && ([a] + actions)[1..] == actions;
    assert IsRun(c, [a] + actions) && OnlyServes([a] + actions, w, p);
  }

  lemma {:induction false} ServedCanFinish(c: Cluster, w: WorkerId, p: ShardId)
    requires Inv(c) && Serves(c, w, p) && IsServed(ShardOf(c, p))
    ensures CanFinish(c, w, p, c.partitions[p].log)
    decreases MessagesFrom(c.partitions[p].log, ShardOf(c, p).committed),
              MessagesFrom(c.partitions[p].log, ShardOf(c, p).position.value), Rank(ShardOf(c, p).mode.stage)
  {
    hide Inv, SP.Inv, CanFinish, Enabled, Apply, ShardOf, Serves, MessagesFrom, Rank, OnlyServes, HasWork;
    ServesParts(c, w, p);
    ServedShard(c, w, p);
    if HasWork(ShardOf(c, p)) {
      UnusedString(c.workers[w].mail.pendings.Keys);
      var id: DeliveryId :| id !in c.workers[w].mail.pendings.Keys;
      var a := DueServes(c, w, p, id);
      ServesParts(Apply(c, a), w, p);
      ServedShard(Apply(c, a), w, p);
      ServedCanFinish(Apply(c, a), w, p);
      CanFinishAfter(c, a, w, p, c.partitions[p].log);
    } else {
      NoWorkIsDone(ShardOf(c, p));
      CanFinishNow(c, w, p, c.partitions[p].log);
    }
  }

  /** From every reachable state, a worker that serves a shard can go on alone, without any failure of others
      or help from them, until every message of the shard's log is handled and committed. */
  lemma AllMessagesCanBeHandled(c: Cluster, before: seq<Action>, w: WorkerId, p: ShardId)
    requires Init(c) && IsRun(c, before) && Serves(Final(c, before), w, p)
    ensures CanHandleAll(c, Final(c, before), w, p)
  {
    hide Inv, Init, SP.Inv, Serves, IsRun, Final, CanFinish, CanHandleAll, ShardOf;
    Reached(c, before);
    var s := Final(c, before);
    ServesParts(s, w, p);
    ServedShard(s, w, p);
    ServedCanFinish(s, w, p);
    FinishHandles(c, before, w, p);
  }

  /** Alone, the worker can get every message of the log handled and committed. */
  ghost predicate CanHandleAll(start: Cluster, c: Cluster, w: WorkerId, p: ShardId) {
    exists actions :: IsRun(c, actions) && OnlyServes(actions, w, p) && AllHandled(start, c, Final(c, actions), p)
  }

  lemma FinishHandles(c: Cluster, before: seq<Action>, w: WorkerId, p: ShardId)
    requires Init(c) && IsRun(c, before) && p in c.partitions && p in Final(c, before).partitions
    requires CanFinish(Final(c, before), w, p, Final(c, before).partitions[p].log)
    ensures CanHandleAll(c, Final(c, before), w, p)
  {
    hide Init, IsRun, Final, OnlyServes;
    var s := Final(c, before);
    var log := s.partitions[p].log;
    var actions :| IsRun(s, actions) && OnlyServes(actions, w, p) && IsDone(Final(s, actions), p, log);
    Theorems.NothingSkipped(c, before, actions, p);
    DoneIsHandled(c, s, Final(s, actions), p);
  }

  lemma DoneIsHandled(start: Cluster, s: Cluster, f: Cluster, p: ShardId)
    requires p in start.partitions && p in s.partitions && IsDone(f, p, s.partitions[p].log)
    requires f.partitions[p].committed <= |f.partitions[p].log|
    requires forall o | start.partitions[p].committed <= o < f.partitions[p].committed ::
               f.partitions[p].log[o].Message? ==> o in f.partitions[p].handled
    ensures AllHandled(start, s, f, p)
  {
  }

  /** The log is as it was, and each of its messages since the first committed offset is handled and committed. */
  predicate AllHandled(start: Cluster, s: Cluster, f: Cluster, p: ShardId) {
    && p in start.partitions && p in s.partitions && p in f.partitions
    && f.partitions[p].log == s.partitions[p].log
    && var part := f.partitions[p];
       forall o :: start.partitions[p].committed <= o < |part.log| && part.log[o].Message? ==>
         o < part.committed && o in part.handled
  }

  lemma ServesParts(c: Cluster, w: WorkerId, p: ShardId)
    requires Serves(c, w, p)
    ensures p in c.partitions && c.partitions[p].owner == Some(w)
    ensures w in c.workers && p in c.workers[w].consumers && p in c.workers[w].positions
  {
  }
}
