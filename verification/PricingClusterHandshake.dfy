/** The Kafka workers follow the handshake: every step of the cluster is, for each worker, one step of its
    handshake or none. So each worker completes every change that a callback publishes, in order and once. */
module PricingClusterHandshake {
  import opened Wrappers
  import opened Common
  import opened Sequences
  import opened Sessions
  import opened Handshake
  import opened Mailbox
  import opened PricingWorker
  import opened PricingCluster
  import opened PricingClusterSafety
  import SP = ShardProtocol
  import HR = HandshakeRuns

  function CoreOf(wk: Worker): HR.Core {
    HR.Core(wk.bridge, wk.callback, if wk.phase.Idle? then None else Some(wk.phase.change))
  }

  /** The step that an action of the cluster is for the handshake of `w`, if any. */
  function HandshakeStep(a: Action, w: WorkerId): Option<HR.Action> {
    match a
    case CallAssigned(v, changes) => if v == w then Some(HR.Call(changes)) else None
    case CallRevoked(v, changes) => if v == w then Some(HR.Call(changes)) else None
    case ReturnCallback(v) => if v == w then Some(HR.Return) else None
    case TakeChange(v) => if v == w then Some(HR.Take) else None
    case CompleteChange(v) => if v == w then Some(HR.Complete) else None
    case _ => None
  }

  predicate Restarts(a: Action, w: WorkerId) {
    a == CrashWorker(w) || a == StartWorker(w)
  }

  // The five steps of a worker that are steps of its handshake.
  lemma HandshakeMoves(wk: Worker, changes: seq<Change>, committed: map<ShardId, nat>)
    ensures CoreOf(Announced(wk, changes)) == HR.Core(Published(wk.bridge, changes), Some(changes), CoreOf(wk).current)
    ensures Shards(changes) <= committed.Keys ==>
      CoreOf(AssignedFrom(wk, changes, committed)) == CoreOf(Announced(wk, changes))
    ensures CanReturn(wk) ==>
      HR.Possible(CoreOf(wk), HR.Return) && CoreOf(CallbackReturned(wk)) == HR.Next(CoreOf(wk), HR.Return)
    ensures CanTake(wk) ==>
      HR.Possible(CoreOf(wk), HR.Take) && CoreOf(TookChange(wk)) == HR.Next(CoreOf(wk), HR.Take)
    ensures wk.phase.Completing? ==>
      && HR.Possible(CoreOf(wk), HR.Complete) && (HR.Raises(CoreOf(wk)) <==> CompleteRaises(wk))
      && (!CompleteRaises(wk) ==> CoreOf(ChangeCompleted(wk)) == HR.Next(CoreOf(wk), HR.Complete))
  {
    hide Published, Returned, Completed, AllDone, Shards;
  }

  // The other steps leave bridge, callback and the change at hand alone.
  lemma QuietMoves(wk: Worker, route: RequestId -> ShardId, snapshot: SessionMap)
    ensures wk.phase.Acquiring? ==> CoreOf(SnapshotRead(wk, snapshot)) == CoreOf(wk)
    ensures wk.phase.Restoring? ==> CoreOf(RegistryFilled(wk, route)) == CoreOf(wk)
    ensures wk.phase.Stopping? ==> CoreOf(TaskEnded(wk)) == CoreOf(wk)
    ensures wk.phase.Releasing? ==> CoreOf(ShardReleased(wk, route)) == CoreOf(wk)
  {
    hide OfShard, WithoutShard, Subscribed, StoppedShard;
  }

  lemma ConsumerMoves(wk: Worker, p: ShardId, id: DeliveryId, offset: nat, event: RfqRegistered, stage: SP.Stage)
    ensures CoreOf(MessageDelivered(wk, p, id, offset, event)) == CoreOf(wk)
    ensures CoreOf(StageReached(wk, p, stage)) == CoreOf(wk)
    ensures CoreOf(wk.(reading := false)) == CoreOf(wk)
    ensures CanTakeDelivery(wk, p) ==> CoreOf(DeliveryTaken(wk, p)) == CoreOf(wk)
    ensures p in wk.mail.inHand ==> CoreOf(SessionRegistered(wk, p)) == CoreOf(wk)
    ensures p in wk.mail.inHand && !AckRaises(wk, p) ==> CoreOf(PendingPopped(wk, p)) == CoreOf(wk)
  {
    hide OnMessage, Taken, Acked, Register, Queue;
  }

  /** A step of one worker leaves the other workers as they are. */
  lemma OthersStay(c: Cluster, a: Action, w: WorkerId)
    requires Enabled(c, a) && w in c.workers && (a.Produce? || a.w != w)
    ensures w in Apply(c, a).workers && Apply(c, a).workers[w] == c.workers[w]
  {
    hide Announced, AssignedFrom, CallbackReturned, TookChange, SnapshotRead, RegistryFilled, TaskEnded, ShardReleased,
      ChangeCompleted, MessageDelivered, DeliveryTaken, StageReached, SessionRegistered, PendingPopped, WithOwner,
      Rewound, CommittedOffsets, Owned, CanReturn, CanTake, CanTakeDelivery, TakeRaises, CompleteRaises, AckRaises,
      Announceable;
  }

  lemma CallFollows(c: Cluster, a: Action)
    requires (a.CallAssigned? || a.CallRevoked?) && Enabled(c, a)
    ensures a.w in Apply(c, a).workers
    ensures var core := CoreOf(c.workers[a.w]);
            && HR.Possible(core, HR.Call(a.changes))
            && CoreOf(Apply(c, a).workers[a.w]) == HR.Next(core, HR.Call(a.changes))
  {
    HandshakeMoves(c.workers[a.w], a.changes, CommittedOffsets(c));
    assert a.changes != [];
    hide Published, AssignedFrom, Shards, WithOwner, Rewound, Owned, CoreOf;
    CoreFields(c.workers[a.w]);
  }

  lemma CoreFields(wk: Worker)
    ensures CoreOf(wk).bridge == wk.bridge && CoreOf(wk).callback == wk.callback
  {
  }

  lemma RuntimeFollows(c: Cluster, a: Action)
    requires (a.ReturnCallback? || a.TakeChange? || a.CompleteChange?) && Enabled(c, a) && !Raises(c, a)
    ensures a.w in Apply(c, a).workers
    ensures var core, x := CoreOf(c.workers[a.w]), HandshakeStep(a, a.w).value;
            && HR.Possible(core, x) && (x.Complete? ==> !HR.Raises(core))
            && CoreOf(Apply(c, a).workers[a.w]) == HR.Next(core, x)
  {
    HandshakeMoves(c.workers[a.w], [], map[]);
    hide CoreOf, CallbackReturned, TookChange, ChangeCompleted, CanReturn, CanTake, CompleteRaises, TakeRaises,
      WithOwner, HR.Next, HR.Possible, HR.Raises;
  }

  lemma QuietFollows(c: Cluster, a: Action)
    requires a.ReadSnapshot? || a.FillRegistry? || a.EndTask? || a.ReleaseShard?
    requires Enabled(c, a)
    ensures a.w in Apply(c, a).workers && CoreOf(Apply(c, a).workers[a.w]) == CoreOf(c.workers[a.w])
  {
    QuietMoves(c.workers[a.w], c.route, ActiveOnly(c.durable));
    hide CoreOf, SnapshotRead, RegistryFilled, TaskEnded, ShardReleased;
  }

  lemma DeliverFollows(c: Cluster, a: Action)
    requires a.Deliver? && Enabled(c, a)
    ensures a.w in Apply(c, a).workers && CoreOf(Apply(c, a).workers[a.w]) == CoreOf(c.workers[a.w])
  {
    hide CoreOf, MessageDelivered;
    ConsumerMoves(c.workers[a.w], a.p, a.id, a.offset, c.partitions[a.p].log[a.offset].event, SP.Waiting);
  }

  lemma TakenFollows(c: Cluster, a: Action)
    requires a.ReadPoison? || a.TakeDelivery? || a.SaveRegistry? || a.PopPending?
    requires Enabled(c, a) && !Raises(c, a)
    ensures a.w in Apply(c, a).workers && CoreOf(Apply(c, a).workers[a.w]) == CoreOf(c.workers[a.w])
  {
    hide CoreOf, DeliveryTaken, SessionRegistered, PendingPopped, AckRaises, CanTakeDelivery;
    ConsumerMoves(c.workers[a.w], a.p, "", 0, RfqRegistered("", "", 0, "", ""), SP.Waiting);
  }

  lemma StageFollows(c: Cluster, a: Action)
    requires a.SaveDurable? || a.FinishHandler? || a.CommitOffset?
    requires Enabled(c, a)
    ensures a.w in Apply(c, a).workers && CoreOf(Apply(c, a).workers[a.w]) == CoreOf(c.workers[a.w])
  {
    hide CoreOf, StageReached, SavedAt, OffsetInHand, Register;
    forall stage ensures CoreOf(StageReached(c.workers[a.w], a.p, stage)) == CoreOf(c.workers[a.w]) {
      ConsumerMoves(c.workers[a.w], a.p, "", 0, RfqRegistered("", "", 0, "", ""), stage);
    }
  }

  lemma StepFollowsHandshake(c: Cluster, a: Action, w: WorkerId)
    requires Inv(c) && Enabled(c, a) && w in c.workers && !Restarts(a, w)
    ensures w in Apply(c, a).workers
    ensures var core, core' := CoreOf(c.workers[w]), CoreOf(Apply(c, a).workers[w]);
            match HandshakeStep(a, w)
            case None => core' == core
            case Some(x) => HR.Possible(core, x) && (x.Complete? ==> !HR.Raises(core)) && core' == HR.Next(core, x)
  {
    hide Inv, Enabled, Apply, CoreOf, HR.Next, HR.Possible, HR.Raises, Raises, GoodStep;
    assert !Raises(c, a) by { NeverRaises(c, a); }
    if a.Produce? || a.w != w {
      OthersStay(c, a, w);
    } else {
      match a
      case CallAssigned(_, _) => CallFollows(c, a);
      case CallRevoked(_, _) => CallFollows(c, a);
      case ReturnCallback(_) => RuntimeFollows(c, a);
      case TakeChange(_) => RuntimeFollows(c, a);
      case CompleteChange(_) => RuntimeFollows(c, a);
      case ReadSnapshot(_) => QuietFollows(c, a);
      case FillRegistry(_) => QuietFollows(c, a);
      case EndTask(_) => QuietFollows(c, a);
      case ReleaseShard(_) => QuietFollows(c, a);
      case StartWorker(_) =>
      case CrashWorker(_) =>
      case Deliver(_, _, _, _) => DeliverFollows(c, a);
      case SaveDurable(_, _) => StageFollows(c, a);
      case FinishHandler(_, _) => StageFollows(c, a);
      case CommitOffset(_, _) => StageFollows(c, a);
      case _ => TakenFollows(c, a);
    }
  }

  lemma NeverRaises(c: Cluster, a: Action)
    requires Inv(c) && Enabled(c, a)
    ensures !Raises(c, a)
  {
    hide Inv, Enabled, Raises;
    StepGood(c, a);
  }

  /** The changes that a step publishes to the runtime of `w`. */
  function AnnouncedBy(a: Action, w: WorkerId): seq<Change> {
    match HandshakeStep(a, w)
    case Some(Call(changes)) => changes
    case _ => []
  }

  /** The change that a step completes at `w`. */
  function CompletedBy(c: Cluster, a: Action, w: WorkerId): seq<Change>
    requires Enabled(c, a)
  {
    if a == CompleteChange(w) then [c.workers[w].phase.change] else []
  }

  function AllAnnounced(actions: seq<Action>, w: WorkerId): seq<Change> {
    if actions == [] then [] else AnnouncedBy(actions[0], w) + AllAnnounced(actions[1..], w)
  }

  function AllCompleted(c: Cluster, actions: seq<Action>, w: WorkerId): seq<Change>
    requires IsRun(c, actions)
    decreases |actions|
  {
    if actions == [] then [] else CompletedBy(c, actions[0], w) + AllCompleted(Apply(c, actions[0]), actions[1..], w)
  }

  lemma OpenMoves(core: HR.Core, x: HR.Action)
    requires HR.Possible(core, x) && (x.Complete? ==> !HR.Raises(core))
    ensures HR.Open(core) + (if x.Call? then x.changes else [])
            == (if x.Complete? then [core.current.value] else []) + HR.Open(HR.Next(core, x))
  {
    hide Ids, AllDone, HR.IsCancelled;
  }

  lemma StepConservesChanges(c: Cluster, a: Action, w: WorkerId)
    requires Inv(c) && Enabled(c, a) && w in c.workers && !Restarts(a, w)
    ensures w in Apply(c, a).workers
    ensures Open(c.workers[w]) + AnnouncedBy(a, w) == CompletedBy(c, a, w) + Open(Apply(c, a).workers[w])
  {
    hide Inv, Apply, Enabled, CoreOf, Open, HR.Open, HR.Next, HR.Possible, HR.Raises;
    StepFollowsHandshake(c, a, w);
    if a == CompleteChange(w) {
      CompletedIsCurrent(c, a, w);
    }
    if HandshakeStep(a, w).Some? {
      OpenMoves(CoreOf(c.workers[w]), HandshakeStep(a, w).value);
    }
    SameOpen(c.workers[w]);
    SameOpen(Apply(c, a).workers[w]);
  }

  lemma CompletedIsCurrent(c: Cluster, a: Action, w: WorkerId)
    requires Enabled(c, a) && a == CompleteChange(w)
    ensures w in c.workers && CoreOf(c.workers[w]).current == Some(c.workers[w].phase.change)
  {
  }

  lemma SameOpen(wk: Worker)
    ensures HR.Open(CoreOf(wk)) == Open(wk)
  {
  }

  lemma Joined<T>(a: seq<T>, b: seq<T>, c: seq<T>, d: seq<T>, e: seq<T>, f: seq<T>, g: seq<T>)
    requires a + b == c + d && d + e == f + g
    ensures a + (b + e) == (c + f) + g
  {
    assert a + (b + e) == (a + b) + e == c + (d + e) == (c + f) + g;
  }

  lemma {:induction false} RunConservesChanges(c: Cluster, actions: seq<Action>, w: WorkerId)
    requires Inv(c) && IsRun(c, actions) && w in c.workers
    requires forall a :: a in actions ==> !Restarts(a, w)
    ensures w in Final(c, actions).workers
    ensures Open(c.workers[w]) + AllAnnounced(actions, w)
            == AllCompleted(c, actions, w) + Open(Final(c, actions).workers[w])
    decreases |actions|
  {
    if actions != [] {
      var a, next := actions[0], Apply(c, actions[0]);
      assert a in actions;
      StepConservesChanges(c, a, w);
      StepKeepsInv(c, a);
      hide Inv, Enabled, Apply, Restarts, Open, AnnouncedBy, CompletedBy;
      RunConservesChanges(next, actions[1..], w);
      Joined(Open(c.workers[w]), AnnouncedBy(a, w), CompletedBy(c, a, w), Open(next.workers[w]),
             AllAnnounced(actions[1..], w), AllCompleted(next, actions[1..], w), Open(Final(c, actions).workers[w]));
    } else {
      hide Open;
      assert [] + Open(c.workers[w]) == Open(c.workers[w]) + [];
    }
  }

  /** Over any stretch of any run in which a worker is not restarted: what was open before it and what was
      announced during it is, in this order, what was completed during it and what is still open. So each
      change is completed once for every time it was announced, and in the order of the announcements. */
  lemma ChangesCompletedInOrderOnce(c: Cluster, before: seq<Action>, actions: seq<Action>, w: WorkerId, x: Change)
    requires Init(c) && IsRun(c, before) && w in Final(c, before).workers && IsRun(Final(c, before), actions)
    requires forall a :: a in actions ==> !Restarts(a, w)
    ensures var s := Final(c, before);
            && w in Final(s, actions).workers
            && var open, open' := Open(s.workers[w]), Open(Final(s, actions).workers[w]);
               && open + AllAnnounced(actions, w) == AllCompleted(s, actions, w) + open'
               && Count(open, x) + Count(AllAnnounced(actions, w), x) ==
                   Count(AllCompleted(s, actions, w), x) + Count(open', x)
  {
    hide Inv, Init;
    Reached(c, before);
    var s := Final(c, before);
    RunConservesChanges(s, actions, w);
    hide IsRun, Final, Open, AllAnnounced, AllCompleted, Count;
    CountAppend(Open(s.workers[w]), AllAnnounced(actions, w), x);
    CountAppend(AllCompleted(s, actions, w), Open(Final(s, actions).workers[w]), x);
  }

  // ----- Whole runs -----

  /** What a run of the cluster is for the handshake of `w`. */
  function HandshakeRun(actions: seq<Action>, w: WorkerId): seq<HR.Action> {
    if actions == [] then []
    else
      (match HandshakeStep(actions[0], w) case None => [] case Some(x) => [x]) + HandshakeRun(actions[1..], w)
  }

  lemma HandshakeRunStep(sys: HR.System, m: Option<HR.Action>, sys': HR.System, rest: seq<HR.Action>)
    requires match m case None => sys' == sys case Some(x) => HR.Enabled(sys, x) && sys' == HR.Apply(sys, x)
    requires HR.IsRun(sys', rest)
    ensures var all := (match m case None => [] case Some(x) => [x]) + rest;
            HR.IsRun(sys, all) && HR.Final(sys, all) == HR.Final(sys', rest)
  {
    hide HR.Enabled, HR.Apply;
    if m.Some? {
      assert ([m.value] + rest)[1..] == rest;
    } else {
      assert [] + rest == rest;
    }
  }

  lemma FreshChanges(published: seq<Change>, changes: seq<Change>, rest: seq<Change>)
    requires HR.DistinctIds(published + (changes + rest))
    ensures HR.DistinctIds(changes) && Ids(changes) !! Ids(published) && HR.DistinctIds((published + changes) + rest)
  {
    var all, n := published + (changes + rest), |published|;
    assert (published + changes) + rest == all;
    forall i, j | 0 <= i < j < |changes| ensures changes[i].id != changes[j].id {
      assert all[n + i] == changes[i] && all[n + j] == changes[j];
    }
    forall x, y | x in published && y in changes ensures x.id != y.id {
      var i :| 0 <= i < |published| && published[i] == x;
      var j :| 0 <= j < |changes| && changes[j] == y;
      assert all[i] == x && all[n + j] == y;
    }
  }

  // One step of the cluster as one of the handshake, with new transition ids.
  lemma StepIsEnabled(c: Cluster, a: Action, w: WorkerId, sys: HR.System, rest: seq<Change>) returns (sys': HR.System)
    requires Inv(c) && Enabled(c, a) && w in c.workers && !Restarts(a, w)
    requires sys.core == CoreOf(c.workers[w]) && !sys.failed
    requires HR.DistinctIds(sys.published + (AnnouncedBy(a, w) + rest))
    ensures match HandshakeStep(a, w)
            case None => sys' == sys
            case Some(x) => HR.Enabled(sys, x) && sys' == HR.Apply(sys, x)
    ensures w in Apply(c, a).workers && sys'.core == CoreOf(Apply(c, a).workers[w]) && !sys'.failed
    ensures HR.DistinctIds(sys'.published + rest)
  {
    hide Inv, Enabled, Apply, CoreOf, HR.Next, HR.Possible, HR.Raises, HR.DistinctIds, HR.Open, Ids;
    StepFollowsHandshake(c, a, w);
    FreshChanges(sys.published, AnnouncedBy(a, w), rest);
    match HandshakeStep(a, w)
    case None =>
      sys' := sys;
      assert (sys.published + []) + rest == sys.published + rest;
    case Some(x) =>
      sys' := HR.Apply(sys, x);
      assert !x.Call? ==> (sys.published + []) + rest == sys.published + rest;
  }

  lemma {:induction false} RunFollowsHandshake(c: Cluster, actions: seq<Action>, w: WorkerId, sys: HR.System)
    requires Inv(c) && IsRun(c, actions) && w in c.workers
    requires forall a :: a in actions ==> !Restarts(a, w)
    requires sys.core == CoreOf(c.workers[w]) && !sys.failed
    requires HR.DistinctIds(sys.published + AllAnnounced(actions, w))
    ensures w in Final(c, actions).workers
    ensures var run := HandshakeRun(actions, w);
            HR.IsRun(sys, run) && HR.Final(sys, run).core == CoreOf(Final(c, actions).workers[w])
    decreases |actions|
  {
    if actions != [] {
      var a, next := actions[0], Apply(c, actions[0]);
      assert a in actions;
      hide Inv, Enabled, Apply, Restarts, CoreOf, AnnouncedBy, HR.DistinctIds, HR.Enabled, HR.Apply, HR.IsRun, HR.Final;
      var sys' := StepIsEnabled(c, a, w, sys, AllAnnounced(actions[1..], w));
      StepKeepsInv(c, a);
      RunFollowsHandshake(next, actions[1..], w, sys');
      HandshakeRunStep(sys, HandshakeStep(a, w), sys', HandshakeRun(actions[1..], w));
    }
  }

  /** Every run of the cluster is, for a worker from its start on, a run of the handshake, provided that the
      transition ids announced to it are new; so the theorems on the runs of the handshake are about it. */
  lemma ClusterRefinesHandshake(c: Cluster, before: seq<Action>, actions: seq<Action>, w: WorkerId)
    requires Init(c) && IsRun(c, before) && IsRun(Final(c, before), actions)
    requires w in Final(c, before).workers && Final(c, before).workers[w] == NEW_WORKER
    requires forall a :: a in actions ==> !Restarts(a, w)
    requires HR.DistinctIds(AllAnnounced(actions, w))
    ensures var f, run := Final(Final(c, before), actions), HandshakeRun(actions, w);
            && w in f.workers
            && HR.IsRun(HR.START, run) && HR.Final(HR.START, run).core == CoreOf(f.workers[w])
  {
    hide Inv, Init;
    Reached(c, before);
    assert CoreOf(NEW_WORKER) == HR.START.core;
    assert [] + AllAnnounced(actions, w) == AllAnnounced(actions, w);
    RunFollowsHandshake(Final(c, before), actions, w, HR.START);
  }
}
