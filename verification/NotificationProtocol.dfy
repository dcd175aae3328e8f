/** Any number of notification workers over one table, with redelivery, rebalances and crashes. */
module NotificationProtocol {
  import opened Common
  import opened Wrappers
  import opened Sequences
  import opened Notifications

  /** Where a worker stands with the event in hand. */
  datatype Stage = Looking | Missing | Saved | Handled

  datatype Task = Reading | InHand(partition: nat, offset: nat, event: RfqRegistered, stage: Stage)

  /** `positions` are the partitions the worker reads, with the next offset of each. */
  datatype Worker = Worker(positions: map<nat, nat>, task: Task)

  const NEW_WORKER: Worker := Worker(map[], Reading)

  /** `log` has None for a message that cannot be deserialized; `start` is the first committed offset. */
  datatype Partition = Partition(log: seq<Option<RfqRegistered>>, committed: nat, start: nat)

  /** `published` is what the realtime channel has received. History, read by no step: `dropped` are the
      notifications stored whose publication never happened. */
  datatype System = System(
    partitions: map<nat, Partition>, rows: seq<Notification>, workers: seq<Worker>,
    published: seq<Source>, dropped: seq<Source>)

  datatype Action =
    | Produce(p: nat, entry: Option<RfqRegistered>)
    | Assign(w: nat, p: nat)
    | Unassign(w: nat, p: nat)
    | Receive(w: nat, p: nat)
    | Find(w: nat)
    | Insert(w: nat, id: NotificationId)
    | Publish(w: nat, outcome: Outcome)
    | Ack(w: nat)
    | Crash(w: nat)

  predicate At(sys: System, w: nat, stage: Stage) {
    w < |sys.workers| && sys.workers[w].task.InHand? && sys.workers[w].task.stage == stage
  }

  predicate Enabled(sys: System, a: Action) {
    match a
    case Produce(p, _) => p in sys.partitions
    case Assign(w, p) => w < |sys.workers| && p in sys.partitions
    case Unassign(w, p) => w < |sys.workers|
    case Receive(w, p) =>
      && w < |sys.workers| && sys.workers[w].task.Reading?
      && p in sys.partitions && p in sys.workers[w].positions
      && sys.workers[w].positions[p] < |sys.partitions[p].log|
      && sys.partitions[p].log[sys.workers[w].positions[p]].Some?
    case Find(w) => At(sys, w, Looking)
    case Insert(w, _) => At(sys, w, Missing)
    case Publish(w, _) => At(sys, w, Saved)
    case Ack(w) => At(sys, w, Handled) && sys.workers[w].task.partition in sys.partitions
    case Crash(w) => w < |sys.workers|
  }

  function SetWorker(sys: System, w: nat, wk: Worker): System
    requires w < |sys.workers|
  {
    sys.(workers := sys.workers[w := wk])
  }

  function WithStage(wk: Worker, stage: Stage): Worker
    requires wk.task.InHand?
  {
    wk.(task := wk.task.(stage := stage))
  }

  /** The notification that a worker has stored and not yet tried to publish. */
  function InFlight(wk: Worker): seq<Source> {
    if wk.task.InHand? && wk.task.stage.Saved? then [EventSource(wk.task.event)] else []
  }

  // A failed worker starts over, without its partitions.
  function Crashed(sys: System, w: nat): System
    requires w < |sys.workers|
  {
    SetWorker(sys, w, NEW_WORKER).(dropped := sys.dropped + InFlight(sys.workers[w]))
  }

  function Apply(sys: System, a: Action): System
    requires Enabled(sys, a)
  {
    match a
    case Produce(p, entry) =>
      sys.(partitions := sys.partitions[p := sys.partitions[p].(log := sys.partitions[p].log + [entry])])
    case Assign(w, p) =>
      var wk := sys.workers[w];
      SetWorker(sys, w, wk.(positions := wk.positions[p := sys.partitions[p].committed]))
    case Unassign(w, p) =>
      var wk := sys.workers[w];
      SetWorker(sys, w, wk.(positions := wk.positions - {p}))
    case Receive(w, p) =>
      var wk := sys.workers[w];
      var o := wk.positions[p];
      SetWorker(sys, w, Worker(wk.positions[p := o + 1], InHand(p, o, sys.partitions[p].log[o].value, Looking)))
    case Find(w) =>
      var wk := sys.workers[w];
      SetWorker(sys, w, WithStage(wk, if EventSource(wk.task.event) in Sources(sys.rows) then Handled else Missing))
    case Insert(w, id) =>
      var wk := sys.workers[w];
      if EventSource(wk.task.event) in Sources(sys.rows) then Crashed(sys, w)
      else SetWorker(sys, w, WithStage(wk, Saved)).(rows := sys.rows + [NotificationFor(wk.task.event, id)])
    case Publish(w, outcome) =>
      var wk := sys.workers[w];
      var source := EventSource(wk.task.event);
      (match outcome
       case Delivered => SetWorker(sys, w, WithStage(wk, Handled)).(published := sys.published + [source])
       case RaisedAfterDelivery => SetWorker(sys, w, NEW_WORKER).(published := sys.published + [source])
       case RaisedBeforeDelivery => Crashed(sys, w))
    case Ack(w) =>
      var wk := sys.workers[w];
      var p := wk.task.partition;
      SetWorker(sys, w, wk.(task := Reading))
        .(partitions := sys.partitions[p := sys.partitions[p].(committed := wk.task.offset + 1)])
    case Crash(w) => Crashed(sys, w)
  }

  predicate Init(sys: System) {
    && sys.rows == [] && sys.published == [] && sys.dropped == []
    && (forall p :: p in sys.partitions ==>
          sys.partitions[p].start == sys.partitions[p].committed <= |sys.partitions[p].log|)
    && (forall w :: 0 <= w < |sys.workers| ==> sys.workers[w] == NEW_WORKER)
  }

  predicate IsRun(sys: System, actions: seq<Action>)
    decreases |actions|
  {
    actions == [] || (Enabled(sys, actions[0]) && IsRun(Apply(sys, actions[0]), actions[1..]))
  }

  function Final(sys: System, actions: seq<Action>): System
    requires IsRun(sys, actions)
    decreases |actions|
  {
    if actions == [] then sys else Final(Apply(sys, actions[0]), actions[1..])
  }

  // ----- At most one row, at most one publication -----

  function InFlightCount(workers: seq<Worker>, s: Source): nat {
    if workers == [] then 0
    else InFlightCount(workers[..|workers| - 1], s) + Count(InFlight(workers[|workers| - 1]), s)
  }

  lemma {:induction false} OneWorkerChanges(workers: seq<Worker>, w: nat, wk: Worker, s: Source)
    requires w < |workers|
    ensures InFlightCount(workers[w := wk], s) + Count(InFlight(workers[w]), s)
            == InFlightCount(workers, s) + Count(InFlight(wk), s)
  {
    hide InFlight, Count;
    var n := |workers| - 1;
    if w == n {
      assert workers[w := wk][..n] == workers[..n];
    } else {
      OneWorkerChanges(workers[..n], w, wk, s);
      assert workers[w := wk][..n] == workers[..n][w := wk];
    }
  }

  lemma {:induction false} NobodySaved(workers: seq<Worker>, s: Source)
    requires forall w :: 0 <= w < |workers| ==> workers[w] == NEW_WORKER
    ensures InFlightCount(workers, s) == 0
  {
    if workers != [] {
      NobodySaved(workers[..|workers| - 1], s);
    }
  }

  /** A stored notification has been published, is about to be by the worker that stored it, or was
      dropped with that worker. */
  predicate Conserved(sys: System, s: Source) {
    Count(Sources(sys.rows), s) == Count(sys.published, s) + InFlightCount(sys.workers, s) + Count(sys.dropped, s)
  }

  lemma StepConserves(sys: System, a: Action, s: Source)
    requires Conserved(sys, s) && Enabled(sys, a)
    ensures Conserved(Apply(sys, a), s)
  {
    hide Count, InFlightCount, Sources;
    var sys' := Apply(sys, a);
    if !a.Produce? {
      var wk, wk' := sys.workers[a.w], sys'.workers[a.w];
      OneWorkerChanges(sys.workers, a.w, wk', s);
      CountAppend(sys.dropped, InFlight(wk), s);
      if wk.task.InHand? {
        CountAppend(sys.published, [EventSource(wk.task.event)], s);
        if a.Insert? {
          SourcesAppend(sys.rows, NotificationFor(wk.task.event, a.id));
          CountAppend(Sources(sys.rows), [EventSource(wk.task.event)], s);
        }
      }
    }
    CountNone(s);
  }

  lemma SourcesAppend(rows: seq<Notification>, n: Notification)
    ensures Sources(rows + [n]) == Sources(rows) + [SourceOf(n)]
  {
  }

  lemma CountNone(s: Source)
    ensures Count([], s) == 0
  {
  }

  // ----- Acknowledged events -----

  predicate Rowed(sys: System, p: nat, hi: nat)
    requires p in sys.partitions
  {
    && hi <= |sys.partitions[p].log|
    && forall o :: sys.partitions[p].start <= o < hi ==>
         sys.partitions[p].log[o].Some? && EventSource(sys.partitions[p].log[o].value) in Sources(sys.rows)
  }

  predicate TaskInv(sys: System, task: Task) {
    task.InHand? ==>
      && task.partition in sys.partitions
      && task.offset < |sys.partitions[task.partition].log|
      && sys.partitions[task.partition].log[task.offset] == Some(task.event)
      && Rowed(sys, task.partition, task.offset)
      && (task.stage.Saved? || task.stage.Handled? ==> EventSource(task.event) in Sources(sys.rows))
  }

  /** Behind a worker's position everything has its row, but for the event in hand. */
  predicate WorkerInv(sys: System, wk: Worker) {
    && TaskInv(sys, wk.task)
    && forall p :: p in wk.positions ==>
         && p in sys.partitions
         && (|| Rowed(sys, p, wk.positions[p])
             || (wk.task.InHand? && wk.task.partition == p && wk.positions[p] == wk.task.offset + 1))
  }

  predicate Inv(sys: System) {
    && Distinct(Sources(sys.rows))
    && (forall p :: p in sys.partitions ==> Rowed(sys, p, sys.partitions[p].committed))
    && (forall w :: 0 <= w < |sys.workers| ==> WorkerInv(sys, sys.workers[w]))
  }

  /** Rows and logs only grow. */
  predicate Grows(sys: System, sys': System) {
    && sys.rows <= sys'.rows && sys'.partitions.Keys == sys.partitions.Keys
    && forall p :: p in sys.partitions ==>
         sys.partitions[p].log <= sys'.partitions[p].log && sys'.partitions[p].start == sys.partitions[p].start
  }

  lemma SourcesGrow(rows: seq<Notification>, rows': seq<Notification>, s: Source)
    requires rows <= rows' && s in Sources(rows)
    ensures s in Sources(rows')
  {
    var i :| 0 <= i < |rows| && Sources(rows)[i] == s;
    assert Sources(rows')[i] == s;
  }

  lemma RowedStays(sys: System, sys': System, p: nat, hi: nat)
    requires Grows(sys, sys') && p in sys.partitions && Rowed(sys, p, hi)
    ensures Rowed(sys', p, hi)
  {
    hide Sources;
    forall o | sys.partitions[p].start <= o < hi
      ensures sys'.partitions[p].log[o].Some? && EventSource(sys'.partitions[p].log[o].value) in Sources(sys'.rows)
    {
      assert sys'.partitions[p].log[o] == sys.partitions[p].log[o];
      SourcesGrow(sys.rows, sys'.rows, EventSource(sys.partitions[p].log[o].value));
    }
  }

  lemma WorkerStays(sys: System, sys': System, wk: Worker)
    requires Grows(sys, sys') && WorkerInv(sys, wk)
    ensures WorkerInv(sys', wk)
  {
    hide Rowed, Sources;
    forall p | p in wk.positions && Rowed(sys, p, wk.positions[p]) ensures Rowed(sys', p, wk.positions[p]) {
      RowedStays(sys, sys', p, wk.positions[p]);
    }
    if wk.task.InHand? {
      RowedStays(sys, sys', wk.task.partition, wk.task.offset);
      if EventSource(wk.task.event) in Sources(sys.rows) {
        SourcesGrow(sys.rows, sys'.rows, EventSource(wk.task.event));
      }
    }
  }

  lemma StepGrows(sys: System, a: Action)
    requires Enabled(sys, a)
    ensures Grows(sys, Apply(sys, a))
  {
  }

  /** Finishing the event in hand extends what is behind the position. */
  lemma RowedOneMore(sys: System, task: Task)
    requires TaskInv(sys, task) && task.InHand? && EventSource(task.event) in Sources(sys.rows)
    ensures Rowed(sys, task.partition, task.offset + 1)
  {
  }

  lemma ActorStays(sys: System, a: Action)
    requires Inv(sys) && Enabled(sys, a) && !a.Produce?
    ensures WorkerInv(Apply(sys, a), Apply(sys, a).workers[a.w])
  {
    hide Rowed, Sources, Distinct;
    var sys', wk := Apply(sys, a), sys.workers[a.w];
    StepGrows(sys, a);
    assert WorkerInv(sys, wk);
    WorkerStays(sys, sys', wk);
    hide Grows;
    if a.Assign? {
      RowedStays(sys, sys', a.p, sys.partitions[a.p].committed);
    } else if a.Ack? {
      RowedOneMore(sys, wk.task);
      RowedStays(sys, sys', wk.task.partition, wk.task.offset + 1);
    } else if a.Insert? {
      SourcesAppend(sys.rows, NotificationFor(wk.task.event, a.id));
      assert EventSource(wk.task.event) == SourceOf(NotificationFor(wk.task.event, a.id));
    }
  }

  lemma RowsStayDistinct(sys: System, a: Action)
    requires Distinct(Sources(sys.rows)) && Enabled(sys, a)
    ensures Distinct(Sources(Apply(sys, a).rows))
  {
    if a.Insert? {
      SourcesAppend(sys.rows, NotificationFor(sys.workers[a.w].task.event, a.id));
    }
  }

  lemma CommittedStaysRowed(sys: System, a: Action, p: nat)
    requires Inv(sys) && Enabled(sys, a) && p in sys.partitions
    ensures p in Apply(sys, a).partitions && Rowed(Apply(sys, a), p, Apply(sys, a).partitions[p].committed)
  {
    hide Rowed;
    var sys' := Apply(sys, a);
    StepGrows(sys, a);
    if a.Ack? && sys.workers[a.w].task.partition == p {
      assert WorkerInv(sys, sys.workers[a.w]);
      RowedOneMore(sys, sys.workers[a.w].task);
      RowedStays(sys, sys', p, sys.workers[a.w].task.offset + 1);
    } else {
      RowedStays(sys, sys', p, sys.partitions[p].committed);
    }
  }

  lemma StepKeepsInv(sys: System, a: Action)
    requires Inv(sys) && Enabled(sys, a)
    ensures Inv(Apply(sys, a))
  {
    hide Rowed, WorkerInv, Sources;
    var sys' := Apply(sys, a);
    RowsStayDistinct(sys, a);
    StepGrows(sys, a);
    forall p | p in sys'.partitions ensures Rowed(sys', p, sys'.partitions[p].committed) {
      CommittedStaysRowed(sys, a, p);
    }
    forall w | 0 <= w < |sys'.workers| ensures WorkerInv(sys', sys'.workers[w]) {
      if !a.Produce? && a.w == w {
        ActorStays(sys, a);
      } else {
        WorkerStays(sys, sys', sys.workers[w]);
      }
    }
  }

  lemma {:induction false} RunKeepsInv(sys: System, actions: seq<Action>, s: Source)
    requires Inv(sys) && Conserved(sys, s) && IsRun(sys, actions)
    ensures Inv(Final(sys, actions)) && Conserved(Final(sys, actions), s)
    decreases |actions|
  {
    hide Inv, Conserved, Apply, Enabled;
    if actions != [] {
      StepKeepsInv(sys, actions[0]);
      StepConserves(sys, actions[0], s);
      RunKeepsInv(Apply(sys, actions[0]), actions[1..], s);
    }
  }

  lemma Start(sys: System, s: Source)
    requires Init(sys)
    ensures Inv(sys) && Conserved(sys, s)
  {
    NobodySaved(sys.workers, s);
  }

  /** In every run there is at most one row and at most one publication per event and recipient; what was
      stored has been published exactly once unless the worker that stored it failed before publishing,
      or has yet to publish. */
  lemma NotifiedAtMostOnce(sys: System, actions: seq<Action>, s: Source)
    requires Init(sys) && IsRun(sys, actions)
    ensures var f := Final(sys, actions);
            && Count(f.published, s) <= Count(Sources(f.rows), s) <= 1
            && (InFlightCount(f.workers, s) == 0 && s in Sources(f.rows) ==> (s in f.published <==> s !in f.dropped))
            && forall i, j :: 0 <= i < j < |f.rows| ==>
                 f.rows[i].sourceEventId != f.rows[j].sourceEventId || f.rows[i].recipient != f.rows[j].recipient
  {
    Start(sys, s);
    RunKeepsInv(sys, actions, s);
    var f := Final(sys, actions);
    forall i, j | 0 <= i < j < |f.rows|
      ensures f.rows[i].sourceEventId != f.rows[j].sourceEventId || f.rows[i].recipient != f.rows[j].recipient
    {
      assert Sources(f.rows)[i] != Sources(f.rows)[j];
    }
    CountDistinct(Sources(f.rows), s);
    CountPositive(f.published, s);
    CountPositive(f.dropped, s);
    hide Count, InFlightCount, Sources;
  }

  /** Every acknowledged event could be read and has its row. */
  lemma AckedEventsHaveRows(sys: System, actions: seq<Action>, p: nat, o: nat)
    requires Init(sys) && IsRun(sys, actions) && p in Final(sys, actions).partitions
    requires var part := Final(sys, actions).partitions[p]; part.start <= o < part.committed
    ensures var f := Final(sys, actions);
            && o < |f.partitions[p].log| && f.partitions[p].log[o].Some?
            && var event := f.partitions[p].log[o].value;
               HasRow(f.rows, event.eventId, event.assignedTrader)
  {
    var s := Source("", "");
    Start(sys, s);
    RunKeepsInv(sys, actions, s);
    var f := Final(sys, actions);
    assert Rowed(f, p, f.partitions[p].committed);
    HasRowMeans(f.rows, f.partitions[p].log[o].value);
    hide HasRow;
  }

  /** Some partition's log has an event that this notification is of. */
  predicate IsOfEvent(sys: System, n: Notification) {
    exists p, o ::
      && p in sys.partitions && 0 <= o < |sys.partitions[p].log| && sys.partitions[p].log[o].Some?
      && var event := sys.partitions[p].log[o].value;
         n.sourceEventId == event.eventId && n.recipient == event.assignedTrader && n.resourceId == event.rfqId
  }

  lemma StillOfEvent(sys: System, sys': System, n: Notification)
    requires Grows(sys, sys') && IsOfEvent(sys, n)
    ensures IsOfEvent(sys', n)
  {
    var p, o :| p in sys.partitions && 0 <= o < |sys.partitions[p].log| && sys.partitions[p].log[o].Some?
      && var event := sys.partitions[p].log[o].value;
         n.sourceEventId == event.eventId && n.recipient == event.assignedTrader && n.resourceId == event.rfqId;
    assert sys'.partitions[p].log[o] == sys.partitions[p].log[o];
  }

  lemma InsertIsOfEvent(sys: System, w: nat, id: NotificationId)
    requires Inv(sys) && Enabled(sys, Insert(w, id))
    ensures IsOfEvent(sys, NotificationFor(sys.workers[w].task.event, id))
  {
    var task := sys.workers[w].task;
    assert WorkerInv(sys, sys.workers[w]);
    assert sys.partitions[task.partition].log[task.offset].Some?;
  }

  lemma {:induction false} RowsStayOfEvents(sys: System, actions: seq<Action>)
    requires Inv(sys) && IsRun(sys, actions) && forall n :: n in sys.rows ==> IsOfEvent(sys, n)
    ensures forall n :: n in Final(sys, actions).rows ==> IsOfEvent(Final(sys, actions), n)
    decreases |actions|
  {
    if actions != [] {
      var a, sys' := actions[0], Apply(sys, actions[0]);
      hide Inv, IsOfEvent;
      StepGrows(sys, a);
      StepKeepsInv(sys, a);
      forall n | n in sys'.rows ensures IsOfEvent(sys', n) {
        if n !in sys.rows {
          InsertIsOfEvent(sys, a.w, a.id);
        }
        StillOfEvent(sys, sys', n);
      }
      hide Apply, Enabled, Grows;
      RowsStayOfEvents(sys', actions[1..]);
    }
  }

  /** In every run, each stored notification is of an event of some log, addressed to its trader and pointing
      to its request. */
  lemma RowsAreOfEvents(sys: System, actions: seq<Action>)
    requires Init(sys) && IsRun(sys, actions)
    ensures forall n :: n in Final(sys, actions).rows ==> IsOfEvent(Final(sys, actions), n)
  {
    Start(sys, Source("", ""));
    RowsStayOfEvents(sys, actions);
  }

  lemma {:induction false} DroppedGrows(sys: System, actions: seq<Action>)
    requires IsRun(sys, actions)
    ensures sys.dropped <= Final(sys, actions).dropped
    decreases |actions|
  {
    if actions != [] {
      assert sys.dropped <= Apply(sys, actions[0]).dropped;
      DroppedGrows(Apply(sys, actions[0]), actions[1..]);
    }
  }

  /** The price of the at-most-once: a worker that fails between storing a notification and publishing it
      loses the publication for good, however the run goes on. */
  lemma CrashBeforePublishLoses(sys: System, w: nat, actions: seq<Action>)
    requires At(sys, w, Saved) && IsRun(Apply(sys, Crash(w)), actions)
    requires Inv(sys) && Conserved(sys, EventSource(sys.workers[w].task.event))
    ensures var s := EventSource(sys.workers[w].task.event);
            var f := Final(Apply(sys, Crash(w)), actions);
            s in Sources(sys.rows) && s !in f.published
  {
    var s, sys' := EventSource(sys.workers[w].task.event), Apply(sys, Crash(w));
    assert WorkerInv(sys, sys.workers[w]);
    StepKeepsInv(sys, Crash(w));
    StepConserves(sys, Crash(w), s);
    RunKeepsInv(sys', actions, s);
    DroppedGrows(sys', actions);
    var f := Final(sys', actions);
    assert sys'.dropped[|sys.dropped|] == s && f.dropped[|sys.dropped|] == s;
    CountDistinct(Sources(f.rows), s);
    CountPositive(f.published, s);
    CountPositive(f.dropped, s);
    hide Count, InFlightCount, Sources;
  }

  // ----- A call of the use case is a run -----

  /** What a worker that has found no row does next, with the end that its call meets. */
  function AfterLooking(w: nat, id: NotificationId, fault: Fault, taken: bool): seq<Action> {
    if fault.SaveRaises? || fault == CommitRaises(false) then [Crash(w)]
    else if taken then [Insert(w, id)]
    else
      match fault
      case CommitRaises(_) => [Insert(w, id), Crash(w)]
      case PublishRaises(delivered) =>
        [Insert(w, id), Publish(w, if delivered then RaisedAfterDelivery else RaisedBeforeDelivery)]
      case _ => [Insert(w, id), Publish(w, Delivered)]
  }

  lemma OneStep(sys: System, a: Action)
    requires Enabled(sys, a)
    ensures IsRun(sys, [a]) && Final(sys, [a]) == Apply(sys, a)
  {
    hide Enabled, Apply;
    assert [a][1..] == [];
  }

  lemma TwoSteps(sys: System, a: Action, b: Action)
    requires Enabled(sys, a) && Enabled(Apply(sys, a), b)
    ensures IsRun(sys, [a, b]) && Final(sys, [a, b]) == Apply(Apply(sys, a), b)
  {
    hide Enabled, Apply;
    assert [a, b][1..] == [b];
    OneStep(Apply(sys, a), b);
  }

  lemma ReceivedIsLooking(sys: System, w: nat, p: nat)
    requires Enabled(sys, Receive(w, p))
    ensures var s, part := Apply(sys, Receive(w, p)), sys.partitions[p];
            && s == SetWorker(sys, w, s.workers[w]) && At(s, w, Looking)
            && var o := sys.workers[w].positions[p];
               && s.workers[w].positions == sys.workers[w].positions[p := o + 1]
               && s.workers[w].task.partition == p && s.workers[w].task.offset == o
               && s.workers[w].task.event == part.log[o].value
  {
  }

  lemma LookedIsHandled(sys: System, w: nat)
    requires At(sys, w, Looking) && sys.workers[w].task.partition in sys.partitions
    requires var event := sys.workers[w].task.event; HasRow(sys.rows, event.eventId, event.assignedTrader)
    ensures Enabled(sys, Find(w)) && Enabled(Apply(sys, Find(w)), Ack(w))
    ensures var s := Apply(Apply(sys, Find(w)), Ack(w));
            var p, o := sys.workers[w].task.partition, sys.workers[w].task.offset;
            && s.rows == sys.rows && s.published == sys.published && s.dropped == sys.dropped
            && s.workers == sys.workers[w := sys.workers[w].(task := Reading)]
            && s.partitions == sys.partitions[p := sys.partitions[p].(committed := o + 1)]
  {
    HasRowMeans(sys.rows, sys.workers[w].task.event);
    hide HasRow, Sources;
  }

  /** An event that comes again is looked up and committed, and nothing else happens. */
  lemma KnownEventIsRun(sys: System, w: nat, p: nat)
    requires Enabled(sys, Receive(w, p))
    requires var event := sys.partitions[p].log[sys.workers[w].positions[p]].value;
             HasRow(sys.rows, event.eventId, event.assignedTrader)
    ensures var steps := [Receive(w, p), Find(w), Ack(w)];
            var o := sys.workers[w].positions[p];
            && IsRun(sys, steps)
            && var f := Final(sys, steps);
               && f.rows == sys.rows && f.published == sys.published && f.dropped == sys.dropped
               && f.workers == sys.workers[w := Worker(sys.workers[w].positions[p := o + 1], Reading)]
               && f.partitions == sys.partitions[p := sys.partitions[p].(committed := o + 1)]
  {
    ReceivedIsLooking(sys, w, p);
    var s := Apply(sys, Receive(w, p));
    LookedIsHandled(s, w);
    hide Enabled, Apply, HasRow;
    TwoSteps(s, Find(w), Ack(w));
    assert [Receive(w, p), Find(w), Ack(w)][1..] == [Find(w), Ack(w)];
  }

  /** An event without a row, `others` being the rows that other workers commit meanwhile: the rest of the call,
      wherever it raises, is a run with the rows and publications that the use case's contract gives; and the
      worker goes on to commit exactly if nothing raised. It starts where receiving the event has led
      (`ReceivedIsLooking`). */
  lemma NewEventIsRun(sys: System, w: nat, id: NotificationId, others: seq<Notification>, fault: Fault)
    requires At(sys, w, Looking)
    requires var event := sys.workers[w].task.event; !HasRow(sys.rows, event.eventId, event.assignedTrader)
    ensures Enabled(sys, Find(w)) && Apply(sys, Find(w)).rows == sys.rows
    ensures var event, looked := sys.workers[w].task.event, Apply(sys, Find(w));
            var met := looked.(rows := sys.rows + others);
            var taken := HasRow(met.rows, event.eventId, event.assignedTrader);
            var inserted := !fault.SaveRaises? && fault != CommitRaises(false) && !taken;
            var published := inserted && (fault.NoFault? || fault == PublishRaises(true));
            var steps := AfterLooking(w, id, fault, taken);
            && IsRun(met, steps)
            && var f := Final(met, steps);
               && f.rows == sys.rows + others
                    + (if inserted then [Notification(id, event.assignedTrader, event.rfqId, event.eventId)] else [])
               && f.published ==
                    sys.published + (if published then [Source(event.eventId, event.assignedTrader)] else [])
               && |f.workers| == |sys.workers| && (At(f, w, Handled) <==> inserted && fault.NoFault?)
               && (!At(f, w, Handled) ==> f.workers[w] == NEW_WORKER)
  {
    var event := sys.workers[w].task.event;
    HasRowMeans(sys.rows, event);
    HasRowMeans(sys.rows + others, event);
    hide HasRow, Sources;
    var met := Apply(sys, Find(w)).(rows := sys.rows + others);
    var taken := HasRow(met.rows, event.eventId, event.assignedTrader);
    var steps := AfterLooking(w, id, fault, taken);
    if |steps| == 1 {
      OneStep(met, steps[0]);
      assert steps == [steps[0]];
    } else {
      assert |steps| == 2;
      TwoSteps(met, steps[0], steps[1]);
      assert steps == [steps[0], steps[1]];
    }
    hide IsRun, Final;
  }
}
