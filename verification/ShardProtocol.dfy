/** The life of one shard: its partition, its committed offset, its durable sessions, and whichever
    worker holds it at the moment.

    Every action is one step between two awaits of the code, so a crash may come anywhere between. */
module ShardProtocol {
  import opened Common
  import opened Wrappers
  import opened Sessions
  import opened Replay

  /** A delivery that has reached the holder and has not been acknowledged. */
  datatype Item = Item(offset: nat, event: RfqRegistered)

  /** Where the shard's consumer task stands: waiting for a delivery, or with one in hand that has just
      been taken, saved durably, saved in the registry, handled, or popped for its offset commit. */
  datatype Stage = Waiting | Taken | Saved | Registered | Handled | Committing(offset: nat)

  datatype Mode = Free | Quiet | Restoring(snapshot: SessionMap) | Running(stage: Stage) | Stopped

  /** `durable`, `registry` and `initial` are restricted to this shard; `flight` are the holder's
      unacknowledged deliveries in order, the one in hand first; `position` is the next offset the broker
      delivers to the holder, None once the holder has stopped listening. History, read by no step:
      `start` and `initial` are the committed offset and the durable sessions at the beginning,
      `handled` are the offsets whose handler has finished, `cursor` is the offset after the last durable
      save since the current assignment, `highWater` the largest such offset ever. */
  datatype Shard = Shard(
    log: seq<Entry>, committed: nat, durable: SessionMap,
    holder: Option<WorkerId>, mode: Mode, registry: SessionMap, flight: seq<Item>, position: Option<nat>,
    start: nat, initial: SessionMap, handled: set<nat>, cursor: nat, highWater: nat)

  datatype Action =
    | Append(entry: Entry)
    | Assign(w: WorkerId)
    | Deliver(offset: nat)
    | ReadSnapshot
    | FillRegistry
    | Take
    | SaveDurable
    | SaveRegistry
    | Finish
    | Pop
    | Commit
    | Stop
    | Release
    | Unassign
    | Crash

  predicate Gaps(log: seq<Entry>, lo: nat, hi: nat)
    requires hi <= |log|
  {
    forall o :: lo <= o < hi ==> log[o].Gap?
  }

  predicate Enabled(x: Shard, a: Action) {
    match a
    case Append(_) => true
    case Assign(_) => x.mode.Free?
    case Deliver(o) =>
      && x.position.Some? && x.position.value <= o < |x.log|
      && Gaps(x.log, x.position.value, o) && x.log[o].Message?
    case ReadSnapshot => x.mode.Quiet?
    case FillRegistry => x.mode.Restoring?
    case Take => x.mode == Running(Waiting) && x.flight != []
    case SaveDurable => x.mode == Running(Taken) && x.flight != []
    case SaveRegistry => x.mode == Running(Saved) && x.flight != []
    case Finish => x.mode == Running(Registered) && x.flight != []
    case Pop => x.mode == Running(Handled) && x.flight != []
    case Commit => x.mode.Running? && x.mode.stage.Committing?
    case Stop => x.mode.Running?
    case Release => x.mode.Stopped?
    case Unassign => x.mode.Quiet? && x.position.None? && x.flight == [] && x.registry == map[]
    case Crash => !x.mode.Free?
  }

  function Max(a: nat, b: nat): nat {
    if a < b then b else a
  }

  function Apply(x: Shard, a: Action): Shard
    requires Enabled(x, a)
  {
    match a
    case Append(entry) => x.(log := x.log + [entry])
    case Assign(w) =>
      x.(holder := Some(w), mode := Quiet, position := Some(x.committed), cursor := x.committed)
    case Deliver(o) => x.(flight := x.flight + [Item(o, x.log[o].event)], position := Some(o + 1))
    case ReadSnapshot => x.(mode := Restoring(ActiveOnly(x.durable)))
    case FillRegistry => x.(registry := x.registry + x.mode.snapshot, mode := Running(Waiting))
    case Take => x.(mode := Running(Taken))
    case SaveDurable =>
      var item := x.flight[0];
      x.(durable := Register(x.durable, item.event), mode := Running(Saved),
         cursor := item.offset + 1, highWater := Max(x.highWater, item.offset + 1))
    case SaveRegistry => x.(registry := Register(x.registry, x.flight[0].event), mode := Running(Registered))
    case Finish => x.(handled := x.handled + {x.flight[0].offset}, mode := Running(Handled))
    case Pop => x.(flight := x.flight[1..], mode := Running(Committing(x.flight[0].offset)))
    case Commit => x.(committed := x.mode.stage.offset + 1, mode := Running(Waiting))
    case Stop => x.(flight := [], position := None, mode := Stopped)
    case Release => x.(registry := map[], mode := Quiet)
    case Unassign => x.(holder := None, mode := Free)
    case Crash => x.(holder := None, mode := Free, registry := map[], flight := [], position := None)
  }

  predicate IsRun(x: Shard, actions: seq<Action>)
    decreases |actions|
  {
    actions == [] || (Enabled(x, actions[0]) && IsRun(Apply(x, actions[0]), actions[1..]))
  }

  function Final(x: Shard, actions: seq<Action>): Shard
    requires IsRun(x, actions)
    decreases |actions|
  {
    if actions == [] then x else Final(Apply(x, actions[0]), actions[1..])
  }

  // ----- The deliveries in flight are the messages of an interval of the log -----

  function Items(log: seq<Entry>, lo: nat, hi: nat): seq<Item>
    requires hi <= |log|
    decreases hi - lo
  {
    if hi <= lo then []
    else if log[lo].Message? then [Item(lo, log[lo].event)] + Items(log, lo + 1, hi)
    else Items(log, lo + 1, hi)
  }

  lemma {:induction false} ItemsOfGaps(log: seq<Entry>, lo: nat, hi: nat)
    requires hi <= |log| && Gaps(log, lo, hi)
    ensures Items(log, lo, hi) == []
    decreases hi - lo
  {
    if lo < hi {
      ItemsOfGaps(log, lo + 1, hi);
    }
  }

  lemma {:induction false} ItemsSplit(log: seq<Entry>, lo: nat, mid: nat, hi: nat)
    requires lo <= mid <= hi <= |log|
    ensures Items(log, lo, hi) == Items(log, lo, mid) + Items(log, mid, hi)
    decreases mid - lo
  {
    if lo < mid {
      ItemsSplit(log, lo + 1, mid, hi);
    }
  }

  lemma {:induction false} ItemsOfPrefix(log: seq<Entry>, more: seq<Entry>, lo: nat, hi: nat)
    requires hi <= |log|
    ensures Items(log + more, lo, hi) == Items(log, lo, hi)
    decreases hi - lo
  {
    if lo < hi {
      ItemsOfPrefix(log, more, lo + 1, hi);
    }
  }

  /** The first item stands at the first message, with nothing but gaps before it. */
  lemma {:induction false} FirstItem(log: seq<Entry>, lo: nat, hi: nat)
    requires hi <= |log| && Items(log, lo, hi) != []
    requires forall o :: lo <= o < hi ==> !log[o].Poison?
    ensures var item := Items(log, lo, hi)[0];
            && lo <= item.offset < hi && Gaps(log, lo, item.offset)
            && log[item.offset] == Message(item.event)
            && Items(log, item.offset + 1, hi) == Items(log, lo, hi)[1..]
    decreases hi - lo
  {
    if !log[lo].Message? {
      FirstItem(log, lo + 1, hi);
    }
  }

  lemma ItemsDelivered(log: seq<Entry>, lo: nat, position: nat, o: nat)
    requires lo <= position <= o < |log| && Gaps(log, position, o) && log[o].Message?
    ensures Items(log, lo, o + 1) == Items(log, lo, position) + [Item(o, log[o].event)]
  {
    ItemsSplit(log, lo, position, o + 1);
    ItemsSplit(log, position, o, o + 1);
    ItemsOfGaps(log, position, o);
    assert Items(log, o + 1, o + 1) == [];
  }

  // ----- What every step keeps -----

  /** The first offset that is neither committed nor popped for commit. */
  function Low(x: Shard): nat {
    if x.mode.Running? && x.mode.stage.Committing? then x.mode.stage.offset + 1 else x.committed
  }

  predicate HasInHand(mode: Mode) {
    mode.Running? && !mode.stage.Waiting? && !mode.stage.Committing?
  }

  /** Every message between the start and the committed offset has been handled. */
  predicate OffsetInv(x: Shard) {
    && x.start <= x.committed <= |x.log|
    && (forall o :: x.start <= o < x.committed ==> !x.log[o].Poison? && (x.log[o].Message? ==> o in x.handled))
    && (x.mode.Running? && x.mode.stage.Committing? ==>
          var o := x.mode.stage.offset;
          && x.committed <= o < |x.log| && o in x.handled && x.log[o].Message? && Gaps(x.log, x.committed, o))
  }

  /** The holder's unacknowledged deliveries are exactly the messages from there to its position. */
  predicate FlightInv(x: Shard) {
    && (x.position.Some? ==>
          && Low(x) <= x.position.value <= |x.log|
          && (forall o :: Low(x) <= o < x.position.value ==> !x.log[o].Poison?)
          && x.flight == Items(x.log, Low(x), x.position.value))
    && (x.position.None? ==> x.flight == [] && !(x.mode.Running? && x.mode.stage.Committing?))
    && (HasInHand(x.mode) ==> x.flight != [])
    && (x.mode == Running(Handled) ==> x.flight[0].offset in x.handled)
    && (x.mode.Free? <==> x.holder.None?)
    && (x.mode.Free? || x.mode.Stopped? ==> x.position.None?)
  }

  /** The registry against the durable sessions: equal but for the event in hand between its two saves,
      or for the last event saved when the consumer was stopped between the two. */
  predicate CacheInv(x: Shard) {
    match x.mode
    case Free => x.registry == map[]
    case Quiet => x.registry == map[]
    case Restoring(snapshot) => x.registry == map[] && snapshot == ActiveOnly(x.durable)
    case Running(stage) =>
      if stage.Saved? then x.flight != [] && Register(x.registry, x.flight[0].event) == ActiveOnly(x.durable)
      else x.registry == ActiveOnly(x.durable)
    case Stopped =>
      || x.registry == ActiveOnly(x.durable)
      || (0 < x.cursor <= |x.log| && x.log[x.cursor - 1].Message?
          && Register(x.registry, x.log[x.cursor - 1].event) == ActiveOnly(x.durable))
  }

  /** How far the current holder has saved: up to the event in hand. */
  predicate CursorInv(x: Shard) {
    && x.committed <= x.cursor <= x.highWater <= |x.log|
    && x.start <= x.highWater
    && (x.position.Some? ==>
          match x.mode
          case Running(Saved) => x.flight != [] && x.cursor == x.flight[0].offset + 1
          case Running(Registered) => x.flight != [] && x.cursor == x.flight[0].offset + 1
          case Running(Handled) => x.flight != [] && x.cursor == x.flight[0].offset + 1
          case Running(Committing(o)) => x.cursor == o + 1
          case _ => x.cursor == x.committed)
  }

  /** The durable sessions are what processing the log once up to the high-water mark leaves, except
      for requests that the current replay is still going to register again. */
  ghost predicate ReplayInv(x: Shard)
    requires x.start <= x.highWater <= |x.log|
  {
    forall id: RequestId :: Silent(x.log, x.cursor, x.highWater, id) ==>
      SameAt(x.durable, Process(x.initial, x.log[x.start..x.highWater]), id)
  }

  /** While the last durable save of the current holder is not committed, it is the latest word on its
      session; and a stopped consumer left a difference only by such a save. */
  predicate SavedInv(x: Shard) {
    && (!x.mode.Free? && x.committed < x.cursor ==>
          && x.cursor <= |x.log| && x.log[x.cursor - 1].Message?
          && var event := x.log[x.cursor - 1].event;
             event.rfqId in x.durable && x.durable[event.rfqId] == RegisteredSession(event))
    && (x.mode.Stopped? && x.registry != ActiveOnly(x.durable) ==> x.committed < x.cursor)
  }

  ghost predicate Inv(x: Shard) {
    OffsetInv(x) && FlightInv(x) && CacheInv(x) && CursorInv(x) && SavedInv(x) && ReplayInv(x)
  }

  predicate Init(x: Shard) {
    && x.mode.Free? && x.holder.None? && x.registry == map[] && x.flight == [] && x.position.None?
    && x.start == x.committed == x.cursor == x.highWater <= |x.log|
    && x.durable == x.initial && x.handled == {}
  }

  lemma InitInv(x: Shard)
    requires Init(x)
    ensures Inv(x)
  {
    assert x.log[x.start..x.highWater] == [];
  }

  /** The item in hand is the first message that is not committed. */
  lemma InHand(x: Shard)
    requires OffsetInv(x) && FlightInv(x) && x.position.Some? && x.flight != []
    ensures var item := x.flight[0];
            && Low(x) <= item.offset < x.position.value && Gaps(x.log, Low(x), item.offset)
            && x.log[item.offset] == Message(item.event)
            && Items(x.log, item.offset + 1, x.position.value) == x.flight[1..]
  {
    FirstItem(x.log, Low(x), x.position.value);
  }

  lemma StepKeepsOffsets(x: Shard, a: Action)
    requires OffsetInv(x) && FlightInv(x) && Enabled(x, a)
    ensures OffsetInv(Apply(x, a))
  {
    if a.Pop? {
      InHand(x);
    }
    hide FlightInv;
  }

  lemma AppendKeepsFlight(x: Shard, a: Action)
    requires OffsetInv(x) && FlightInv(x) && a.Append? && Enabled(x, a)
    ensures FlightInv(Apply(x, a))
  {
    if x.position.Some? {
      ItemsOfPrefix(x.log, [a.entry], Low(x), x.position.value);
    }
  }

  lemma DeliverKeepsFlight(x: Shard, a: Action)
    requires OffsetInv(x) && FlightInv(x) && a.Deliver? && Enabled(x, a)
    ensures FlightInv(Apply(x, a))
  {
    ItemsDelivered(x.log, Low(x), x.position.value, a.offset);
  }

  lemma PopKeepsFlight(x: Shard, a: Action)
    requires OffsetInv(x) && FlightInv(x) && a.Pop? && Enabled(x, a)
    ensures FlightInv(Apply(x, a))
  {
    InHand(x);
  }

  lemma StepKeepsFlight(x: Shard, a: Action)
    requires OffsetInv(x) && FlightInv(x) && Enabled(x, a)
    ensures FlightInv(Apply(x, a))
  {
    if a.Append? {
      AppendKeepsFlight(x, a);
    } else if a.Deliver? {
      DeliverKeepsFlight(x, a);
    } else if a.Pop? {
      PopKeepsFlight(x, a);
    }
  }

  lemma ActiveAfterRegister(m: SessionMap, event: RfqRegistered)
    ensures ActiveOnly(Register(m, event)) == Register(ActiveOnly(m), event)
  {
  }

  lemma StepKeepsCache(x: Shard, a: Action)
    requires OffsetInv(x) && FlightInv(x) && CacheInv(x) && CursorInv(x) && Enabled(x, a)
    ensures CacheInv(Apply(x, a))
  {
    if a.Stop? && x.mode == Running(Saved) && x.position.Some? {
      InHand(x);
    }
    hide Items, ActiveOnly, Register;
    if a.SaveDurable? {
      ActiveAfterRegister(x.durable, x.flight[0].event);
    } else if a.FillRegistry? {
      assert map[] + x.mode.snapshot == x.mode.snapshot;
    }
  }

  lemma StepKeepsCursor(x: Shard, a: Action)
    requires OffsetInv(x) && FlightInv(x) && CursorInv(x) && Enabled(x, a)
    ensures CursorInv(Apply(x, a))
  {
    if x.position.Some? && x.flight != [] {
      InHand(x);
    }
    hide Items;
  }

  lemma StepKeepsSaved(x: Shard, a: Action)
    requires OffsetInv(x) && FlightInv(x) && CacheInv(x) && CursorInv(x) && SavedInv(x) && Enabled(x, a)
    ensures SavedInv(Apply(x, a))
  {
    if x.position.Some? && x.flight != [] {
      InHand(x);
    }
    hide Items, ActiveOnly;
  }

  // A save at offset o, with nothing but gaps between the cursor and o.
  lemma SaveKeepsReplay(log: seq<Entry>, start: nat, cursor: nat, highWater: nat, o: nat,
                        initial: SessionMap, durable: SessionMap, id: RequestId)
    requires start <= highWater <= |log| && cursor <= highWater
    requires cursor <= o < |log| && start <= o && Gaps(log, cursor, o) && log[o].Message?
    requires Silent(log, cursor, highWater, id) ==>
      SameAt(durable, Process(initial, log[start..highWater]), id)
    requires Silent(log, o + 1, Max(highWater, o + 1), id)
    ensures SameAt(Register(durable, log[o].event), Process(initial, log[start..Max(highWater, o + 1)]), id)
  {
    var top := Max(highWater, o + 1);
    if log[o].event.rfqId == id {
      SilentTail(initial, log, start, o + 1, top, id);
      ProcessNext(initial, log, start, o);
    } else {
      assert Silent(log, cursor, highWater, id);
      assert Silent(log, highWater, top, id);
      SilentTail(initial, log, start, highWater, top, id);
    }
    hide Silent, Process;
  }

  lemma SaveDurableKeepsReplay(x: Shard)
    requires Inv(x) && Enabled(x, SaveDurable)
    ensures CursorInv(Apply(x, SaveDurable)) && ReplayInv(Apply(x, SaveDurable))
  {
    StepKeepsCursor(x, SaveDurable);
    InHand(x);
    var x', o := Apply(x, SaveDurable), x.flight[0].offset;
    hide CacheInv, FlightInv, Items;
    forall id: RequestId | Silent(x.log, x'.cursor, x'.highWater, id)
      ensures SameAt(x'.durable, Process(x.initial, x.log[x.start..x'.highWater]), id)
    {
      SaveKeepsReplay(x.log, x.start, x.cursor, x.highWater, o, x.initial, x.durable, id);
    }
  }

  lemma AssignKeepsReplay(x: Shard, a: Action)
    requires Inv(x) && a.Assign? && Enabled(x, a)
    ensures CursorInv(Apply(x, a)) && ReplayInv(Apply(x, a))
  {
    StepKeepsCursor(x, a);
    var x' := Apply(x, a);
    forall id: RequestId | Silent(x.log, x.committed, x.highWater, id)
      ensures SameAt(x.durable, Process(x.initial, x.log[x.start..x.highWater]), id)
    {
      assert Silent(x.log, x.cursor, x.highWater, id);
    }
  }

  lemma AppendKeepsReplay(x: Shard, a: Action)
    requires Inv(x) && a.Append? && Enabled(x, a)
    ensures CursorInv(Apply(x, a)) && ReplayInv(Apply(x, a))
  {
    StepKeepsCursor(x, a);
    var x' := Apply(x, a);
    assert x'.log[x.start..x.highWater] == x.log[x.start..x.highWater];
    forall id: RequestId | Silent(x'.log, x.cursor, x.highWater, id)
      ensures SameAt(x.durable, Process(x.initial, x.log[x.start..x.highWater]), id)
    {
      assert forall o :: x.cursor <= o < x.highWater ==> x'.log[o] == x.log[o];
      assert Silent(x.log, x.cursor, x.highWater, id);
    }
  }

  lemma StepKeepsReplay(x: Shard, a: Action)
    requires Inv(x) && Enabled(x, a)
    ensures CursorInv(Apply(x, a)) && ReplayInv(Apply(x, a))
  {
    if a.SaveDurable? {
      SaveDurableKeepsReplay(x);
    } else if a.Assign? {
      AssignKeepsReplay(x, a);
    } else if a.Append? {
      AppendKeepsReplay(x, a);
    } else {
      StepKeepsCursor(x, a);
      hide Silent, Process, FlightInv, CacheInv, OffsetInv;
    }
  }

  lemma StepKeepsInv(x: Shard, a: Action)
    requires Inv(x) && Enabled(x, a)
    ensures Inv(Apply(x, a))
  {
    hide OffsetInv, FlightInv, CacheInv, CursorInv, SavedInv, ReplayInv, Apply, Enabled;
    StepKeepsOffsets(x, a);
    StepKeepsFlight(x, a);
    StepKeepsCache(x, a);
    StepKeepsSaved(x, a);
    StepKeepsReplay(x, a);
  }

  /** The committed offset never decreases, and what has been handled stays handled. */
  lemma StepMovesForward(x: Shard, a: Action)
    requires Inv(x) && Enabled(x, a)
    ensures var x' := Apply(x, a);
            && x.committed <= x'.committed && x.handled <= x'.handled && x.log <= x'.log
            && x'.start == x.start && x'.initial == x.initial
  {
  }

  lemma {:induction false} RunMovesForward(x: Shard, actions: seq<Action>)
    requires Inv(x) && IsRun(x, actions)
    ensures var f := Final(x, actions);
            && Inv(f)
            && x.committed <= f.committed && x.handled <= f.handled && x.log <= f.log
            && f.start == x.start && f.initial == x.initial
    decreases |actions|
  {
    if actions != [] {
      StepKeepsInv(x, actions[0]);
      StepMovesForward(x, actions[0]);
      hide Inv, Apply, Enabled;
      RunMovesForward(Apply(x, actions[0]), actions[1..]);
    }
  }

  // ----- What the invariant means for a shard -----

  /** Every message between the starting position and the committed offset has been handled, and none
      there is unreadable. */
  lemma NothingSkipped(x: Shard, o: nat)
    requires Inv(x) && x.start <= o < x.committed
    ensures o < |x.log| && !x.log[o].Poison? && (x.log[o].Message? ==> o in x.handled)
  {
  }

  /** A session in the registry differs from the durable one exactly when the holder's last durable save
      is not committed, was of that very session, and has not reached the registry. */
  lemma CacheDiffersExactlyAfterUnsharedSave(x: Shard, id: RequestId)
    requires Inv(x) && id in x.registry
    ensures id in x.durable
    ensures x.registry[id] != x.durable[id] <==>
      && x.committed < x.cursor <= |x.log| && x.log[x.cursor - 1].Message?
      && x.log[x.cursor - 1].event.rfqId == id
      && x.registry[id] != RegisteredSession(x.log[x.cursor - 1].event)
  {
    if x.position.Some? && x.flight != [] {
      InHand(x);
    }
    hide ReplayInv, Items;
    if x.mode.Running? && x.mode.stage.Saved? {
      assert id in Register(x.registry, x.flight[0].event);
    } else if x.mode.Stopped? && x.registry != ActiveOnly(x.durable) {
      assert id in Register(x.registry, x.log[x.cursor - 1].event);
    }
  }

  /** While the consumer runs, that is exactly when the event in hand has been saved durably, is not yet
      in the registry, and changes that session. */
  lemma CacheDiffersExactlyBetweenSaves(x: Shard, id: RequestId)
    requires Inv(x) && x.mode.Running? && id in x.registry
    ensures id in x.durable
    ensures x.registry[id] != x.durable[id] <==>
      && x.mode.stage.Saved? && x.flight[0].event.rfqId == id
      && x.registry[id] != RegisteredSession(x.flight[0].event)
  {
    if x.mode.stage.Saved? {
      assert id in Register(x.registry, x.flight[0].event);
    }
  }

  /** Between events the registry of the shard is its active durable sessions. */
  lemma CacheEqualsStoreBetweenEvents(x: Shard)
    requires Inv(x) && x.mode == Running(Waiting)
    ensures x.registry == ActiveOnly(x.durable)
  {
  }

  lemma HighWaterInLog(x: Shard)
    requires Inv(x)
    ensures x.start <= x.highWater <= |x.log|
  {
  }

  /** However often the shard was reassigned and its messages were delivered again: the durable session of
      every request that the current replay is not going to register again is what processing the log
      once, up to the furthest save ever, leaves. */
  lemma RequestConverges(x: Shard, id: RequestId)
    requires Inv(x) && x.start <= x.highWater <= |x.log| && Silent(x.log, x.cursor, x.highWater, id)
    ensures SameAt(x.durable, Process(x.initial, x.log[x.start..x.highWater]), id)
  {
  }

  /** So once the current holder has caught up with the furthest save, all durable sessions are those
      that processing the log once up to there leaves, whatever is produced meanwhile. */
  lemma CaughtUpConverges(x: Shard)
    requires Inv(x) && x.cursor == x.highWater
    ensures x.start <= x.highWater <= |x.log|
    ensures x.durable == Process(x.initial, x.log[x.start..x.highWater])
  {
    forall id: RequestId ensures SameAt(x.durable, Process(x.initial, x.log[x.start..x.highWater]), id) {
      assert Silent(x.log, x.cursor, x.highWater, id);
    }
    EqualMaps(x.durable, Process(x.initial, x.log[x.start..x.highWater]));
  }

  /** And once no message is left to commit, they are those that processing the whole log leaves. */
  lemma RedeliveryConverges(x: Shard)
    requires Inv(x) && NoMessages(x.log, x.committed)
    ensures x.start <= |x.log|
    ensures x.durable == Process(x.initial, x.log[x.start..])
  {
    forall id: RequestId ensures SameAt(x.durable, Process(x.initial, x.log[x.start..]), id) {
      assert Silent(x.log, x.cursor, x.highWater, id) && Silent(x.log, x.highWater, |x.log|, id);
      SilentTail(x.initial, x.log, x.start, x.highWater, |x.log|, id);
      assert x.log[x.start..|x.log|] == x.log[x.start..];
    }
    EqualMaps(x.durable, Process(x.initial, x.log[x.start..]));
  }

  predicate NoMessages(log: seq<Entry>, lo: nat) {
    forall o :: lo <= o < |log| ==> !log[o].Message?
  }

  // ----- A run in which registry and store differ -----

  function ExampleEvent(): RfqRegistered {
    RfqRegistered("e-2", "rfq-1", 2, "swap", "trader")
  }

  function ExampleSession(): PricingSession {
    PricingSession(PricingRequest("rfq-1", 1, "swap"), DEFAULT_DEPENDENCIES, Active)
  }

  // One event of a request that already has a session.
  function ExampleShard(): Shard {
    var sessions := map["rfq-1" := ExampleSession()];
    Shard([Message(ExampleEvent())], 0, sessions, None, Free, map[], [], None, 0, sessions, {}, 0, 0)
  }

  function ExampleSaved(): Shard {
    var sessions := map["rfq-1" := ExampleSession()];
    Shard([Message(ExampleEvent())], 0, map["rfq-1" := RegisteredSession(ExampleEvent())],
          Some("w"), Running(Saved), sessions, [Item(0, ExampleEvent())], Some(1), 0, sessions, {}, 1, 1)
  }

  ghost predicate Reaches(x: Shard, y: Shard) {
    exists actions :: IsRun(x, actions) && Final(x, actions) == y
  }

  lemma ReachesItself(x: Shard)
    ensures Reaches(x, x)
  {
    assert IsRun(x, []);
  }

  lemma ReachesAfter(x: Shard, a: Action, y: Shard)
    requires Enabled(x, a) && Reaches(Apply(x, a), y)
    ensures Reaches(x, y)
  {
    var actions :| IsRun(Apply(x, a), actions) && Final(Apply(x, a), actions) == y;
    assert ([a] + actions)[1..] == actions;
    assert IsRun(x, [a] + actions);
  }

  lemma ExampleReaches(y: Shard)
    requires Reaches(ExampleSaved(), y)
    ensures Reaches(ExampleShard(), y)
  {
    hide Reaches;
    var x0 := ExampleShard();
    var x1 := Apply(x0, Assign("w"));
    var x2 := Apply(x1, ReadSnapshot);
    var x3 := Apply(x2, FillRegistry);
    assert x3.registry == map["rfq-1" := ExampleSession()];
    var x4 := Apply(x3, Deliver(0));
    var x5 := Apply(x4, Take);
    assert Apply(x5, SaveDurable) == ExampleSaved();
    ReachesAfter(x5, SaveDurable, y);
    ReachesAfter(x4, Take, y);
    ReachesAfter(x3, Deliver(0), y);
    ReachesAfter(x2, FillRegistry, y);
    ReachesAfter(x1, ReadSnapshot, y);
    ReachesAfter(x0, Assign("w"), y);
  }

  /** The difference is real, both while the consumer runs and when it is stopped there. */
  lemma CacheDiffersInSomeRun()
    ensures Init(ExampleShard())
    ensures var running, stopped := ExampleSaved(), Apply(ExampleSaved(), Stop);
            && Reaches(ExampleShard(), running) && Reaches(ExampleShard(), stopped)
            && stopped.mode.Stopped? && stopped.registry == running.registry && stopped.durable == running.durable
            && "rfq-1" in running.registry && "rfq-1" in running.durable
            && running.registry["rfq-1"] != running.durable["rfq-1"]
  {
    var running := ExampleSaved();
    ReachesItself(running);
    ExampleReaches(running);
    ReachesItself(Apply(running, Stop));
    ReachesAfter(running, Stop, Apply(running, Stop));
    ExampleReaches(Apply(running, Stop));
  }
}
