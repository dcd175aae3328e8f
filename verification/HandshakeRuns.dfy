/** Whole runs of the handshake between rebalance callbacks and shard runtime, cancellation included. */
module HandshakeRuns {
  import opened Wrappers
  import opened Handshake

  /** `callback` holds the changes of the callback in progress, `current` the change that the runtime works on. */
  datatype Core = Core(bridge: Bridge, callback: Option<seq<Change>>, current: Option<Change>)

  /** `failed` says that the runtime met an unknown transition. History, read by no step: all changes ever
      published and completed, in order, and the `orphaned` ones, which were open when the callback that
      had published them was cancelled. */
  datatype System = System(
    core: Core, failed: bool, published: seq<Change>, completed: seq<Change>, orphaned: set<TransitionId>)

  datatype Action = Call(changes: seq<Change>) | Return | CancelAll | Unwind | Take | Complete

  /** The changes that are published and not completed. */
  function Open(core: Core): seq<Change> {
    (if core.current.Some? then [core.current.value] else []) + core.bridge.queue
  }

  predicate IsCancelled(core: Core) {
    core.callback.Some? &&
    exists c :: c in core.callback.value && c.id in core.bridge.completions && core.bridge.completions[c.id].Cancelled?
  }

  predicate Possible(core: Core, a: Action) {
    match a
    case Call(changes) => core.callback.None? && changes != []
    case Return => core.callback.Some? && AllDone(core.bridge, core.callback.value)
    case CancelAll => true
    case Unwind => IsCancelled(core)
    case Take => core.current.None? && core.bridge.queue != []
    case Complete => core.current.Some?
  }

  /** "Unknown ownership transitions". */
  predicate Raises(core: Core) {
    core.current.Some? && core.current.value.id !in core.bridge.completions
  }

  /** `gather` passes the cancellation of a future on to the callback, whose `finally` drops all its futures. */
  function Next(core: Core, a: Action): Core
    requires Possible(core, a)
  {
    match a
    case Call(changes) => core.(bridge := Published(core.bridge, changes), callback := Some(changes))
    case Return => core.(bridge := Returned(core.bridge, core.callback.value), callback := None)
    case CancelAll => core.(bridge := PendingCancelled(core.bridge))
    case Unwind => core.(bridge := Returned(core.bridge, core.callback.value), callback := None)
    case Take => core.(bridge := core.bridge.(queue := core.bridge.queue[1..]), current := Some(core.bridge.queue[0]))
    case Complete =>
      if Raises(core) then core else core.(bridge := Completed(core.bridge, core.current.value), current := None)
  }

  predicate DistinctIds(changes: seq<Change>) {
    forall i, j :: 0 <= i < j < |changes| ==> changes[i].id != changes[j].id
  }

  // Transition ids are new.
  predicate Enabled(sys: System, a: Action) {
    && Possible(sys.core, a)
    && (a.Take? || a.Complete? ==> !sys.failed)
    && (a.Call? ==> DistinctIds(a.changes) && Ids(a.changes) !! Ids(sys.published))
  }

  function Apply(sys: System, a: Action): System
    requires Enabled(sys, a)
  {
    var next := sys.(core := Next(sys.core, a));
    match a
    case Call(changes) => next.(published := sys.published + changes)
    case Unwind => next.(orphaned := sys.orphaned + Ids(sys.core.callback.value) * Ids(Open(sys.core)))
    case Complete =>
      if Raises(sys.core) then next.(failed := true)
      else next.(completed := sys.completed + [sys.core.current.value])
    case _ => next
  }

  const START: System := System(Core(Bridge([], map[]), None, None), false, [], [], {})

  predicate IsRun(sys: System, actions: seq<Action>)
    decreases |actions|
  {
    actions == [] || (Enabled(sys, actions[0]) && IsRun(Apply(sys, actions[0]), actions[1..]))
  }

  function Final(sys: System, actions: seq<Action>): System
    requires IsRun(sys, actions)
    decreases |actions|
  {
    if actions == [] then sys else Final(Apply(sys, actions[0]), actions[1..])
  }

  // ----- What every step keeps -----

  /** What has been published has been completed, in that order, or is open; no id comes twice. */
  predicate OrderInv(sys: System) {
    && sys.published == sys.completed + Open(sys.core)
    && DistinctIds(sys.published)
  }

  function Waited(core: Core): set<TransitionId> {
    if core.callback.None? then {} else Ids(core.callback.value)
  }

  /** There are futures exactly for the callback in progress; an open change has one unless it is orphaned;
      a future is done only for a change that is completed, and waits only for one that is open. */
  predicate FutureInv(sys: System) {
    && sys.core.bridge.completions.Keys == Waited(sys.core) <= Ids(sys.published)
    && sys.orphaned <= Ids(sys.published)
    && (forall id :: id in Ids(Open(sys.core)) ==> (id in Waited(sys.core) <==> id !in sys.orphaned))
    && (forall id :: id in Waited(sys.core) ==>
          && id !in sys.orphaned
          && (sys.core.bridge.completions[id].Done? ==> id !in Ids(Open(sys.core)))
          && (sys.core.bridge.completions[id].Waiting? ==> id in Ids(Open(sys.core))))
  }

  predicate Inv(sys: System) {
    OrderInv(sys) && FutureInv(sys)
  }

  lemma IdsAppend(a: seq<Change>, b: seq<Change>)
    ensures Ids(a + b) == Ids(a) + Ids(b)
  {
    assert forall c :: c in a + b <==> c in a || c in b;
  }

  lemma DistinctIdsAppend(a: seq<Change>, b: seq<Change>)
    requires DistinctIds(a) && DistinctIds(b) && Ids(a) !! Ids(b)
    ensures DistinctIds(a + b)
  {
    forall i, j | 0 <= i < |a| && 0 <= j < |b| ensures a[i].id != b[j].id {
      assert a[i].id in Ids(a) && b[j].id in Ids(b);
    }
  }

  lemma CallKeepsOrder(sys: System, a: Action)
    requires OrderInv(sys) && a.Call? && Enabled(sys, a)
    ensures OrderInv(Apply(sys, a)) && Open(Apply(sys, a).core) == Open(sys.core) + a.changes
  {
    DistinctIdsAppend(sys.published, a.changes);
    hide DistinctIds;
    assert Open(Apply(sys, a).core) == Open(sys.core) + a.changes;
  }

  lemma CallKeepsFutures(sys: System, a: Action)
    requires Inv(sys) && a.Call? && Enabled(sys, a)
    requires Open(Apply(sys, a).core) == Open(sys.core) + a.changes
    ensures FutureInv(Apply(sys, a))
  {
    IdsAppend(sys.published, a.changes);
    IdsAppend(Open(sys.core), a.changes);
    IdsAppend(sys.completed, Open(sys.core));
    hide Ids, Open, DistinctIds;
  }

  lemma CallKeepsInv(sys: System, a: Action)
    requires Inv(sys) && a.Call? && Enabled(sys, a)
    ensures Inv(Apply(sys, a))
  {
    hide OrderInv, FutureInv;
    CallKeepsOrder(sys, a);
    CallKeepsFutures(sys, a);
  }

  lemma TakeKeepsInv(sys: System, a: Action)
    requires Inv(sys) && a.Take? && Enabled(sys, a)
    ensures Inv(Apply(sys, a))
  {
    assert Open(Apply(sys, a).core) == Open(sys.core);
  }

  // The change at hand is gone from the open ones once it is completed.
  lemma CurrentIsNotLater(sys: System)
    requires OrderInv(sys) && sys.core.current.Some?
    ensures Open(sys.core) == [sys.core.current.value] + sys.core.bridge.queue
    ensures sys.core.current.value.id !in Ids(sys.core.bridge.queue)
    ensures Ids(Open(sys.core)) == {sys.core.current.value.id} + Ids(sys.core.bridge.queue)
  {
    var c, queue, n := sys.core.current.value, sys.core.bridge.queue, |sys.completed|;
    IdsAppend([c], queue);
    assert Ids([c]) == {c.id} by { assert c in [c]; }
    assert sys.published[n] == c;
    forall x | x in queue ensures x.id != c.id {
      var i :| 0 <= i < |queue| && queue[i] == x;
      assert sys.published[n + 1 + i] == x;
    }
  }

  lemma CompleteKeepsOrder(sys: System, a: Action)
    requires OrderInv(sys) && a.Complete? && Enabled(sys, a)
    ensures OrderInv(Apply(sys, a))
    ensures Open(Apply(sys, a).core) == if Raises(sys.core) then Open(sys.core) else sys.core.bridge.queue
  {
    hide Ids, DistinctIds, Completed;
    var c, queue := sys.core.current.value, sys.core.bridge.queue;
    CurrentComesFirst(sys.core);
    CompletedQueue(sys.core.bridge, c);
    assert sys.completed + ([c] + queue) == (sys.completed + [c]) + queue;
    if !Raises(sys.core) {
      NoCurrent(Next(sys.core, a));
      hide Open;
    }
  }

  lemma CurrentComesFirst(core: Core)
    requires core.current.Some?
    ensures Open(core) == [core.current.value] + core.bridge.queue
  {
  }

  lemma NoCurrent(core: Core)
    requires core.current.None?
    ensures Open(core) == core.bridge.queue
  {
  }

  lemma CompletedQueue(b: Bridge, c: Change)
    ensures c.id in b.completions ==> Completed(b, c).queue == b.queue
  {
  }

  lemma CompleteKeepsFutures(sys: System, a: Action)
    requires FutureInv(sys) && a.Complete? && Enabled(sys, a)
    requires var c := sys.core.current.value;
             && c.id !in Ids(sys.core.bridge.queue)
             && Ids(Open(sys.core)) == {c.id} + Ids(sys.core.bridge.queue)
    requires Open(Apply(sys, a).core) == if Raises(sys.core) then Open(sys.core) else sys.core.bridge.queue
    ensures FutureInv(Apply(sys, a))
  {
    hide Ids, Open, DistinctIds;
  }

  lemma CompleteKeepsInv(sys: System, a: Action)
    requires Inv(sys) && a.Complete? && Enabled(sys, a)
    ensures Inv(Apply(sys, a))
  {
    hide OrderInv, FutureInv, Ids, Open, DistinctIds, Raises;
    CurrentIsNotLater(sys);
    CompleteKeepsOrder(sys, a);
    CompleteKeepsFutures(sys, a);
  }

  lemma ReturnKeepsInv(sys: System, a: Action)
    requires Inv(sys) && (a.Return? || a.Unwind?) && Enabled(sys, a)
    ensures Inv(Apply(sys, a))
  {
    hide DistinctIds;
    var changes, sys' := sys.core.callback.value, Apply(sys, a);
    assert Open(sys'.core) == Open(sys.core);
    if a.Return? {
      forall id | id in Ids(changes) ensures id !in Ids(Open(sys.core)) {
        var c :| c in changes && c.id == id;
        assert sys.core.bridge.completions[id].Done?;
      }
    }
    hide Ids;
  }

  lemma StepKeepsInv(sys: System, a: Action)
    requires Inv(sys) && Enabled(sys, a)
    ensures Inv(Apply(sys, a))
  {
    hide Inv, Enabled, Apply;
    match a
    case Call(_) => CallKeepsInv(sys, a);
    case Return => ReturnKeepsInv(sys, a);
    case CancelAll => CancelKeepsInv(sys, a);
    case Unwind => ReturnKeepsInv(sys, a);
    case Take => TakeKeepsInv(sys, a);
    case Complete => CompleteKeepsInv(sys, a);
  }

  lemma CancelKeepsInv(sys: System, a: Action)
    requires Inv(sys) && a.CancelAll? && Enabled(sys, a)
    ensures Inv(Apply(sys, a))
  {
    assert Open(Apply(sys, a).core) == Open(sys.core);
    hide Ids;
  }

  lemma {:induction false} RunKeepsInv(sys: System, actions: seq<Action>)
    requires Inv(sys) && IsRun(sys, actions)
    ensures Inv(Final(sys, actions))
    decreases |actions|
  {
    hide Inv, Apply, Enabled;
    if actions != [] {
      StepKeepsInv(sys, actions[0]);
      RunKeepsInv(Apply(sys, actions[0]), actions[1..]);
    }
  }

  lemma StartInv()
    ensures Inv(START)
  {
  }

  lemma Reached(actions: seq<Action>)
    requires IsRun(START, actions)
    ensures Inv(Final(START, actions))
  {
    hide Inv, IsRun, Final;
    StartInv();
    RunKeepsInv(START, actions);
  }

  // ----- The theorems -----

  /** In every run, the changes completed are those published, in that order and each once, up to the ones
      still open; with as many callbacks, cancellations and failures as there may be. */
  lemma CompletedInOrderOnce(actions: seq<Action>)
    requires IsRun(START, actions)
    ensures var f := Final(START, actions);
            f.published == f.completed + Open(f.core) && DistinctIds(f.published)
  {
    hide IsRun, Final, FutureInv;
    Reached(actions);
  }

  /** In every run, completing the change at hand is an unknown transition exactly when the callback that
      published it was cancelled while the change was open. */
  lemma RaisesExactlyWhenOrphaned(actions: seq<Action>)
    requires IsRun(START, actions) && Final(START, actions).core.current.Some?
    ensures var f := Final(START, actions);
            Raises(f.core) <==> f.core.current.value.id in f.orphaned
  {
    hide IsRun, Final, OrderInv;
    Reached(actions);
    CurrentIsNotLater(Final(START, actions));
    hide Open, Ids;
  }

  lemma {:induction false} NoCancelNoOrphan(sys: System, actions: seq<Action>)
    requires Inv(sys) && IsRun(sys, actions) && CancelAll !in actions
    requires !IsCancelled(sys.core) && NoneCancelled(sys.core) && sys.orphaned == {} && !sys.failed
    ensures Final(sys, actions).orphaned == {} && !Final(sys, actions).failed
    decreases |actions|
  {
    if actions != [] {
      var a := actions[0];
      assert a != CancelAll;
      StepKeepsInv(sys, a);
      if a.Complete? {
        CurrentIsNotLater(sys);
      }
      NoneCancelledStays(sys.core, a);
      assert NoneCancelled(Apply(sys, a).core);
      hide Inv, NoneCancelled, Next;
      NoCancelNoOrphan(Apply(sys, a), actions[1..]);
    }
  }

  /** A callback does not wait for ever: in every run, once the runtime has nothing open, the callback in
      progress can return, or one of its futures was cancelled and it can unwind. */
  lemma CallbackCanEnd(actions: seq<Action>)
    requires IsRun(START, actions)
    requires Final(START, actions).core.callback.Some? && Open(Final(START, actions).core) == []
    ensures var f := Final(START, actions);
            Enabled(f, if IsCancelled(f.core) then Unwind else Return)
  {
    hide IsRun, Final, OrderInv;
    Reached(actions);
    var core := Final(START, actions).core;
    if !IsCancelled(core) {
      forall c | c in core.callback.value
        ensures c.id in core.bridge.completions && core.bridge.completions[c.id].Done?
      {
        assert c.id in Waited(core);
      }
    }
  }

  predicate NoneCancelled(core: Core) {
    forall id :: id in core.bridge.completions ==> !core.bridge.completions[id].Cancelled?
  }

  lemma NoneCancelledStays(core: Core, a: Action)
    requires Possible(core, a) && !a.CancelAll? && NoneCancelled(core)
    ensures NoneCancelled(Next(core, a)) && !IsCancelled(Next(core, a))
  {
  }

  /** Without a cancellation no transition is ever unknown. */
  lemma NeverRaisesWithoutCancellation(actions: seq<Action>)
    requires IsRun(START, actions) && CancelAll !in actions
    ensures !Final(START, actions).failed && !Raises(Final(START, actions).core)
  {
    StartInv();
    NoCancelNoOrphan(START, actions);
    if Final(START, actions).core.current.Some? {
      RaisesExactlyWhenOrphaned(actions);
    }
  }

  /** The runtime cannot get past the first open change. */
  predicate Stuck(sys: System) {
    Open(sys.core) != [] && Open(sys.core)[0].id in sys.orphaned
  }

  lemma FirstOpenHasId(core: Core)
    requires Open(core) != []
    ensures Open(core)[0].id in Ids(Open(core))
    ensures core.current.Some? ==> core.current.value == Open(core)[0]
  {
    assert Open(core)[0] in Open(core);
  }

  lemma UnwindingSticks(sys: System)
    requires Inv(sys) && Enabled(sys, Unwind) && Open(sys.core) != []
    ensures Stuck(Apply(sys, Unwind))
  {
    FirstOpenHasId(sys.core);
    assert Open(Apply(sys, Unwind).core) == Open(sys.core);
    hide Ids;
  }

  lemma OpenGrows(sys: System, a: Action)
    requires Enabled(sys, a) && Open(sys.core) != [] && (a.Complete? ==> Raises(sys.core))
    ensures Open(Apply(sys, a).core) != [] && Open(Apply(sys, a).core)[0] == Open(sys.core)[0]
  {
  }

  lemma StuckStays(sys: System, a: Action)
    requires Inv(sys) && Stuck(sys) && Enabled(sys, a)
    ensures Stuck(Apply(sys, a)) && Apply(sys, a).completed == sys.completed
    ensures a.Complete? ==> Apply(sys, a).failed
  {
    FirstOpenHasId(sys.core);
    assert a.Complete? ==> Raises(sys.core);
    OpenGrows(sys, a);
    hide Ids, Open, Next, Possible;
  }

  lemma {:induction false} StuckForGood(sys: System, actions: seq<Action>)
    requires Inv(sys) && Stuck(sys) && IsRun(sys, actions)
    ensures Inv(Final(sys, actions)) && Stuck(Final(sys, actions)) && Final(sys, actions).completed == sys.completed
    decreases |actions|
  {
    hide Inv, Stuck, Apply, Enabled;
    if actions != [] {
      StuckStays(sys, actions[0]);
      StepKeepsInv(sys, actions[0]);
      StuckForGood(Apply(sys, actions[0]), actions[1..]);
    }
  }

  /** When a cancelled callback unwinds, its cancellation has done no harm if nothing is open by then. If
      something is, the runtime never completes another change, however the run goes on: the next one that it
      tries to complete is an unknown transition. */
  lemma UnwindingDecides(sys: System, actions: seq<Action>)
    requires Inv(sys) && Enabled(sys, Unwind) && IsRun(Apply(sys, Unwind), actions)
    ensures var after, f := Apply(sys, Unwind), Final(Apply(sys, Unwind), actions);
            if Open(sys.core) == [] then after.orphaned == sys.orphaned && after.failed == sys.failed
            else f.completed == sys.completed && (f.core.current.Some? ==> Raises(f.core))
  {
    var after := Apply(sys, Unwind);
    StepKeepsInv(sys, Unwind);
    if Open(sys.core) == [] {
      assert Ids([]) == {};
    } else {
      UnwindingSticks(sys);
      StuckForGood(after, actions);
      var f := Final(after, actions);
      FirstOpenHasId(f.core);
      hide Ids, Open, Apply, Enabled, IsRun, Final;
    }
  }

  // The runtime works on the only change of a callback, whose future is cancelled.
  function CancelledAtWork(c: Change): System {
    System(Core(Bridge([], map[c.id := Cancelled]), Some([c]), Some(c)), false, [c], [], {})
  }

  lemma CancelledAtWorkIsReached(c: Change)
    ensures Enabled(START, Call([c])) && Enabled(Apply(START, Call([c])), Take)
    ensures Enabled(Apply(Apply(START, Call([c])), Take), CancelAll)
    ensures Apply(Apply(Apply(START, Call([c])), Take), CancelAll) == CancelledAtWork(c)
  {
    var s1 := Apply(START, Call([c]));
    assert c in [c] && Ids([c]) == {c.id};
    assert s1.core.bridge == Bridge([c], map[c.id := Waiting]);
    var s2 := Apply(s1, Take);
    assert s2.core.bridge == Bridge([], map[c.id := Waiting]);
  }

  lemma CompletedAtWork(c: Change)
    ensures var s := CancelledAtWork(c);
            && IsRun(s, [Complete, Unwind])
            && Open(Final(s, [Complete, Unwind]).core) == [] && !Final(s, [Complete, Unwind]).failed
  {
    var s := CancelledAtWork(c);
    var s1 := Apply(s, Complete);
    assert c in s1.core.callback.value && s1.core.bridge.completions[c.id].Cancelled?;
    assert IsCancelled(s1.core);
    hide Ids;
    assert [Complete, Unwind] + [] == [Complete, Unwind];
    FirstTwo(s, Complete, Unwind, []);
  }

  /** Both happen. Of two schedules after the same cancellation, in the first the runtime completes the only
      open change before its callback unwinds. */
  lemma CancellationCanBeHarmless(c: Change)
    ensures var actions := [Call([c]), Take, CancelAll, Complete, Unwind];
            IsRun(START, actions) && Open(Final(START, actions).core) == [] && !Final(START, actions).failed
  {
    hide Enabled, Apply, Open;
    CancelledAtWorkIsReached(c);
    CompletedAtWork(c);
    var end := [Complete, Unwind];
    assert [CancelAll, Complete, Unwind][1..] == end;
    FirstTwo(START, Call([c]), Take, [CancelAll, Complete, Unwind]);
    assert [Call([c]), Take] + [CancelAll, Complete, Unwind] == [Call([c]), Take, CancelAll, Complete, Unwind];
  }

  /** In the second the callback unwinds first, and the runtime fails on the very next change. */
  lemma CancellationCanMakeTheRuntimeFail(sys: System)
    requires Inv(sys) && !sys.failed && sys.core.callback.Some?
    requires !AllDone(sys.core.bridge, sys.core.callback.value) && Open(sys.core) != []
    ensures var actions := [CancelAll, Unwind] + if sys.core.current.None? then [Take, Complete] else [Complete];
            IsRun(sys, actions) && Final(sys, actions).failed
  {
    hide Inv, IsCancelled, AllDone, Ids, Enabled, Apply, Open;
    CancelledUnwinds(sys);
    var end := if sys.core.current.None? then [Take, Complete] else [Complete];
    AnyCompletionFails(Apply(Apply(sys, CancelAll), Unwind));
    FirstTwo(sys, CancelAll, Unwind, end);
  }

  lemma CancelledUnwinds(sys: System)
    requires Inv(sys) && sys.core.callback.Some? && !AllDone(sys.core.bridge, sys.core.callback.value)
    ensures Enabled(sys, CancelAll) && Enabled(Apply(sys, CancelAll), Unwind)
    ensures var s := Apply(Apply(sys, CancelAll), Unwind);
            && s.core.bridge.completions == map[] && Open(s.core) == Open(sys.core)
            && s.failed == sys.failed && s.core.current == sys.core.current
  {
    hide OrderInv;
    var changes := sys.core.callback.value;
    var c :| c in changes && !(c.id in sys.core.bridge.completions && sys.core.bridge.completions[c.id].Done?);
    assert c.id in Waited(sys.core);
    var s := Apply(sys, CancelAll);
    assert s.core.bridge.completions[c.id].Cancelled? && IsCancelled(s.core);
    hide IsCancelled, AllDone;
  }

  lemma AnyCompletionFails(sys: System)
    requires !sys.failed && sys.core.bridge.completions == map[] && Open(sys.core) != []
    ensures var actions := if sys.core.current.None? then [Take, Complete] else [Complete];
            IsRun(sys, actions) && Final(sys, actions).failed
  {
    assert [Complete][1..] == [] && [Take, Complete][1..] == [Complete];
    if sys.core.current.None? {
      var s1 := Apply(sys, Take);
      assert IsRun(s1, [Complete]) && Final(s1, [Complete]).failed;
    }
  }

  lemma FirstTwo(sys: System, a: Action, b: Action, rest: seq<Action>)
    requires Enabled(sys, a) && Enabled(Apply(sys, a), b) && IsRun(Apply(Apply(sys, a), b), rest)
    ensures IsRun(sys, [a, b] + rest) && Final(sys, [a, b] + rest) == Final(Apply(Apply(sys, a), b), rest)
  {
    hide Enabled, Apply;
    assert ([a, b] + rest)[1..] == [b] + rest && ([b] + rest)[1..] == rest;
  }
}
