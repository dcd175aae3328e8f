/** What happens to a shard whose subscription ends late.

    `async for` does not close a generator when its task is cancelled in the loop body; the `finally` of the
    subscription then runs at some later time. Other shards have nothing to do with it. */
module LateSubscription {
  import opened Wrappers
  import opened Mailbox

  type QueueId = nat

  /** One shard of the subscriber. `queues` are the queue objects ever made for it, `entry` is the one in
      `_queues`; `reader` is the queue that the live consumer's subscription reads, which need not be the
      entry; `unclosed` are the queues of the generators that have not been closed yet. History, read by no
      step: `acked` and `used` are the deliveries acknowledged and received. */
  datatype Shard = Shard(
    queues: seq<seq<DeliveryId>>, entry: Option<QueueId>, pendings: set<DeliveryId>,
    reader: Option<QueueId>, inHand: Option<DeliveryId>, unclosed: seq<QueueId>,
    failed: bool, acked: seq<DeliveryId>, used: set<DeliveryId>)

  datatype Action = Message(id: DeliveryId) | Subscribe | Next | Ack | Cancel | LateEnd(i: nat)

  const START: Shard := Shard([], None, {}, None, None, [], false, [], {})

  /** The queue ids that occur are those of queues made, and every delivery that occurs has been received. */
  predicate Inv(x: Shard) {
    && (x.entry.Some? ==> x.entry.value < |x.queues|)
    && (x.reader.Some? ==> x.reader.value < |x.queues|)
    && (forall i :: 0 <= i < |x.unclosed| ==> x.unclosed[i] < |x.queues|)
    && x.pendings <= x.used
    && (forall q, id :: 0 <= q < |x.queues| && id in x.queues[q] ==> id in x.used)
    && (x.inHand.Some? ==> x.reader.Some? && x.inHand.value in x.used)
  }

  predicate Enabled(x: Shard, a: Action) {
    match a
    case Message(id) => id !in x.used
    case Subscribe => x.reader.None? && !x.failed
    case Next =>
      && !x.failed && x.inHand.None?
      && x.reader.Some? && x.reader.value < |x.queues| && x.queues[x.reader.value] != []
    case Ack => !x.failed && x.inHand.Some?
    case Cancel => x.reader.Some?
    case LateEnd(i) => i < |x.unclosed|
  }

  /** The `finally` of the subscription that reads `q`. */
  function Ended(x: Shard, q: QueueId): Shard {
    x.(entry := if x.entry == Some(q) then None else x.entry, pendings := {})
  }

  /** `dict.setdefault(shard_id, Queue())`. */
  function WithEntry(x: Shard): Shard {
    if x.entry.Some? then x else x.(queues := x.queues + [[]], entry := Some(|x.queues|))
  }

  function Apply(x: Shard, a: Action): Shard
    requires Inv(x) && Enabled(x, a)
  {
    match a
    case Message(id) =>
      var y := WithEntry(x);
      var q := y.entry.value;
      y.(queues := y.queues[q := y.queues[q] + [id]], pendings := x.pendings + {id}, used := x.used + {id})
    case Subscribe => var y := WithEntry(x); y.(reader := y.entry)
    case Next =>
      var q := x.reader.value;
      x.(inHand := Some(x.queues[q][0]), queues := x.queues[q := x.queues[q][1..]])
    case Ack =>
      var id := x.inHand.value;
      if id in x.pendings then x.(pendings := x.pendings - {id}, inHand := None, acked := x.acked + [id])
      else x.(failed := true)
    case Cancel =>
      // Waiting for its queue the generator sees the cancellation itself; in the loop body it does not.
      if x.inHand.None? then Ended(x, x.reader.value).(reader := None)
      else x.(reader := None, inHand := None, unclosed := x.unclosed + [x.reader.value])
    case LateEnd(i) => Ended(x, x.unclosed[i]).(unclosed := x.unclosed[..i] + x.unclosed[i + 1..])
  }

  lemma EntryKeepsInv(x: Shard)
    requires Inv(x)
    ensures var y := WithEntry(x);
            && Inv(y) && y.entry.Some?
            && y.used == x.used && y.pendings == x.pendings && y.inHand == x.inHand && y.reader == x.reader
  {
    var y := WithEntry(x);
    assert forall q :: 0 <= q < |x.queues| ==> y.queues[q] == x.queues[q];
  }

  lemma StepKeepsInv(x: Shard, a: Action)
    requires Inv(x) && Enabled(x, a)
    ensures Inv(Apply(x, a))
  {
    if a.Message? || a.Subscribe? {
      EntryKeepsInv(x);
      hide WithEntry;
    } else {
      hide WithEntry;
    }
  }

  predicate IsRun(x: Shard, actions: seq<Action>)
    requires Inv(x)
    decreases |actions|
  {
    actions == [] ||
    (Enabled(x, actions[0]) && Inv(Apply(x, actions[0])) && IsRun(Apply(x, actions[0]), actions[1..]))
  }

  function Final(x: Shard, actions: seq<Action>): (f: Shard)
    requires Inv(x) && IsRun(x, actions)
    ensures Inv(f)
    decreases |actions|
  {
    if actions == [] then x else Final(Apply(x, actions[0]), actions[1..])
  }

  // ----- What the live consumer has before it -----

  /** The deliveries that the live consumer has in hand or will find in its queue. */
  function Waits(x: Shard): seq<DeliveryId>
    requires Inv(x) && x.reader.Some?
  {
    (if x.inHand.Some? then [x.inHand.value] else []) + x.queues[x.reader.value]
  }

  /** New messages of the shard go to another queue than the one that the consumer reads. */
  predicate IsCutOff(x: Shard) {
    x.reader.Some? && x.entry != x.reader
  }

  predicate IsForgotten(x: Shard)
    requires Inv(x) && x.reader.Some?
  {
    Waits(x) != [] && Waits(x)[0] !in x.pendings && Waits(x)[0] in x.used
  }

  predicate IsSuffix(end: seq<DeliveryId>, all: seq<DeliveryId>) {
    |end| <= |all| && end == all[|all| - |end|..]
  }

  lemma SuffixOfSuffix(a: seq<DeliveryId>, b: seq<DeliveryId>, c: seq<DeliveryId>)
    requires IsSuffix(a, b) && IsSuffix(b, c)
    ensures IsSuffix(a, c)
  {
  }

  // Only its own steps change what a consumer reads when it is cut off.
  lemma CutOffMessage(x: Shard, id: DeliveryId)
    requires Inv(x) && IsCutOff(x) && id !in x.used
    ensures var y := Apply(x, Message(id));
            && y.reader == x.reader && y.inHand == x.inHand && IsCutOff(y)
            && |x.queues| <= |y.queues| && y.queues[x.reader.value] == x.queues[x.reader.value]
  {
    assert WithEntry(x).queues[x.reader.value] == x.queues[x.reader.value];
  }

  lemma CutOffOther(x: Shard, a: Action)
    requires Inv(x) && IsCutOff(x) && Enabled(x, a) && !a.Cancel? && !a.Message?
    ensures var y := Apply(x, a);
            && y.reader == x.reader && IsCutOff(y)
            && |y.queues| == |x.queues| && (y.queues == x.queues || a.Next?)
            && (y.inHand == x.inHand || a.Next? || (a.Ack? && y.inHand.None?))
  {
    hide WithEntry;
  }

  lemma CutOffStep(x: Shard, a: Action)
    requires Inv(x) && IsCutOff(x) && Enabled(x, a) && !a.Cancel?
    ensures var y := Apply(x, a);
            Inv(y) && IsCutOff(y) && IsSuffix(Waits(y), Waits(x))
  {
    StepKeepsInv(x, a);
    var y := Apply(x, a);
    if a.Message? {
      CutOffMessage(x, a.id);
      hide Inv, Enabled, Apply;
      assert Waits(y) == Waits(x);
    } else {
      CutOffOther(x, a);
      if a.Next? {
        assert Waits(y) == Waits(x) by { FirstAndRest(x.queues[x.reader.value]); }
      } else {
        hide Inv, Enabled, Apply;
      }
    }
  }

  lemma FirstAndRest(s: seq<DeliveryId>)
    requires s != []
    ensures [s[0]] + s[1..] == s
  {
  }

  /** However long the consumer lives, it gets nothing but what it had before it when it was cut off. */
  lemma {:induction false} CutOffForGood(x: Shard, actions: seq<Action>)
    requires Inv(x) && IsCutOff(x) && IsRun(x, actions) && Cancel !in actions
    ensures var f := Final(x, actions);
            IsCutOff(f) && IsSuffix(Waits(f), Waits(x))
    decreases |actions|
  {
    if actions != [] {
      assert actions[0] in actions;
      CutOffStep(x, actions[0]);
      hide Inv, Enabled, Apply, Waits, IsCutOff, IsSuffix;
      CutOffForGood(Apply(x, actions[0]), actions[1..]);
      SuffixOfSuffix(Waits(Final(x, actions)), Waits(Apply(x, actions[0])), Waits(x));
    }
  }

  lemma ForgottenStep(x: Shard, a: Action)
    requires Inv(x) && x.reader.Some? && IsForgotten(x) && Enabled(x, a) && !a.Cancel?
    ensures var y := Apply(x, a);
            Inv(y) && y.reader.Some? && IsForgotten(y) && y.acked == x.acked && (a.Ack? ==> y.failed)
  {
    StepKeepsInv(x, a);
  }

  lemma {:induction false} ForgottenForGood(x: Shard, actions: seq<Action>)
    requires Inv(x) && x.reader.Some? && IsForgotten(x) && IsRun(x, actions) && Cancel !in actions
    ensures var f := Final(x, actions);
            f.reader.Some? && IsForgotten(f) && f.acked == x.acked
    decreases |actions|
  {
    if actions != [] {
      assert actions[0] in actions;
      ForgottenStep(x, actions[0]);
      hide Inv, Enabled, Apply, Waits, IsForgotten;
      ForgottenForGood(Apply(x, actions[0]), actions[1..]);
    }
  }

  lemma WaitsAreUsed(x: Shard)
    requires Inv(x) && x.reader.Some?
    ensures forall id :: id in Waits(x) ==> id in x.used
  {
  }

  /** A subscription that ends while the shard has a new consumer. If that one has a delivery in hand or in its
      queue, nothing is ever acknowledged by it any more: its next acknowledgement is of an unknown delivery.
      If it has none, and the ending subscription read the same queue (or an earlier one that ended late did),
      no later message ever reaches it and nothing is raised. Only otherwise does the late end do no harm, and
      the next message is handled as ever. */
  lemma LateEndDecides(x: Shard, i: nat, actions: seq<Action>)
    requires Inv(x) && x.reader.Some? && Enabled(x, LateEnd(i))
    requires Inv(Apply(x, LateEnd(i))) && IsRun(Apply(x, LateEnd(i)), actions) && Cancel !in actions
    ensures var after, f := Apply(x, LateEnd(i)), Final(Apply(x, LateEnd(i)), actions);
            if Waits(x) != [] then
              f.acked == x.acked && (f.inHand.Some? ==> f.inHand.value !in f.pendings)
            else if x.entry != x.reader || x.unclosed[i] == x.reader.value then
              f.reader == x.reader && Waits(f) == [] && f.acked == x.acked && !Enabled(f, Next) && !Enabled(f, Ack)
            else
              forall id :: id !in x.used && !x.failed ==>
                var handled := [Message(id), Next, Ack];
                IsRun(after, handled) && Final(after, handled).acked == x.acked + [id]
  {
    var after := Apply(x, LateEnd(i));
    assert after.reader == x.reader && Waits(after) == Waits(x);
    if Waits(x) != [] {
      WaitsAreUsed(x);
      assert IsForgotten(after);
      ForgottenForGood(after, actions);
      FirstIsInHand(Final(after, actions));
    } else if x.entry != x.reader || x.unclosed[i] == x.reader.value {
      NothingMore(after, actions);
    } else {
      forall id | id !in x.used && !x.failed
        ensures IsRun(after, [Message(id), Next, Ack])
        ensures Final(after, [Message(id), Next, Ack]).acked == x.acked + [id]
      {
        HandledAsEver(after, id);
      }
    }
  }

  lemma FirstIsInHand(x: Shard)
    requires Inv(x) && x.reader.Some? && IsForgotten(x)
    ensures x.inHand.Some? ==> x.inHand.value !in x.pendings
  {
  }

  lemma NothingMoreStep(x: Shard, a: Action)
    requires Inv(x) && IsCutOff(x) && Waits(x) == [] && Enabled(x, a) && !a.Cancel?
    ensures var y := Apply(x, a);
            Inv(y) && IsCutOff(y) && Waits(y) == [] && y.acked == x.acked && y.reader == x.reader
  {
    StepKeepsInv(x, a);
  }

  lemma {:induction false} NothingMore(x: Shard, actions: seq<Action>)
    requires Inv(x) && IsCutOff(x) && Waits(x) == [] && IsRun(x, actions) && Cancel !in actions
    ensures var f := Final(x, actions);
            && f.reader == x.reader && Waits(f) == [] && f.acked == x.acked && !Enabled(f, Next) && !Enabled(f, Ack)
    decreases |actions|
  {
    if actions != [] {
      assert actions[0] in actions;
      NothingMoreStep(x, actions[0]);
      hide Inv, Enabled, Apply, Waits, IsCutOff;
      NothingMore(Apply(x, actions[0]), actions[1..]);
    }
  }

  lemma ThreeSteps(x: Shard, a: Action, b: Action, c: Action)
    requires Inv(x) && Enabled(x, a)
    requires Inv(Apply(x, a)) && Enabled(Apply(x, a), b)
    requires Inv(Apply(Apply(x, a), b)) && Enabled(Apply(Apply(x, a), b), c)
    ensures IsRun(x, [a, b, c])
    ensures Final(x, [a, b, c]) == Apply(Apply(Apply(x, a), b), c)
  {
    var x1 := Apply(x, a);
    var x2 := Apply(x1, b);
    StepKeepsInv(x2, c);
    hide Inv, Enabled, Apply;
    var x3 := Apply(x2, c);
    assert [a, b, c][1..] == [b, c] && [b, c][1..] == [c] && [c][1..] == [];
    assert IsRun(x3, []) && Final(x3, []) == x3;
    assert IsRun(x2, [c]) && Final(x2, [c]) == x3;
    assert IsRun(x1, [b, c]) && Final(x1, [b, c]) == x3;
  }

  lemma HandledAsEver(x: Shard, id: DeliveryId)
    requires Inv(x) && !x.failed && x.reader.Some? && x.entry == x.reader && Waits(x) == [] && id !in x.used
    ensures var handled := [Message(id), Next, Ack];
            IsRun(x, handled) && Final(x, handled).acked == x.acked + [id]
  {
    StepKeepsInv(x, Message(id));
    var x1 := Apply(x, Message(id));
    assert x1.queues[x.reader.value] == [id];
    StepKeepsInv(x1, Next);
    ThreeSteps(x, Message(id), Next, Ack);
  }

  // ----- Both harms in a run -----

  /** The state after Subscribe, Message("a"), Next, Cancel, Subscribe: the second subscription has found the
      queue of the first, which has not ended yet. */
  function Resubscribed(): Shard {
    Shard([[]], Some(0), {"a"}, Some(0), None, [0], false, [], {"a"})
  }

  lemma OneQueued(id: DeliveryId)
    ensures var queues: seq<seq<DeliveryId>> := [[]];
            queues[0 := queues[0] + [id]] == [[id]]
  {
    var none: seq<DeliveryId> := [];
    assert none + [id] == [id];
  }

  lemma OneStep(x: Shard, a: Action, rest: seq<Action>)
    requires Inv(x) && Enabled(x, a) && Inv(Apply(x, a)) && IsRun(Apply(x, a), rest)
    ensures IsRun(x, [a] + rest) && Final(x, [a] + rest) == Final(Apply(x, a), rest)
  {
    hide Inv, Enabled, Apply;
    assert ([a] + rest)[1..] == rest;
  }

  // "a" is in the hand of the first consumer.
  function FirstHasIt(): Shard {
    Shard([[]], Some(0), {"a"}, Some(0), Some("a"), [], false, [], {"a"})
  }

  lemma FirstGetsIt()
    ensures Inv(START) && Enabled(START, Subscribe) && Inv(Apply(START, Subscribe))
    ensures var x := Apply(START, Subscribe);
            && Enabled(x, Message("a")) && Inv(Apply(x, Message("a")))
            && Enabled(Apply(x, Message("a")), Next) && Apply(Apply(x, Message("a")), Next) == FirstHasIt()
  {
    var x := Apply(START, Subscribe);
    assert x.queues == [[]];
    OneQueued("a");
    var y := Apply(x, Message("a"));
    assert y.queues == [["a"]] && ["a"][1..] == [];
    assert Apply(y, Next).queues == [[]];
  }

  lemma SecondSubscribes()
    ensures var x, end := FirstHasIt(), [Cancel, Subscribe];
            Inv(x) && IsRun(x, end) && Final(x, end) == Resubscribed()
  {
    var x := FirstHasIt();
    var y := Apply(x, Cancel);
    assert y.unclosed == [0];
    OneStep(y, Subscribe, []);
    OneStep(x, Cancel, [Subscribe]);
    assert [Cancel] + [Subscribe] == [Cancel, Subscribe];
    assert [Subscribe] + [] == [Subscribe];
  }

  lemma ResubscribedIsReached()
    ensures var actions := [Subscribe, Message("a"), Next, Cancel, Subscribe];
            Inv(START) && IsRun(START, actions) && Final(START, actions) == Resubscribed()
  {
    hide Inv, Enabled, Apply, IsRun, Final;
    FirstGetsIt();
    SecondSubscribes();
    var x, end := Apply(START, Subscribe), [Cancel, Subscribe];
    OneStep(Apply(x, Message("a")), Next, end);
    OneStep(x, Message("a"), [Next] + end);
    OneStep(START, Subscribe, [Message("a")] + ([Next] + end));
    assert [Subscribe, Message("a"), Next, Cancel, Subscribe] == [Subscribe] + ([Message("a")] + ([Next] + end));
  }

  /** If the first subscription ends now, the second consumer gets nothing any more; if it ends after the next
      message has come, the acknowledgement of that message raises. */
  lemma LateEndHarms(id: DeliveryId)
    requires id != "a"
    ensures var x := Resubscribed();
            && Inv(x) && Enabled(x, LateEnd(0)) && Waits(x) == []
            && Inv(Apply(x, LateEnd(0))) && IsCutOff(Apply(x, LateEnd(0)))
            && IsRun(x, [Message(id), LateEnd(0), Next]) && Enabled(Final(x, [Message(id), LateEnd(0), Next]), Ack)
            && Apply(Final(x, [Message(id), LateEnd(0), Next]), Ack).failed
  {
    var x := Resubscribed();
    var x1 := Apply(x, Message(id));
    OneQueued(id);
    assert x1.queues == [[id]];
    var x2 := Apply(x1, LateEnd(0));
    ThreeSteps(x, Message(id), LateEnd(0), Next);
  }
}
