/** A single outbox worker that meets no failure and no crash. */
module OutboxCalm {
  import opened Common
  import opened Wrappers
  import opened Sequences
  import opened Outbox
  import opened OutboxProtocol

  predicate Calm(sys: System, a: Action) {
    && |sys.workers| == 1
    && !a.Abort?
    && (a.Publish? ==> a.outcome.Delivered?)
    && (a.ClaimBatch? ==> a.locked == {})
  }

  /** Rows are added in the order in which their events occurred. */
  predicate AddsInOrder(sys: System, a: Action) {
    a.Add? ==> forall e :: e in sys.rows ==> sys.rows[e].occurredAt <= a.occurredAt
  }

  predicate IsCalmRun(sys: System, actions: seq<Action>)
    decreases |actions|
  {
    actions == [] ||
    (Enabled(sys, actions[0]) && Calm(sys, actions[0]) && IsCalmRun(Apply(sys, actions[0]), actions[1..]))
  }

  predicate IsOrderedRun(sys: System, actions: seq<Action>)
    decreases |actions|
  {
    actions == [] ||
    (Enabled(sys, actions[0]) && AddsInOrder(sys, actions[0]) && IsOrderedRun(Apply(sys, actions[0]), actions[1..]))
  }

  lemma {:induction false} CalmRunIsRun(sys: System, actions: seq<Action>)
    requires IsCalmRun(sys, actions)
    ensures IsRun(sys, actions)
    decreases |actions|
  {
    if actions != [] {
      CalmRunIsRun(Apply(sys, actions[0]), actions[1..]);
    }
  }

  /** The events sent so far, then those of the batch that wait. */
  function Order(sys: System): seq<EventId>
    requires |sys.workers| == 1
  {
    sys.log + Waiting(sys.workers[0])
  }

  /** The event that has been sent but not yet marked. */
  predicate InHand(sys: System, e: EventId)
    requires |sys.workers| == 1
  {
    var wk := sys.workers[0];
    wk.Busy? && wk.stage.ToMarkPublished? && wk.todo != [] && wk.todo[0] == e
  }

  predicate CalmInv(sys: System) {
    && |sys.workers| == 1
    && Distinct(Order(sys))
    && (forall e :: e in Order(sys) ==> e in sys.rows)
    && (sys.workers[0].Busy? ==>
          && !sys.workers[0].stage.ToMarkFailed?
          && (sys.workers[0].stage.ToMarkPublished? ==> sys.workers[0].todo != [] && sys.workers[0].todo[0] in sys.log))
    && (forall e :: e in sys.rows ==>
          var row := sys.rows[e];
          && (row.publishedAt.Some? <==> e in sys.log && !InHand(sys, e))
          && (row.publishedAt.None? ==> (row.claimId.Some? <==> row.claimedUntil.Some?))
          && (row.publishedAt.None? && e in Order(sys) ==> row.claimId == Some(Claimant(sys)))
          && (e !in Order(sys) ==> row.claimId.None? && row.attemptCount == 0)
          && (e in Order(sys) ==> row.attemptCount == 1))
  }

  function Claimant(sys: System): ClaimId
    requires |sys.workers| == 1
  {
    if sys.workers[0].Busy? then sys.workers[0].claimId else ""
  }

  predicate Sorted(sys: System)
    requires |sys.workers| == 1
  {
    AllIn(sys.rows, Order(sys)) && InOrder(sys.rows, Order(sys)) && NoneEarlier(sys.rows, Order(sys))
  }

  lemma CalmClaim(sys: System, a: Action)
    requires CalmInv(sys) && a.ClaimBatch? && Enabled(sys, a) && Calm(sys, a)
    ensures CalmInv(Apply(sys, a))
  {
    assert a.w == 0 && Order(sys) == sys.log;
    assert Order(Apply(sys, a)) == sys.log + a.picked;
    forall e | e in a.picked ensures e !in sys.log {
    }
  }

  lemma CalmPublish(sys: System, a: Action)
    requires CalmInv(sys) && a.Publish? && Enabled(sys, a) && Calm(sys, a)
    ensures CalmInv(Apply(sys, a)) && Order(Apply(sys, a)) == Order(sys)
  {
    var wk := sys.workers[0];
    assert wk.todo == [wk.todo[0]] + wk.todo[1..];
    assert Order(Apply(sys, a)) == Order(sys);
    assert Order(sys)[|sys.log|] == wk.todo[0];
    assert wk.todo[0] in Order(sys);
    forall e | e in sys.log ensures e != wk.todo[0] {
      var i :| 0 <= i < |sys.log| && sys.log[i] == e;
      assert Order(sys)[i] == e;
    }
  }

  lemma CalmMark(sys: System, a: Action)
    requires CalmInv(sys) && a.Mark? && Enabled(sys, a) && Calm(sys, a)
    ensures CalmInv(Apply(sys, a)) && Order(Apply(sys, a)) == Order(sys)
  {
    assert Order(Apply(sys, a)) == Order(sys);
    assert sys.workers[0].todo[0] in Order(sys);
  }

  lemma CalmAdd(sys: System, a: Action)
    requires CalmInv(sys) && a.Add? && Enabled(sys, a) && Calm(sys, a)
    ensures CalmInv(Apply(sys, a)) && Order(Apply(sys, a)) == Order(sys)
  {
  }

  lemma CalmReturn(sys: System, a: Action)
    requires CalmInv(sys) && a.Return? && Enabled(sys, a) && Calm(sys, a)
    ensures CalmInv(Apply(sys, a)) && Order(Apply(sys, a)) == Order(sys)
  {
    assert Order(Apply(sys, a)) == Order(sys);
  }

  lemma CalmStep(sys: System, a: Action)
    requires CalmInv(sys) && Enabled(sys, a) && Calm(sys, a)
    ensures CalmInv(Apply(sys, a))
    ensures Order(Apply(sys, a)) == if a.ClaimBatch? then Order(sys) + a.picked else Order(sys)
  {
    match a
    case Add(_, _) => CalmAdd(sys, a);
    case ClaimBatch(_, _, _, _, _, _, _) =>
      CalmClaim(sys, a);
      assert Order(sys) == sys.log;
    case Publish(_, _) => CalmPublish(sys, a);
    case Mark(_, _) => CalmMark(sys, a);
    case Abort(_) =>
    case Return(_) => CalmReturn(sys, a);
  }

  lemma {:induction false} CalmRun(sys: System, actions: seq<Action>)
    requires CalmInv(sys) && IsCalmRun(sys, actions)
    ensures IsRun(sys, actions) && CalmInv(Final(sys, actions))
    decreases |actions|
  {
    CalmRunIsRun(sys, actions);
    if actions != [] {
      CalmStep(sys, actions[0]);
      CalmRun(Apply(sys, actions[0]), actions[1..]);
    }
  }

  /** With a single worker, no failures and no crashes, the broker receives every event at most once;
      and whenever the worker is between batches it has received exactly the claimed ones. */
  lemma ExactlyOnce(sys: System, actions: seq<Action>, e: EventId)
    requires Init(sys) && |sys.workers| == 1 && IsCalmRun(sys, actions)
    ensures IsRun(sys, actions)
    ensures Count(Final(sys, actions).log, e) <= 1
    ensures |Final(sys, actions).workers| == 1
    ensures Final(sys, actions).workers[0].Idle? && e in Final(sys, actions).rows ==>
      Count(Final(sys, actions).log, e) == Final(sys, actions).rows[e].attemptCount
  {
    CalmRun(sys, actions);
    var f := Final(sys, actions);
    forall i, j | 0 <= i < j < |f.log| ensures f.log[i] != f.log[j] {
      assert Order(f)[i] == f.log[i] && Order(f)[j] == f.log[j];
    }
    CountDistinct(f.log, e);
    assert f.workers[0].Idle? ==> Order(f) == f.log;
  }

  // ----- Order of delivery -----

  lemma OccurrencesStay(sys: System, a: Action, e: EventId)
    requires Enabled(sys, a) && e in sys.rows
    ensures e in Apply(sys, a).rows && Apply(sys, a).rows[e].occurredAt == sys.rows[e].occurredAt
  {
  }

  predicate AllIn(rows: OutboxTable, events: seq<EventId>) {
    forall e :: e in events ==> e in rows
  }

  /** Every event of `first` occurred no later than every one of `second`. */
  predicate Before(rows: OutboxTable, first: seq<EventId>, second: seq<EventId>)
    requires AllIn(rows, first) && AllIn(rows, second)
  {
    forall x, e :: x in first && e in second ==> rows[x].occurredAt <= rows[e].occurredAt
  }

  /** No event outside the sequence occurred earlier than one in it. */
  predicate NoneEarlier(rows: OutboxTable, events: seq<EventId>)
    requires AllIn(rows, events)
  {
    forall e, x :: e in rows && e !in events && x in events ==> rows[x].occurredAt <= rows[e].occurredAt
  }

  predicate SameOccurrences(rows: OutboxTable, rows': OutboxTable) {
    rows'.Keys == rows.Keys && forall e :: e in rows ==> rows'[e].occurredAt == rows[e].occurredAt
  }

  lemma InOrderAppend(rows: OutboxTable, first: seq<EventId>, second: seq<EventId>)
    requires AllIn(rows, first) && AllIn(rows, second)
    requires InOrder(rows, first) && InOrder(rows, second) && Before(rows, first, second)
    ensures AllIn(rows, first + second) && InOrder(rows, first + second)
  {
    var all := first + second;
    forall i, j | 0 <= i < j < |all| ensures rows[all[i]].occurredAt <= rows[all[j]].occurredAt {
      if i < |first| <= j {
        assert all[i] in first && all[j] in second;
      }
    }
  }

  lemma NoneEarlierAppend(rows: OutboxTable, first: seq<EventId>, second: seq<EventId>)
    requires AllIn(rows, first) && AllIn(rows, second) && AllIn(rows, first + second)
    requires NoneEarlier(rows, first)
    requires forall e, x :: e in rows && e !in first && e !in second && x in second ==>
               rows[x].occurredAt <= rows[e].occurredAt
    ensures NoneEarlier(rows, first + second)
  {
  }

  lemma SameOrder(rows: OutboxTable, rows': OutboxTable, events: seq<EventId>)
    requires SameOccurrences(rows, rows') && AllIn(rows, events)
    requires InOrder(rows, events) && NoneEarlier(rows, events)
    ensures AllIn(rows', events) && InOrder(rows', events) && NoneEarlier(rows', events)
  {
  }

  // With a single worker a batch has unsent events only, and leaves out none that is earlier.
  lemma ClaimedAreUnsent(sys: System, a: Action)
    requires CalmInv(sys) && Sorted(sys) && a.ClaimBatch? && Enabled(sys, a) && Calm(sys, a)
    ensures AllIn(sys.rows, a.picked) && InOrder(sys.rows, a.picked)
    ensures forall e :: e in a.picked ==> e !in Order(sys)
    ensures forall e, x :: e in sys.rows && e !in Order(sys) && e !in a.picked && x in a.picked ==>
              sys.rows[x].occurredAt <= sys.rows[e].occurredAt
    ensures SameOccurrences(sys.rows, Apply(sys, a).rows)
  {
    assert Order(sys) == sys.log;
    forall e | e in sys.rows && e !in sys.log ensures Eligible(sys.rows[e], a.now) {
    }
  }

  lemma SortedClaim(sys: System, a: Action)
    requires CalmInv(sys) && Sorted(sys) && a.ClaimBatch? && Enabled(sys, a) && Calm(sys, a)
    requires |Apply(sys, a).workers| == 1 && Order(Apply(sys, a)) == Order(sys) + a.picked
    ensures Sorted(Apply(sys, a))
  {
    assert |sys.workers| == 1;
    hide CalmInv, Order, Calm, Enabled, Apply, InOrder, NoneEarlier, SameOccurrences;
    var sent, picked := Order(sys), a.picked;
    ClaimedAreUnsent(sys, a);
    assert Before(sys.rows, sent, picked) by { UnsentIsLater(sys.rows, sent, picked); }
    InOrderAppend(sys.rows, sent, picked);
    NoneEarlierAppend(sys.rows, sent, picked);
    SameOrder(sys.rows, Apply(sys, a).rows, sent + picked);
  }

  lemma UnsentIsLater(rows: OutboxTable, sent: seq<EventId>, picked: seq<EventId>)
    requires AllIn(rows, sent) && AllIn(rows, picked) && NoneEarlier(rows, sent)
    requires forall e :: e in picked ==> e !in sent
    ensures Before(rows, sent, picked)
  {
  }

  lemma SortedStep(sys: System, a: Action)
    requires CalmInv(sys) && Sorted(sys) && Enabled(sys, a) && Calm(sys, a) && AddsInOrder(sys, a)
    ensures CalmInv(Apply(sys, a)) && Sorted(Apply(sys, a))
  {
    CalmStep(sys, a);
    if a.ClaimBatch? {
      SortedClaim(sys, a);
    } else {
      var sys' := Apply(sys, a);
      hide CalmInv, Order;
      forall e | e in sys.rows ensures e in sys'.rows && sys'.rows[e].occurredAt == sys.rows[e].occurredAt {
        OccurrencesStay(sys, a, e);
      }
      forall e | e in Order(sys) ensures e in sys.rows {
      }
      hide Enabled;
    }
  }

  lemma {:induction false} SortedRun(sys: System, actions: seq<Action>)
    requires CalmInv(sys) && Sorted(sys) && IsCalmRun(sys, actions) && IsOrderedRun(sys, actions)
    ensures IsRun(sys, actions) && CalmInv(Final(sys, actions)) && Sorted(Final(sys, actions))
    decreases |actions|
  {
    CalmRunIsRun(sys, actions);
    if actions != [] {
      SortedStep(sys, actions[0]);
      SortedRun(Apply(sys, actions[0]), actions[1..]);
    }
  }

  /** If moreover rows are added in order of occurrence, the whole log is in that order, across
      batches of any size. */
  lemma LogIsOrdered(sys: System, actions: seq<Action>)
    requires Init(sys) && |sys.workers| == 1 && IsCalmRun(sys, actions) && IsOrderedRun(sys, actions)
    ensures IsRun(sys, actions)
    ensures var f := Final(sys, actions);
            && (forall e :: e in f.log ==> e in f.rows)
            && InOrder(f.rows, f.log)
  {
    SortedRun(sys, actions);
    var f := Final(sys, actions);
    forall e | e in f.log ensures e in f.rows {
      assert e in Order(f);
    }
    forall i, j | 0 <= i < j < |f.log| ensures f.rows[f.log[i]].occurredAt <= f.rows[f.log[j]].occurredAt {
      assert Order(f)[i] == f.log[i] && Order(f)[j] == f.log[j];
    }
  }
}
