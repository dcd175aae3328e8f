/** Nothing is stuck in the outbox: one worker alone gets every event published whose claim has run out. */
module OutboxProgress {
  import opened Common
  import opened Wrappers
  import opened Sequences
  import opened Outbox
  import opened OutboxProtocol

  // ----- A round: claim a batch and deliver all of it -----

  function DeliverAll(w: nat, n: nat, at: Time): seq<Action> {
    if n == 0 then [Return(w)] else [Publish(w, Delivered), Mark(w, at)] + DeliverAll(w, n - 1, at)
  }

  function Round(w: nat, claimId: ClaimId, now: Time, limit: nat, picked: seq<EventId>): seq<Action> {
    [ClaimBatch(w, claimId, now, now + 30, limit, {}, picked)] + DeliverAll(w, |picked|, now)
  }

  /** The rows with a claimed batch published. */
  function PublishedRows(rows: OutboxTable, batch: seq<EventId>, at: Time): OutboxTable {
    map e | e in rows ::
      if e in batch then rows[e].(publishedAt := Some(at), claimId := None, claimedUntil := None) else rows[e]
  }

  /** The worker holds the claims of all it has to do. */
  predicate HoldsBatch(sys: System, w: nat) {
    && IsBusy(sys, w) && sys.workers[w].stage.ToPublish? && Distinct(sys.workers[w].todo)
    && forall e :: e in sys.workers[w].todo ==>
         e in sys.rows && sys.rows[e].claimId == Some(sys.workers[w].claimId) && sys.rows[e].publishedAt.None?
  }

  lemma TwoSteps(sys: System, a: Action, b: Action, rest: seq<Action>)
    requires Enabled(sys, a) && Enabled(Apply(sys, a), b) && IsRun(Apply(Apply(sys, a), b), rest)
    ensures IsRun(sys, [a, b] + rest) && Final(sys, [a, b] + rest) == Final(Apply(Apply(sys, a), b), rest)
  {
    hide Enabled, Apply;
    assert ([a, b] + rest)[1..] == [b] + rest && ([b] + rest)[1..] == rest;
  }

  lemma DeliverFirst(sys: System, w: nat, at: Time)
    requires HoldsBatch(sys, w) && sys.workers[w].todo != []
    ensures Enabled(sys, Publish(w, Delivered)) && Enabled(Apply(sys, Publish(w, Delivered)), Mark(w, at))
    ensures var e, rest := sys.workers[w].todo[0], sys.workers[w].todo[1..];
            var sys' := Apply(Apply(sys, Publish(w, Delivered)), Mark(w, at));
            && HoldsBatch(sys', w) && sys'.workers[w].todo == rest
            && sys'.workers == sys.workers[w := sys'.workers[w]]
            && sys'.rows == PublishedRows(sys.rows, [e], at)
            && sys'.log == sys.log + [e] && sys'.usedClaims == sys.usedClaims
  {
  }

  lemma PublishedSplit(rows: OutboxTable, batch: seq<EventId>, at: Time)
    requires batch != []
    ensures PublishedRows(rows, batch, at) == PublishedRows(PublishedRows(rows, [batch[0]], at), batch[1..], at)
  {
    assert batch == [batch[0]] + batch[1..];
  }

  lemma NothingLeft(sys: System, w: nat, at: Time)
    requires HoldsBatch(sys, w) && sys.workers[w].todo == []
    ensures IsRun(sys, [Return(w)])
    ensures var f := Final(sys, [Return(w)]);
            && f.workers == sys.workers[w := Idle] && f.usedClaims == sys.usedClaims
            && f.rows == PublishedRows(sys.rows, [], at) == sys.rows && f.log == sys.log
  {
    assert [Return(w)][1..] == [];
  }

  lemma {:induction false} DeliverRest(sys: System, w: nat, at: Time)
    requires HoldsBatch(sys, w)
    ensures var todo := sys.workers[w].todo;
            var actions := DeliverAll(w, |todo|, at);
            && IsRun(sys, actions)
            && var f := Final(sys, actions);
               && f.workers == sys.workers[w := Idle] && f.usedClaims == sys.usedClaims
               && f.rows == PublishedRows(sys.rows, todo, at) && f.log == sys.log + todo
    decreases |sys.workers[w].todo|
  {
    assert IsBusy(sys, w);
    hide HoldsBatch, Enabled, Apply, PublishedRows, IsRun, Final;
    var todo := sys.workers[w].todo;
    if todo == [] {
      NothingLeft(sys, w, at);
      assert sys.log + [] == sys.log;
    } else {
      DeliverFirst(sys, w, at);
      var sys' := Apply(Apply(sys, Publish(w, Delivered)), Mark(w, at));
      DeliverRest(sys', w, at);
      TwoSteps(sys, Publish(w, Delivered), Mark(w, at), DeliverAll(w, |todo| - 1, at));
      PublishedSplit(sys.rows, todo, at);
      assert sys.log + [todo[0]] + todo[1..] == sys.log + todo;
      assert sys'.workers[w := Idle] == sys.workers[w := Idle];
    }
  }

  /** Whatever batch the database gives an idle worker, the round is possible, publishes exactly the batch,
      in order, and leaves every other row and worker alone. */
  lemma RoundDelivers(sys: System, w: nat, claimId: ClaimId, now: Time, limit: nat, picked: seq<EventId>)
    requires Enabled(sys, ClaimBatch(w, claimId, now, now + 30, limit, {}, picked))
    ensures var actions := Round(w, claimId, now, limit, picked);
            && IsRun(sys, actions)
            && var f := Final(sys, actions);
               && f.workers == sys.workers && f.usedClaims == sys.usedClaims + {claimId}
               && f.rows == PublishedRows(Claim(sys.rows, picked, claimId, now + 30), picked, now)
               && f.log == sys.log + picked
  {
    var a := ClaimBatch(w, claimId, now, now + 30, limit, {}, picked);
    var sys' := Apply(sys, a);
    assert HoldsBatch(sys', w);
    DeliverRest(sys', w, now);
    assert Round(w, claimId, now, limit, picked)[1..] == DeliverAll(w, |picked|, now);
    assert sys'.workers[w := Idle] == sys.workers;
  }

  // ----- Each round brings an event nearer -----

  /** The events that are eligible and occurred no later than `e`, itself included. */
  function Ahead(rows: OutboxTable, e: EventId, now: Time): set<EventId>
    requires e in rows
  {
    set x | x in rows && Eligible(rows[x], now) && rows[x].occurredAt <= rows[e].occurredAt
  }

  /** A batch of unlocked rows contains an eligible event, or it is full of events ahead of it. So it
      contains every event that has fewer than `limit` others ahead. */
  lemma BatchHasEventOrIsAhead(rows: OutboxTable, e: EventId, now: Time, limit: nat, picked: seq<EventId>)
    requires e in rows && Eligible(rows[e], now) && EarliestEligible(rows, {}, now, limit, picked)
    ensures e in picked || (|SetOf(picked)| == |picked| == limit && SetOf(picked) <= Ahead(rows, e, now) - {e})
    ensures |Ahead(rows, e, now)| <= limit ==> e in picked
  {
    DistinctCount(picked);
    if e !in picked {
      SubsetSize(SetOf(picked), Ahead(rows, e, now) - {e});
    }
  }

  lemma {:induction false} SubsetSize(a: set<EventId>, b: set<EventId>)
    requires a <= b
    ensures |a| <= |b| && |b - a| == |b| - |a|
  {
    assert b == a + (b - a);
  }

  lemma RoundGetsCloser(rows: OutboxTable, e: EventId, claimId: ClaimId, now: Time, limit: nat, picked: seq<EventId>)
    requires e in rows && Eligible(rows[e], now) && EarliestEligible(rows, {}, now, limit, picked) && e !in picked
    ensures var rows' := PublishedRows(Claim(rows, picked, claimId, now + 30), picked, now);
            && e in rows' && rows'[e] == rows[e]
            && |Ahead(rows', e, now)| == |Ahead(rows, e, now)| - limit
  {
    BatchHasEventOrIsAhead(rows, e, now, limit, picked);
    var rows' := PublishedRows(Claim(rows, picked, claimId, now + 30), picked, now);
    assert Ahead(rows', e, now) == Ahead(rows, e, now) - SetOf(picked);
    SubsetSize(SetOf(picked), Ahead(rows, e, now));
  }

  // ----- The database always has an answer -----

  lemma {:induction false} BatchExists(rows: OutboxTable, now: Time, limit: nat)
    ensures exists picked :: EarliestEligible(rows, {}, now, limit, picked)
  {
    if limit == 0 {
      assert EarliestEligible(rows, {}, now, 0, []);
    } else {
      BatchExists(rows, now, limit - 1);
      var picked :| EarliestEligible(rows, {}, now, limit - 1, picked);
      var rest := set e | e in rows && Eligible(rows[e], now) && e !in picked;
      if rest == {} {
        assert forall e :: e in rows && Eligible(rows[e], now) && e !in picked ==> e in rest;
        assert EarliestEligible(rows, {}, now, limit, picked);
      } else {
        EarliestExists(rows, rest);
        var e :| IsEarliest(rows, e, rest);
        assert |picked| == limit - 1 && forall p :: p in picked ==> rows[p].occurredAt <= rows[e].occurredAt;
        PickOneMore(rows, picked, e);
        assert forall x :: x in rows && Eligible(rows[x], now) && x !in picked ==> x in rest;
        assert EarliestEligible(rows, {}, now, limit, picked + [e]);
      }
    }
  }

  // ----- Progress -----

  /** Only this worker moves, it claims with this clock and limit from rows that nobody has locked, and
      nothing fails. */
  predicate Alone(actions: seq<Action>, w: nat, now: Time, limit: nat) {
    forall a :: a in actions ==>
      match a
      case ClaimBatch(v, _, t, _, n, locked, _) => v == w && t == now && n == limit && locked == {}
      case Publish(v, outcome) => v == w && outcome.Delivered?
      case Mark(v, _) => v == w
      case Return(v) => v == w
      case _ => false
  }

  lemma {:induction false} DeliverAllIsAlone(w: nat, n: nat, at: Time, now: Time, limit: nat)
    ensures Alone(DeliverAll(w, n, at), w, now, limit)
  {
    if n != 0 {
      DeliverAllIsAlone(w, n - 1, at, now, limit);
    }
  }

  lemma {:induction false} RunsCompose(sys: System, actions: seq<Action>, more: seq<Action>)
    requires IsRun(sys, actions) && IsRun(Final(sys, actions), more)
    ensures IsRun(sys, actions + more) && Final(sys, actions + more) == Final(Final(sys, actions), more)
    decreases |actions|
  {
    hide Apply, Enabled;
    if actions == [] {
      assert actions + more == more;
    } else {
      assert (actions + more)[1..] == actions[1..] + more;
      RunsCompose(Apply(sys, actions[0]), actions[1..], more);
    }
  }

  ghost predicate CanPublish(sys: System, e: EventId, w: nat, now: Time, limit: nat) {
    exists actions :: IsRun(sys, actions) && Alone(actions, w, now, limit) && IsPublished(Final(sys, actions), e)
  }

  predicate IsPublished(sys: System, e: EventId) {
    e in sys.rows && sys.rows[e].publishedAt.Some? && e in sys.log
  }

  lemma CanPublishAfter(sys: System, round: seq<Action>, e: EventId, w: nat, now: Time, limit: nat)
    requires IsRun(sys, round) && Alone(round, w, now, limit)
    requires IsPublished(Final(sys, round), e) || CanPublish(Final(sys, round), e, w, now, limit)
    ensures CanPublish(sys, e, w, now, limit)
  {
    hide IsPublished;
    if !IsPublished(Final(sys, round), e) {
      var f := Final(sys, round);
      var more :| IsRun(f, more) && Alone(more, w, now, limit) && IsPublished(Final(f, more), e);
      RunsCompose(sys, round, more);
      assert Alone(round + more, w, now, limit);
    }
  }

  /** In any state, whatever the other workers hold, and with any positive limit: an idle worker alone gets
      every event published that is unpublished and whose claim, if it has one, has run out by its clock. Each
      round delivers the event or `limit` events ahead of it. */
  lemma {:induction false} UnpublishedCanBePublished(sys: System, e: EventId, w: nat, now: Time, limit: nat)
    requires w < |sys.workers| && sys.workers[w].Idle? && 0 < limit
    requires e in sys.rows && sys.rows[e].publishedAt.None?
    requires sys.rows[e].claimedUntil.None? || sys.rows[e].claimedUntil.value <= now
    ensures CanPublish(sys, e, w, now, limit)
    decreases |Ahead(sys.rows, e, now)|
  {
    BatchExists(sys.rows, now, limit);
    var picked :| EarliestEligible(sys.rows, {}, now, limit, picked);
    UnusedString(sys.usedClaims);
    var claimId: ClaimId :| claimId !in sys.usedClaims;
    var round := Round(w, claimId, now, limit, picked);
    RoundDelivers(sys, w, claimId, now, limit, picked);
    DeliverAllIsAlone(w, |picked|, now, now, limit);
    var f := Final(sys, round);
    if e !in picked {
      RoundGetsCloser(sys.rows, e, claimId, now, limit, picked);
      hide IsRun, Final, PublishedRows, Ahead, EarliestEligible, CanPublish;
      UnpublishedCanBePublished(f, e, w, now, limit);
    }
    hide CanPublish, IsRun, Final, EarliestEligible;
    CanPublishAfter(sys, round, e, w, now, limit);
  }

  // ----- Claims that nobody finishes -----

  /** Some claim at this time can contain the event. */
  ghost predicate CanBeClaimed(sys: System, e: EventId, w: nat, claimId: ClaimId, now: Time, until: Time, limit: nat) {
    exists locked, picked :: e in picked && Enabled(sys, ClaimBatch(w, claimId, now, until, limit, locked, picked))
  }

  /** What an idle worker can claim, in the columns of the row: exactly what is not published and has no claim
      or one that has run out; and nothing that another transaction has locked. */
  lemma ClaimableExactlyWhenFree(sys: System, e: EventId, w: nat, claimId: ClaimId, now: Time, until: Time, limit: nat)
    requires w < |sys.workers| && sys.workers[w].Idle? && claimId !in sys.usedClaims && 0 < limit && e in sys.rows
    ensures var row := sys.rows[e];
            CanBeClaimed(sys, e, w, claimId, now, until, limit) <==>
              row.publishedAt.None? && (row.claimedUntil.None? || row.claimedUntil.value <= now)
    ensures forall locked, picked :: Enabled(sys, ClaimBatch(w, claimId, now, until, limit, locked, picked)) ==>
              forall x :: x in picked ==> x !in locked
  {
    if Eligible(sys.rows[e], now) {
      var locked := sys.rows.Keys - {e};
      assert EarliestEligible(sys.rows, locked, now, limit, [e]);
      assert e in [e] && Enabled(sys, ClaimBatch(w, claimId, now, until, limit, locked, [e]));
    }
  }

  /** A worker claims a batch and then fails, with nothing of it done: its events can be claimed again at
      exactly the times from the end of the claim on, and any idle worker can then get each of them
      published, alone. */
  lemma AbandonedIsTakenOver(sys: System, claim: Action, e: EventId, w: nat, claimId: ClaimId, now: Time, until: Time,
                             limit: nat)
    requires claim.ClaimBatch? && Enabled(sys, claim) && e in claim.picked
    requires w < |sys.workers| && (w == claim.w || sys.workers[w].Idle?) && 0 < limit
    requires claimId !in sys.usedClaims + {claim.claimId}
    ensures Enabled(Apply(sys, claim), Abort(claim.w))
    ensures var left := Apply(Apply(sys, claim), Abort(claim.w));
            && (CanBeClaimed(left, e, w, claimId, now, until, limit) <==> claim.until <= now)
            && (claim.until <= now ==> CanPublish(left, e, w, now, limit))
  {
    var left := Apply(Apply(sys, claim), Abort(claim.w));
    assert left.rows[e].claimedUntil == Some(claim.until) && left.rows[e].publishedAt.None?;
    assert left.workers[w].Idle?;
    hide CanPublish, EarliestEligible, Eligible, Apply;
    ClaimableExactlyWhenFree(left, e, w, claimId, now, until, limit);
    if claim.until <= now {
      UnpublishedCanBePublished(left, e, w, now, limit);
    }
  }

  /** The same wherever a worker fails: what its claim still stands on is published by any idle worker whose
      clock has reached the end of the claim. */
  lemma AbandonedCanBePublished(sys: System, v: nat, e: EventId, w: nat, now: Time, limit: nat)
    requires IsBusy(sys, v) && w < |sys.workers| && (w == v || sys.workers[w].Idle?) && 0 < limit
    requires e in sys.rows && sys.rows[e].claimId == Some(sys.workers[v].claimId) && sys.rows[e].publishedAt.None?
    requires sys.rows[e].claimedUntil.Some? && sys.rows[e].claimedUntil.value <= now
    ensures Enabled(sys, Abort(v)) && CanPublish(Apply(sys, Abort(v)), e, w, now, limit)
  {
    UnpublishedCanBePublished(Apply(sys, Abort(v)), e, w, now, limit);
  }
}
