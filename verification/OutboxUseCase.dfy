/** The outbox repository and the use case that delivers a batch, as one worker runs them. */
module OutboxUseCase {
  import opened Common
  import opened Wrappers
  import opened Sequences
  import opened Outbox

  class SqlAlchemyOutboxRepository {
    var rows: OutboxTable

    constructor ()
      ensures rows == map[]
    {
      rows := map[];
    }

    method Add(e: EventId, occurredAt: Time)
      requires e !in rows
      modifies this
      ensures rows == old(rows)[e := OutboxRow(occurredAt, None, None, 0, None)]
    {
      rows := rows[e := NewRow(occurredAt)];
    }

    /** `SELECT ... ORDER BY occurred_at LIMIT limit FOR UPDATE SKIP LOCKED`; `locked` are the rows that other
        transactions have locked. */
    method SelectEligible(locked: set<EventId>, now: Time, limit: nat) returns (picked: seq<EventId>)
      ensures EarliestEligible(rows, locked, now, limit, picked)
      ensures forall e :: e in picked ==>
                && e in rows && e !in locked && rows[e].publishedAt.None?
                && (rows[e].claimedUntil.None? || rows[e].claimedUntil.value <= now)
      ensures forall e | e in rows && e !in locked && e !in picked && rows[e].publishedAt.None?
                && (rows[e].claimedUntil.None? || rows[e].claimedUntil.value <= now) ::
                |picked| == limit && forall p :: p in picked ==> rows[p].occurredAt <= rows[e].occurredAt
    {
      picked := [];
      var rest := set e | e in rows && e !in locked && Eligible(rows[e], now);
      while rest != {} && |picked| < limit
        invariant forall e :: e in rows && e !in locked && Eligible(rows[e], now) <==> e in rest || e in picked
        invariant forall e :: e in picked ==> e !in rest
        invariant |picked| <= limit && Distinct(picked) && InOrder(rows, picked)
        invariant forall p, r :: p in picked && r in rest ==> rows[p].occurredAt <= rows[r].occurredAt
        decreases |rest|
      {
        EarliestExists(rows, rest);
        var e :| e in rest && IsEarliest(rows, e, rest);
        PickOneMore(rows, picked, e);
        rest := rest - {e};
        picked := picked + [e];
      }
    }

    method ClaimPending(claimId: ClaimId, limit: nat, locked: set<EventId>, now: Time, until: Time)
      returns (events: seq<EventId>)
      modifies this
      ensures EarliestEligible(old(rows), locked, now, limit, events)
      ensures rows == Claim(old(rows), events, claimId, until)
      ensures forall e :: e in events ==>
                var row := old(rows)[e];
                rows[e] == OutboxRow(row.occurredAt, Some(claimId), Some(until), row.attemptCount + 1, None)
      ensures rows.Keys == old(rows).Keys && forall e :: e in rows && e !in events ==> rows[e] == old(rows)[e]
    {
      events := [];
      var picked := SelectEligible(locked, now, limit);
      for i := 0 to |picked|
        invariant events == picked[..i]
        invariant rows == Claim(old(rows), picked[..i], claimId, until)
      {
        assert picked[..i + 1] == picked[..i] + [picked[i]];
        ClaimOneMore(old(rows), picked[..i], picked[i], claimId, until);
        rows := rows[picked[i] := ClaimedRow(rows[picked[i]], claimId, until)];
        events := events + [picked[i]];
      }
      assert picked[..|picked|] == picked;
    }

    method MarkPublished(e: EventId, claimId: ClaimId, at: Time)
      modifies this
      ensures
        if e in old(rows) && old(rows)[e].claimId == Some(claimId) && old(rows)[e].publishedAt.None? then
          var row := old(rows)[e];
          rows == old(rows)[e := OutboxRow(row.occurredAt, None, None, row.attemptCount, Some(at))]
        else rows == old(rows)
      ensures rows == Outbox.MarkPublished(old(rows), e, claimId, at)
    {
      if e in rows && rows[e].claimId == Some(claimId) && rows[e].publishedAt.None? {
        rows := rows[e := rows[e].(publishedAt := Some(at), claimId := None, claimedUntil := None)];
      }
    }

    method MarkFailed(e: EventId, claimId: ClaimId)
      modifies this
      ensures
        if e in old(rows) && old(rows)[e].claimId == Some(claimId) then
          var row := old(rows)[e];
          rows == old(rows)[e := OutboxRow(row.occurredAt, None, None, row.attemptCount, row.publishedAt)]
        else rows == old(rows)
      ensures rows == Outbox.MarkFailed(old(rows), e, claimId)
    {
      if e in rows && rows[e].claimId == Some(claimId) {
        rows := rows[e := rows[e].(claimId := None, claimedUntil := None)];
      }
    }
  }

  lemma ClaimOneMore(rows: OutboxTable, done: seq<EventId>, e: EventId, claimId: ClaimId, until: Time)
    requires e in rows && e !in done
    ensures var rs := Claim(rows, done, claimId, until);
            e in rs && Claim(rows, done + [e], claimId, until) == rs[e := ClaimedRow(rs[e], claimId, until)]
  {
  }

  /** The message broker, as far as the publisher can tell. */
  class Broker {
    var log: seq<EventId>

    method Publish(e: EventId, outcome: Outcome) returns (raised: bool)
      modifies this
      ensures raised <==> !outcome.Delivered?
      ensures log == if outcome.RaisedBeforeDelivery? then old(log) else old(log) + [e]
    {
      if !outcome.RaisedBeforeDelivery? {
        log := log + [e];
      }
      raised := !outcome.Delivered?;
    }
  }

  /** How a transaction ends; one that raises may have been committed all the same. */
  datatype Transaction = Commits | RaisesCommitted | RaisesUncommitted

  /** What a call meets outside: the clock at its start and at its claim, the rows that others have locked then,
      how its claiming transaction ends, and for an event how its publication ends, how its marking transaction
      does, and the clock at that time. */
  datatype World = World(
    startedAt: Time, now: Time, locked: set<EventId>, claim: Transaction,
    publish: EventId -> Outcome, mark: EventId -> Transaction, markedAt: EventId -> Time)

  /** The events of a batch that reached the broker, in order. */
  function Reaching(events: seq<EventId>, world: World): seq<EventId> {
    if events == [] then []
    else
      var n := |events| - 1;
      Reaching(events[..n], world) + if world.publish(events[n]).RaisedBeforeDelivery? then [] else [events[n]]
  }

  lemma ReachingOneMore(events: seq<EventId>, world: World, e: EventId)
    ensures Reaching(events + [e], world) ==
      Reaching(events, world) + if world.publish(e).RaisedBeforeDelivery? then [] else [e]
  {
    assert (events + [e])[..|events|] == events;
  }

  datatype PublishOutboxEventsResult = PublishOutboxEventsResult(claimed: nat, published: nat, failed: nat)

  // An exception of one of the use case's own transactions.
  datatype TransactionError = TransactionFailed

  /** The events of a batch that were published without an exception, or those with one. */
  function ThatEnded(batch: seq<EventId>, world: World, delivered: bool): set<EventId> {
    set e | e in batch && world.publish(e).Delivered? == delivered
  }

  lemma NothingEnded(world: World)
    ensures ThatEnded([], world, true) == {} && ThatEnded([], world, false) == {}
  {
  }

  /** How many events of a claimed batch are tried: all, or those up to the first whose marking raises. */
  predicate TriedTo(batch: seq<EventId>, tried: nat, world: World) {
    && tried <= |batch|
    && (forall i :: 0 <= i < tried - 1 ==> world.mark(batch[i]).Commits?)
    && (tried < |batch| ==> 0 < tried && !world.mark(batch[tried - 1]).Commits?)
  }

  /** The row of an event of a batch in the end: with its claim still on it, or free, and then published
      exactly if the publisher did not raise. */
  predicate IsRowAfter(row: OutboxRow, row': OutboxRow, e: EventId, tried: bool, claimId: ClaimId, world: World) {
    if tried && !world.mark(e).RaisesUncommitted? then
      row' == OutboxRow(row.occurredAt, None, None, row.attemptCount + 1,
                        if world.publish(e).Delivered? then Some(world.markedAt(e)) else None)
    else
      row' == OutboxRow(row.occurredAt, Some(claimId), Some(world.startedAt + 30), row.attemptCount + 1, None)
  }

  /** What one call does to the table and the broker's log: it claims `batch` and tries the first `tried`
      events of it. */
  ghost predicate IsCall(rows: OutboxTable, rows': OutboxTable, log: seq<EventId>, log': seq<EventId>, limit: nat,
                         claimId: ClaimId, world: World, batch: seq<EventId>, tried: nat) {
    && (if world.claim.RaisesUncommitted? then batch == []
        else EarliestEligible(rows, world.locked, world.now, limit, batch))
    && (if world.claim.Commits? then TriedTo(batch, tried, world) else tried == 0)
    && rows'.Keys == rows.Keys
    && (forall i :: 0 <= i < |batch| ==>
          && batch[i] in rows
          && IsRowAfter(rows[batch[i]], rows'[batch[i]], batch[i], i < tried, claimId, world))
    && (forall e :: e in rows && e !in batch ==> rows'[e] == rows[e])
    && log' == log + Reaching(batch[..tried], world)
  }

  class PublishOutboxEventsUseCase {
    const outbox: SqlAlchemyOutboxRepository
    const broker: Broker

    constructor (outbox: SqlAlchemyOutboxRepository, broker: Broker)
      ensures this.outbox == outbox && this.broker == broker
    {
      this.outbox, this.broker := outbox, broker;
    }

    /** The claiming transaction; `claimed` is what it has claimed even if the caller sees only its exception. */
    method ClaimBatch(limit: nat, claimId: ClaimId, world: World)
      returns (result: Result<seq<EventId>, TransactionError>, ghost claimed: seq<EventId>)
      modifies outbox
      ensures if world.claim.RaisesUncommitted? then claimed == []
              else EarliestEligible(old(outbox.rows), world.locked, world.now, limit, claimed)
      ensures outbox.rows == Claim(old(outbox.rows), claimed, claimId, world.startedAt + 30)
      ensures result == if world.claim.Commits? then Success(claimed) else Failure(TransactionFailed)
    {
      if world.claim.RaisesUncommitted? {
        ClaimNothing(outbox.rows, claimId, world.startedAt + 30);
        return Failure(TransactionFailed), [];
      }
      var events := outbox.ClaimPending(claimId, limit, world.locked, world.now, world.startedAt + 30);
      claimed := events;
      result := if world.claim.Commits? then Success(events) else Failure(TransactionFailed);
    }

    /** One claimed event: publish it, then mark it failed or published, each in its own transaction.
        `marked` is false when that transaction raises. */
    method PublishOne(e: EventId, claimId: ClaimId, world: World) returns (raised: bool, marked: bool)
      requires e in outbox.rows && outbox.rows[e].claimId == Some(claimId) && outbox.rows[e].publishedAt.None?
      modifies outbox, broker
      ensures raised <==> !world.publish(e).Delivered?
      ensures marked <==> world.mark(e).Commits?
      ensures broker.log == if world.publish(e).RaisedBeforeDelivery? then old(broker.log) else old(broker.log) + [e]
      ensures
        if world.mark(e).RaisesUncommitted? then outbox.rows == old(outbox.rows)
        else
          var row := old(outbox.rows)[e];
          var at := if world.publish(e).Delivered? then Some(world.markedAt(e)) else None;
          outbox.rows == old(outbox.rows)[e := OutboxRow(row.occurredAt, None, None, row.attemptCount, at)]
    {
      raised := broker.Publish(e, world.publish(e));
      marked := world.mark(e).Commits?;
      if !world.mark(e).RaisesUncommitted? {
        if raised {
          outbox.MarkFailed(e, claimId);
        } else {
          outbox.MarkPublished(e, claimId, world.markedAt(e));
        }
      }
    }

    /** Claims a batch, then publishes and marks its events one by one, in order. An exception of a transaction
        ends the call, and the events not yet tried stay claimed. */
    method Execute(limit: nat, claimId: ClaimId, world: World)
      returns (result: Result<PublishOutboxEventsResult, TransactionError>, ghost batch: seq<EventId>, ghost tried: nat)
      modifies outbox, broker
      ensures IsCall(old(outbox.rows), outbox.rows, old(broker.log), broker.log, limit, claimId, world, batch, tried)
      ensures
        if world.claim.Commits? && forall e :: e in batch ==> world.mark(e).Commits? then
          && result.Success? && tried == |batch| == result.value.claimed
          && result.value.published == |ThatEnded(batch, world, true)|
          && result.value.failed == |ThatEnded(batch, world, false)|
        else result == Failure(TransactionFailed)
    {
      hide EarliestEligible, Claim, Underway, Reaching, IsCall, TriedTo, IsRowAfter, ThatEnded;
      ghost var rows0, log0 := outbox.rows, broker.log;
      result, tried := Failure(TransactionFailed), 0;
      var claim;
      claim, batch := ClaimBatch(limit, claimId, world);
      UnderwayStarts(rows0, log0, limit, claimId, world, batch);
      if claim.Failure? {
        CallEnds(rows0, outbox.rows, log0, broker.log, limit, claimId, world, batch, 0);
        return;
      }
      var events := claim.value;
      BatchIsDistinct(rows0, limit, world, events);
      var published, failed := 0, 0;
      assert ThatEnded([], world, true) == {} && ThatEnded([], world, false) == {} by { NothingEnded(world); }
      for i := 0 to |events|
        invariant tried == i && batch == events
        invariant forall j :: 0 <= j < i ==> world.mark(events[j]).Commits?
        invariant published == |ThatEnded(events[..i], world, true)|
        invariant failed == |ThatEnded(events[..i], world, false)|
        invariant Underway(rows0, outbox.rows, log0, broker.log, claimId, world, events, i)
      {
        ghost var rows, log := outbox.rows, broker.log;
        NextIsClaimed(rows0, rows, log0, log, claimId, world, events, i);
        OneMoreCounted(events, i, world, true);
        OneMoreCounted(events, i, world, false);
        var raised, marked := PublishOne(events[i], claimId, world);
        tried := i + 1;
        UnderwayGoesOn(rows0, rows, outbox.rows, log0, log, broker.log, claimId, world, events, i);
        if !marked {
          assert events[i] in batch;
          CallEnds(rows0, outbox.rows, log0, broker.log, limit, claimId, world, batch, tried)
            by { TriedToHere(batch, i, world); }
          return;
        }
        if raised {
          failed := failed + 1;
        } else {
          published := published + 1;
        }
      }
      assert events[..|events|] == events;
      CallEnds(rows0, outbox.rows, log0, broker.log, limit, claimId, world, batch, tried)
        by { TriedToEnd(batch, world); }
      result := Success(PublishOutboxEventsResult(|events|, published, failed));
    }
  }

  lemma ClaimNothing(rows: OutboxTable, claimId: ClaimId, until: Time)
    ensures Claim(rows, [], claimId, until) == rows
  {
  }

  lemma BatchIsDistinct(rows: OutboxTable, limit: nat, world: World, batch: seq<EventId>)
    requires EarliestEligible(rows, world.locked, world.now, limit, batch)
    ensures Distinct(batch)
  {
  }

  lemma TriedToHere(batch: seq<EventId>, i: nat, world: World)
    requires i < |batch| && forall j :: 0 <= j < i ==> world.mark(batch[j]).Commits?
    requires !world.mark(batch[i]).Commits?
    ensures TriedTo(batch, i + 1, world)
  {
  }

  lemma TriedToEnd(batch: seq<EventId>, world: World)
    requires forall j :: 0 <= j < |batch| ==> world.mark(batch[j]).Commits?
    ensures TriedTo(batch, |batch|, world)
  {
  }

  lemma OneMoreCounted(events: seq<EventId>, i: nat, world: World, delivered: bool)
    requires i < |events| && Distinct(events)
    ensures |ThatEnded(events[..i + 1], world, delivered)| ==
      |ThatEnded(events[..i], world, delivered)| + if world.publish(events[i]).Delivered? == delivered then 1 else 0
  {
    var e, before, after := events[i], ThatEnded(events[..i], world, delivered),
                            ThatEnded(events[..i + 1], world, delivered);
    assert events[..i + 1] == events[..i] + [e];
    assert e !in events[..i];
    hide Distinct;
    if world.publish(e).Delivered? == delivered {
      assert after == before + {e};
    } else {
      assert after == before;
    }
  }

  /** Rows and log while a batch is under way: the events tried, then claimed ones, the other rows as they were,
      and the log longer by what has reached the broker. */
  ghost predicate Underway(before: OutboxTable, rows: OutboxTable, log0: seq<EventId>, log: seq<EventId>,
                           claimId: ClaimId, world: World, batch: seq<EventId>, tried: nat) {
    && tried <= |batch| && Distinct(batch) && rows.Keys == before.Keys
    && (forall i :: 0 <= i < |batch| ==>
          && batch[i] in before && before[batch[i]].publishedAt.None?
          && IsRowAfter(before[batch[i]], rows[batch[i]], batch[i], i < tried, claimId, world))
    && (forall e :: e in before && e !in batch ==> rows[e] == before[e])
    && log == log0 + Reaching(batch[..tried], world)
  }

  lemma UnderwayStarts(rows: OutboxTable, log: seq<EventId>, limit: nat, claimId: ClaimId, world: World,
                       batch: seq<EventId>)
    requires batch == [] || EarliestEligible(rows, world.locked, world.now, limit, batch)
    ensures Underway(rows, Claim(rows, batch, claimId, world.startedAt + 30), log, log, claimId, world, batch, 0)
  {
    forall i | 0 <= i < |batch| ensures batch[i] in rows && rows[batch[i]].publishedAt.None? {
      assert batch[i] in batch;
    }
  }

  lemma NextIsClaimed(before: OutboxTable, rows: OutboxTable, log0: seq<EventId>, log: seq<EventId>,
                      claimId: ClaimId, world: World, batch: seq<EventId>, i: nat)
    requires Underway(before, rows, log0, log, claimId, world, batch, i) && i < |batch|
    ensures var e := batch[i];
            e in rows && rows[e].claimId == Some(claimId) && rows[e].publishedAt.None?
  {
  }

  lemma UnderwayGoesOn(before: OutboxTable, rows: OutboxTable, rows': OutboxTable, log0: seq<EventId>,
                       log: seq<EventId>, log': seq<EventId>, claimId: ClaimId, world: World, batch: seq<EventId>,
                       i: nat)
    requires i < |batch| && Underway(before, rows, log0, log, claimId, world, batch, i)
    requires batch[i] in rows
    requires var e := batch[i];
             && log' == (if world.publish(e).RaisedBeforeDelivery? then log else log + [e])
             && if world.mark(e).RaisesUncommitted? then rows' == rows
                else
                  var at := if world.publish(e).Delivered? then Some(world.markedAt(e)) else None;
                  rows' == rows[e := OutboxRow(rows[e].occurredAt, None, None, rows[e].attemptCount, at)]
    ensures Underway(before, rows', log0, log', claimId, world, batch, i + 1)
  {
    hide Reaching;
    assert batch[..i + 1] == batch[..i] + [batch[i]];
    ReachingOneMore(batch[..i], world, batch[i]);
    assert forall j :: 0 <= j < |batch| && j != i ==> rows'[batch[j]] == rows[batch[j]];
    assert IsRowAfter(before[batch[i]], rows'[batch[i]], batch[i], true, claimId, world);
  }

  lemma CallEnds(before: OutboxTable, rows: OutboxTable, log0: seq<EventId>, log: seq<EventId>, limit: nat,
                 claimId: ClaimId, world: World, batch: seq<EventId>, tried: nat)
    requires if world.claim.RaisesUncommitted? then batch == []
             else EarliestEligible(before, world.locked, world.now, limit, batch)
    requires if world.claim.Commits? then TriedTo(batch, tried, world) else tried == 0
    requires Underway(before, rows, log0, log, claimId, world, batch, tried)
    ensures IsCall(before, rows, log0, log, limit, claimId, world, batch, tried)
  {
  }
}
