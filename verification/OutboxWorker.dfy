/** The publisher process: it repeats the use case, whatever that raises. */
module OutboxWorkerLoop {
  import opened Common
  import opened Wrappers
  import opened Sequences
  import opened Outbox
  import opened OutboxUseCase

  /** The log against the table: no event more often than it was attempted, and every published row's
      event is there and its row free of claims. */
  ghost predicate LogFits(rows: OutboxTable, log: seq<EventId>) {
    && (forall e: EventId :: Count(log, e) <= if e in rows then rows[e].attemptCount else 0)
    && (forall e :: e in rows && rows[e].publishedAt.Some? ==>
        e in log && rows[e].claimId.None? && rows[e].claimedUntil.None?)
  }

  /** What publishing never takes back. */
  predicate Goes(rows: OutboxTable, rows': OutboxTable) {
    && rows'.Keys == rows.Keys
    && forall e :: e in rows ==>
         && rows[e].attemptCount <= rows'[e].attemptCount && rows'[e].occurredAt == rows[e].occurredAt
         && (rows[e].publishedAt.Some? ==> rows'[e] == rows[e])
  }

  lemma {:induction false} ReachingCount(events: seq<EventId>, world: World, e: EventId)
    ensures Count(Reaching(events, world), e) <= Count(events, e)
  {
    if events != [] {
      var n := |events| - 1;
      ReachingCount(events[..n], world, e);
      CountAppend(Reaching(events[..n], world),
                  if world.publish(events[n]).RaisedBeforeDelivery? then [] else [events[n]], e);
      CountOne(events[n], e);
      assert Count([], e) == 0;
    }
  }

  lemma {:induction false} ReachedIsThere(events: seq<EventId>, world: World, e: EventId)
    requires e in events && !world.publish(e).RaisedBeforeDelivery?
    ensures e in Reaching(events, world)
  {
    var n := |events| - 1;
    if e != events[n] {
      ReachedIsThere(events[..n], world, e);
    }
  }

  // A call with its batch, of which nothing more is used here than that it has no event twice.
  ghost predicate IsTurn(rows: OutboxTable, rows': OutboxTable, claimId: ClaimId, world: World, batch: seq<EventId>,
                         tried: nat) {
    && Distinct(batch) && tried <= |batch| && rows'.Keys == rows.Keys
    && (forall i :: 0 <= i < |batch| ==>
          && batch[i] in rows && rows[batch[i]].publishedAt.None?
          && IsRowAfter(rows[batch[i]], rows'[batch[i]], batch[i], i < tried, claimId, world))
    && (forall e :: e in rows && e !in batch ==> rows'[e] == rows[e])
  }

  lemma CallIsTurn(rows: OutboxTable, rows': OutboxTable, log: seq<EventId>, log': seq<EventId>, limit: nat,
                   claimId: ClaimId, world: World, batch: seq<EventId>, tried: nat)
    requires IsCall(rows, rows', log, log', limit, claimId, world, batch, tried)
    ensures IsTurn(rows, rows', claimId, world, batch, tried) && log' == log + Reaching(batch[..tried], world)
  {
    hide IsRowAfter;
    forall i | 0 <= i < |batch| ensures rows[batch[i]].publishedAt.None? {
      assert batch[i] in batch;
    }
  }

  lemma TurnCounts(rows: OutboxTable, rows': OutboxTable, log: seq<EventId>, claimId: ClaimId, world: World,
                   batch: seq<EventId>, tried: nat, e: EventId)
    requires LogFits(rows, log) && IsTurn(rows, rows', claimId, world, batch, tried)
    ensures Count(log + Reaching(batch[..tried], world), e) <= if e in rows' then rows'[e].attemptCount else 0
  {
    CountAppend(log, Reaching(batch[..tried], world), e);
    ReachingCount(batch[..tried], world, e);
    CountDistinct(batch[..tried], e);
    if e in batch {
      var i :| 0 <= i < |batch| && batch[i] == e;
      assert rows'[e].attemptCount == rows[e].attemptCount + 1;
    }
    hide Count, Reaching;
  }

  lemma TurnPublishes(rows: OutboxTable, rows': OutboxTable, log: seq<EventId>, claimId: ClaimId, world: World,
                      batch: seq<EventId>, tried: nat, e: EventId)
    requires LogFits(rows, log) && IsTurn(rows, rows', claimId, world, batch, tried)
    requires e in rows' && rows'[e].publishedAt.Some?
    ensures e in log + Reaching(batch[..tried], world)
    ensures rows'[e].claimId.None? && rows'[e].claimedUntil.None?
  {
    hide Count;
    if e in batch {
      var i :| 0 <= i < |batch| && batch[i] == e;
      assert i < tried && batch[..tried][i] == e;
      ReachedIsThere(batch[..tried], world, e);
    }
    hide Reaching;
  }

  lemma TurnGoes(rows: OutboxTable, rows': OutboxTable, claimId: ClaimId, world: World, batch: seq<EventId>,
                 tried: nat)
    requires IsTurn(rows, rows', claimId, world, batch, tried)
    ensures Goes(rows, rows')
  {
    forall e | e in rows
      ensures rows[e].attemptCount <= rows'[e].attemptCount && rows'[e].occurredAt == rows[e].occurredAt
      ensures rows[e].publishedAt.Some? ==> rows'[e] == rows[e]
    {
      if e in batch {
        var i :| 0 <= i < |batch| && batch[i] == e;
        assert IsRowAfter(rows[e], rows'[e], e, i < tried, claimId, world);
      }
    }
  }

  lemma TurnKeeps(rows: OutboxTable, rows': OutboxTable, log: seq<EventId>, claimId: ClaimId, world: World,
                  batch: seq<EventId>, tried: nat)
    requires LogFits(rows, log) && IsTurn(rows, rows', claimId, world, batch, tried)
    ensures LogFits(rows', log + Reaching(batch[..tried], world))
  {
    forall e: EventId
      ensures Count(log + Reaching(batch[..tried], world), e) <= if e in rows' then rows'[e].attemptCount else 0
    {
      TurnCounts(rows, rows', log, claimId, world, batch, tried, e);
    }
    forall e | e in rows' && rows'[e].publishedAt.Some?
      ensures e in log + Reaching(batch[..tried], world)
      ensures rows'[e].claimId.None? && rows'[e].claimedUntil.None?
    {
      TurnPublishes(rows, rows', log, claimId, world, batch, tried, e);
    }
  }

  /** One turn of the loop: its claim id, and what it meets outside. */
  datatype Turn = Turn(claimId: ClaimId, world: World)

  /** Table and log before and after some turns: each of them is one call of the use case with a limit of 100,
      and starts from what the one before it has left. */
  ghost predicate AreCalls(turns: seq<Turn>, rows: OutboxTable, rows': OutboxTable, log: seq<EventId>,
                           log': seq<EventId>) {
    if turns == [] then rows' == rows && log' == log
    else
      var n := |turns| - 1;
      exists middle, sofar, batch, tried ::
        && AreCalls(turns[..n], rows, middle, log, sofar)
        && IsCall(middle, rows', sofar, log', 100, turns[n].claimId, turns[n].world, batch, tried)
  }

  lemma OneMoreCall(turns: seq<Turn>, turn: Turn, rows: OutboxTable, middle: OutboxTable, rows': OutboxTable,
                    log: seq<EventId>, sofar: seq<EventId>, log': seq<EventId>, batch: seq<EventId>, tried: nat)
    requires AreCalls(turns, rows, middle, log, sofar)
    requires IsCall(middle, rows', sofar, log', 100, turn.claimId, turn.world, batch, tried)
    ensures AreCalls(turns + [turn], rows, rows', log, log')
  {
    hide IsCall;
    var all, n := turns + [turn], |turns|;
    assert all[..n] == turns && all[n] == turn;
    assert AreCalls(all[..n], rows, middle, log, sofar)
      && IsCall(middle, rows', sofar, log', 100, all[n].claimId, all[n].world, batch, tried);
  }

  class OutboxWorker {
    const useCase: PublishOutboxEventsUseCase

    constructor (useCase: PublishOutboxEventsUseCase)
      ensures this.useCase == useCase
    {
      this.useCase := useCase;
    }

    /** The first turns of the loop. It goes on after an empty batch and after an exception alike. */
    method Run(turns: seq<Turn>)
      requires LogFits(useCase.outbox.rows, useCase.broker.log)
      modifies useCase.outbox, useCase.broker
      ensures AreCalls(turns, old(useCase.outbox.rows), useCase.outbox.rows, old(useCase.broker.log),
                       useCase.broker.log)
      ensures LogFits(useCase.outbox.rows, useCase.broker.log)
      ensures Goes(old(useCase.outbox.rows), useCase.outbox.rows)
      ensures old(useCase.broker.log) <= useCase.broker.log
    {
      hide LogFits, Goes, IsTurn, IsCall, Reaching, AreCalls;
      NoTurn(useCase.outbox.rows, useCase.broker.log);
      assert turns[..0] == [];
      for i := 0 to |turns|
        invariant AreCalls(turns[..i], old(useCase.outbox.rows), useCase.outbox.rows, old(useCase.broker.log),
                           useCase.broker.log)
        invariant LogFits(useCase.outbox.rows, useCase.broker.log)
        invariant Goes(old(useCase.outbox.rows), useCase.outbox.rows)
        invariant old(useCase.broker.log) <= useCase.broker.log
      {
        ghost var rows, log := useCase.outbox.rows, useCase.broker.log;
        var turn := turns[i];
        var result;
        ghost var batch, tried;
        result, batch, tried := useCase.Execute(100, turn.claimId, turn.world);
        OneMoreCall(turns[..i], turn, old(useCase.outbox.rows), rows, useCase.outbox.rows, old(useCase.broker.log),
                    log, useCase.broker.log, batch, tried);
        assert turns[..i + 1] == turns[..i] + [turn];
        CallIsTurn(rows, useCase.outbox.rows, log, useCase.broker.log, 100, turn.claimId, turn.world, batch, tried);
        TurnKeeps(rows, useCase.outbox.rows, log, turn.claimId, turn.world, batch, tried);
        TurnGoes(rows, useCase.outbox.rows, turn.claimId, turn.world, batch, tried);
        GoesOn(old(useCase.outbox.rows), rows, useCase.outbox.rows);
      }
      assert turns[..|turns|] == turns;
    }
  }

  lemma NoTurn(rows: OutboxTable, log: seq<EventId>)
    ensures Goes(rows, rows) && AreCalls([], rows, rows, log, log)
  {
  }

  lemma GoesOn(a: OutboxTable, b: OutboxTable, c: OutboxTable)
    requires Goes(a, b) && Goes(b, c)
    ensures Goes(a, c)
  {
  }
}
