/** Each call of the use case is a run of the outbox protocol, so what holds in all its runs holds of the calls. */
module OutboxRefinement {
  import opened Common
  import opened Wrappers
  import opened Sequences
  import opened Outbox
  import opened OutboxUseCase
  import opened OutboxProtocol
  import opened OutboxProgress

  /** Leaving the loop over a batch, by the end of it or by an exception. */
  function End(w: nat, completed: bool): Action {
    if completed then Return(w) else Abort(w)
  }

  /** The steps for one event; without its mark if that transaction has no effect. */
  function Try(w: nat, e: EventId, world: World): seq<Action> {
    [Publish(w, world.publish(e))] + if world.mark(e).RaisesUncommitted? then [] else [Mark(w, world.markedAt(e))]
  }

  function Tries(w: nat, todo: seq<EventId>, tried: nat, world: World, ok: bool): seq<Action>
    requires tried <= |todo|
    decreases tried
  {
    if tried == 0 then [End(w, ok)] else Try(w, todo[0], world) + Tries(w, todo[1..], tried - 1, world, ok)
  }

  /** The steps of a call. */
  function CallRun(w: nat, limit: nat, claimId: ClaimId, world: World, batch: seq<EventId>, tried: nat): seq<Action>
    requires tried <= |batch|
  {
    if world.claim.RaisesUncommitted? then []
    else
      [ClaimBatch(w, claimId, world.now, world.startedAt + 30, limit, world.locked, batch)]
      + Tries(w, batch, tried, world, AllMarked(batch, world))
  }

  predicate AllMarked(batch: seq<EventId>, world: World) {
    world.claim.Commits? && forall e :: e in batch ==> world.mark(e).Commits?
  }

  /** The claimed rows after the first events have been tried. */
  function RowsAfter(rows: OutboxTable, todo: seq<EventId>, tried: nat, world: World): OutboxTable
    requires tried <= |todo|
  {
    map e | e in rows ::
      if e in todo[..tried] && !world.mark(e).RaisesUncommitted? then
        rows[e].(claimId := None, claimedUntil := None,
                 publishedAt := if world.publish(e).Delivered? then Some(world.markedAt(e)) else rows[e].publishedAt)
      else rows[e]
  }

  lemma {:induction false} ReachingFirst(events: seq<EventId>, world: World)
    requires events != []
    ensures Reaching(events, world) ==
      (if world.publish(events[0]).RaisedBeforeDelivery? then [] else [events[0]]) + Reaching(events[1..], world)
  {
    var n := |events| - 1;
    if n != 0 {
      ReachingFirst(events[..n], world);
      assert events[..n][1..] == events[1..][..n - 1];
    }
  }

  lemma RowsAfterFirst(rows: OutboxTable, rows': OutboxTable, todo: seq<EventId>, tried: nat, world: World)
    requires 0 < tried <= |todo| && Distinct(todo) && todo[0] in rows
    requires rows' == RowsAfter(rows, todo, 1, world)
    ensures RowsAfter(rows', todo[1..], tried - 1, world) == RowsAfter(rows, todo, tried, world)
  {
    assert todo[..tried] == [todo[0]] + todo[1..][..tried - 1];
    assert todo[..1] == [todo[0]];
  }

  lemma MarkOne(rows: OutboxTable, wk: Worker, world: World)
    requires wk.Busy? && wk.todo != [] && wk.todo[0] in rows
    requires rows[wk.todo[0]].claimId == Some(wk.claimId) && rows[wk.todo[0]].publishedAt.None?
    requires !world.mark(wk.todo[0]).RaisesUncommitted?
    requires wk.stage == if world.publish(wk.todo[0]).Delivered? then ToMarkPublished else ToMarkFailed
    ensures MarkRows(rows, wk, world.markedAt(wk.todo[0])) == RowsAfter(rows, wk.todo, 1, world)
  {
    assert wk.todo[..1] == [wk.todo[0]];
  }

  // What one event's steps do.
  lemma TryOne(sys: System, w: nat, world: World)
    requires HoldsBatch(sys, w) && sys.workers[w].todo != []
    ensures var e, todo := sys.workers[w].todo[0], sys.workers[w].todo;
            var steps := Try(w, e, world);
            && IsRun(sys, steps)
            && var f := Final(sys, steps);
               && IsBusy(f, w) && f.workers == sys.workers[w := f.workers[w]] && f.usedClaims == sys.usedClaims
               && f.rows == RowsAfter(sys.rows, todo, 1, world)
               && f.log == sys.log + (if world.publish(e).RaisedBeforeDelivery? then [] else [e])
               && (!world.mark(e).RaisesUncommitted? ==> HoldsBatch(f, w) && f.workers[w].todo == todo[1..])
  {
    var e, todo := sys.workers[w].todo[0], sys.workers[w].todo;
    var a, b := Publish(w, world.publish(e)), Mark(w, world.markedAt(e));
    var sys' := Apply(sys, a);
    if world.mark(e).RaisesUncommitted? {
      FirstStep(sys, a, []);
      assert [a] + [] == [a] && todo[..1] == [e];
      assert RowsAfter(sys.rows, todo, 1, world) == sys.rows;
    } else {
      FirstStep(sys', b, []);
      assert [b] + [] == [b];
      FirstStep(sys, a, [b]);
      MarkOne(sys.rows, sys'.workers[w], world);
      StillHolds(sys, w, Apply(sys', b));
      hide RowsAfter, HoldsBatch, MarkRows;
    }
  }

  lemma StillHolds(sys: System, w: nat, sys': System)
    requires HoldsBatch(sys, w) && sys.workers[w].todo != [] && IsBusy(sys', w)
    requires sys'.rows.Keys == sys.rows.Keys
    requires forall e :: e in sys.rows && e != sys.workers[w].todo[0] ==> sys'.rows[e] == sys.rows[e]
    requires sys'.workers[w].todo == sys.workers[w].todo[1..] && sys'.workers[w].stage.ToPublish?
    requires sys'.workers[w].claimId == sys.workers[w].claimId
    ensures HoldsBatch(sys', w)
  {
    assert sys.workers[w].todo == [sys.workers[w].todo[0]] + sys'.workers[w].todo;
  }

  lemma LeaveNow(sys: System, w: nat, ok: bool)
    requires IsBusy(sys, w) && (ok ==> sys.workers[w].stage.ToPublish? && sys.workers[w].todo == [])
    ensures IsRun(sys, [End(w, ok)])
    ensures var f := Final(sys, [End(w, ok)]);
            f.workers == sys.workers[w := Idle] && f.usedClaims == sys.usedClaims && f.rows == sys.rows
            && f.log == sys.log
  {
    assert [End(w, ok)][1..] == [];
  }

  lemma TriesOfOne(w: nat, todo: seq<EventId>, world: World, ok: bool)
    requires todo != []
    ensures Tries(w, todo, 1, world, ok) == Try(w, todo[0], world) + [End(w, ok)]
  {
  }

  lemma {:induction false} TriesRun(sys: System, w: nat, tried: nat, world: World, ok: bool)
    requires HoldsBatch(sys, w) && tried <= |sys.workers[w].todo|
    requires forall i :: 0 <= i < tried - 1 ==> world.mark(sys.workers[w].todo[i]).Commits?
    requires ok ==> tried == |sys.workers[w].todo| && forall e :: e in sys.workers[w].todo ==> world.mark(e).Commits?
    ensures var todo := sys.workers[w].todo;
            var steps := Tries(w, todo, tried, world, ok);
            && IsRun(sys, steps)
            && var f := Final(sys, steps);
               && f.workers == sys.workers[w := Idle] && f.usedClaims == sys.usedClaims
               && f.rows == RowsAfter(sys.rows, todo, tried, world)
               && f.log == sys.log + Reaching(todo[..tried], world)
    decreases tried
  {
    hide Enabled, Apply, IsRun, Final, Reaching, RowsAfter, Try;
    var todo := sys.workers[w].todo;
    if tried == 0 {
      LeaveNow(sys, w, ok);
      NothingTried(sys.rows, todo, world);
      assert sys.log + [] == sys.log;
    } else {
      var e := todo[0];
      TryOne(sys, w, world);
      var f := Final(sys, Try(w, e, world));
      assert todo[..tried][1..] == todo[1..][..tried - 1] && todo[..tried][0] == e;
      ReachingFirst(todo[..tried], world);
      assert e in todo;
      if world.mark(e).RaisesUncommitted? {
        assert tried == 1;
        LeaveNow(f, w, ok);
        TriesOfOne(w, todo, world, ok);
        NothingTried(f.rows, todo[1..], world);
        RunsCompose(sys, Try(w, e, world), [End(w, ok)]);
      } else {
        TriesRun(f, w, tried - 1, world, ok);
        RunsCompose(sys, Try(w, e, world), Tries(w, todo[1..], tried - 1, world, ok));
        RowsAfterFirst(sys.rows, f.rows, todo, tried, world);
      }
    }
  }

  lemma NothingTried(rows: OutboxTable, todo: seq<EventId>, world: World)
    ensures RowsAfter(rows, todo, 0, world) == rows && Reaching(todo[..0], world) == []
  {
  }

  lemma ClaimFirst(sys: System, w: nat, limit: nat, claimId: ClaimId, world: World, batch: seq<EventId>)
    requires w < |sys.workers| && sys.workers[w].Idle? && claimId !in sys.usedClaims
    requires EarliestEligible(sys.rows, world.locked, world.now, limit, batch)
    ensures var a := ClaimBatch(w, claimId, world.now, world.startedAt + 30, limit, world.locked, batch);
            && Enabled(sys, a)
            && var s := Apply(sys, a);
               && HoldsBatch(s, w) && s.workers[w].todo == batch && s.workers[w := Idle] == sys.workers
               && s.log == sys.log && s.rows == Claim(sys.rows, batch, claimId, world.startedAt + 30)
  {
  }

  /** What a call leaves in the table is what the claim and the events tried leave. */
  lemma CallLeaves(rows: OutboxTable, rows': OutboxTable, log: seq<EventId>, log': seq<EventId>, limit: nat,
                   claimId: ClaimId, world: World, batch: seq<EventId>, tried: nat)
    requires IsCall(rows, rows', log, log', limit, claimId, world, batch, tried)
    ensures tried <= |batch| && Distinct(batch)
    ensures rows' == RowsAfter(Claim(rows, batch, claimId, world.startedAt + 30), batch, tried, world)
  {
    hide EarliestEligible, IsRowAfter, Reaching, TriedTo;
    BatchParts(rows, rows', log, log', limit, claimId, world, batch, tried);
    var left := RowsAfter(Claim(rows, batch, claimId, world.startedAt + 30), batch, tried, world);
    forall e | e in rows ensures left[e] == rows'[e] {
      if e in batch {
        var i :| 0 <= i < |batch| && batch[i] == e;
        PlaceInBatch(batch, tried, i);
        RowLeft(rows[e], rows'[e], e, i < tried, claimId, world);
      }
    }
  }

  lemma BatchParts(rows: OutboxTable, rows': OutboxTable, log: seq<EventId>, log': seq<EventId>, limit: nat,
                   claimId: ClaimId, world: World, batch: seq<EventId>, tried: nat)
    requires IsCall(rows, rows', log, log', limit, claimId, world, batch, tried)
    ensures tried <= |batch| && Distinct(batch)
    ensures forall i :: 0 <= i < |batch| ==> batch[i] in rows && rows[batch[i]].publishedAt.None?
  {
    forall i | 0 <= i < |batch| ensures batch[i] in rows && rows[batch[i]].publishedAt.None? {
      assert batch[i] in batch;
    }
  }

  lemma PlaceInBatch(batch: seq<EventId>, tried: nat, i: nat)
    requires Distinct(batch) && tried <= |batch| && i < |batch|
    ensures batch[i] in batch[..tried] <==> i < tried
  {
    if i < tried {
      assert batch[..tried][i] == batch[i];
    }
  }

  lemma RowLeft(row: OutboxRow, row': OutboxRow, e: EventId, tried: bool, claimId: ClaimId, world: World)
    requires row.publishedAt.None? && IsRowAfter(row, row', e, tried, claimId, world)
    ensures var claimed := ClaimedRow(row, claimId, world.startedAt + 30);
            row' == if tried && !world.mark(e).RaisesUncommitted? then
                      claimed.(claimId := None, claimedUntil := None,
                               publishedAt := if world.publish(e).Delivered? then Some(world.markedAt(e))
                                              else claimed.publishedAt)
                    else claimed
  {
  }

  /** A call of the use case, whatever raises in it, is a run of the protocol by one worker: from any state of
      any number of workers, with the same table and the same log in the end. */
  lemma CallIsRun(sys: System, w: nat, rows': OutboxTable, log': seq<EventId>, limit: nat, claimId: ClaimId,
                  world: World, batch: seq<EventId>, tried: nat)
    requires w < |sys.workers| && sys.workers[w].Idle? && claimId !in sys.usedClaims
    requires IsCall(sys.rows, rows', sys.log, log', limit, claimId, world, batch, tried)
    ensures tried <= |batch|
    ensures var steps := CallRun(w, limit, claimId, world, batch, tried);
            && IsRun(sys, steps)
            && var f := Final(sys, steps);
               f.rows == rows' && f.log == log' && f.workers == sys.workers
  {
    hide RowsAfter, HoldsBatch, Enabled, Apply, Reaching, Tries, EarliestEligible, IsCall, IsRun, Final, AllMarked;
    CallLeaves(sys.rows, rows', sys.log, log', limit, claimId, world, batch, tried);
    CallParts(sys.rows, rows', sys.log, log', limit, claimId, world, batch, tried);
    if world.claim.RaisesUncommitted? {
      NoStep(sys);
    } else {
      var a := ClaimBatch(w, claimId, world.now, world.startedAt + 30, limit, world.locked, batch);
      var ok := AllMarked(batch, world);
      ClaimFirst(sys, w, limit, claimId, world, batch);
      TriesRun(Apply(sys, a), w, tried, world, ok);
      FirstStep(sys, a, Tries(w, batch, tried, world, ok));
    }
  }

  lemma NoStep(sys: System)
    ensures IsRun(sys, []) && Final(sys, []) == sys
  {
  }

  lemma FirstStep(sys: System, a: Action, rest: seq<Action>)
    requires Enabled(sys, a) && IsRun(Apply(sys, a), rest)
    ensures IsRun(sys, [a] + rest) && Final(sys, [a] + rest) == Final(Apply(sys, a), rest)
  {
    hide Enabled, Apply;
    assert ([a] + rest)[1..] == rest;
  }

  lemma CallParts(rows: OutboxTable, rows': OutboxTable, log: seq<EventId>, log': seq<EventId>, limit: nat,
                  claimId: ClaimId, world: World, batch: seq<EventId>, tried: nat)
    requires IsCall(rows, rows', log, log', limit, claimId, world, batch, tried)
    ensures tried <= |batch| && log' == log + Reaching(batch[..tried], world)
    ensures forall i :: 0 <= i < tried - 1 ==> world.mark(batch[i]).Commits?
    ensures AllMarked(batch, world) ==> tried == |batch|
    ensures AllMarked(batch, world) ==> forall e :: e in batch ==> world.mark(e).Commits?
    ensures if world.claim.RaisesUncommitted? then rows' == rows && log' == log
            else EarliestEligible(rows, world.locked, world.now, limit, batch)
  {
    hide EarliestEligible, IsRowAfter;
    if world.claim.Commits? && tried < |batch| {
      assert batch[tried - 1] in batch;
    }
  }
}
