/** Any number of outbox workers delivering batches, interleaved in any order, with crashes.

    Each transaction and each call of the publisher is one step. No assumption is made on any clock:
    a claim may be taken over at any time that some clock says it has run out. */
module OutboxProtocol {
  import opened Common
  import opened Wrappers
  import opened Sequences
  import opened Outbox

  datatype Stage = ToPublish | ToMarkPublished | ToMarkFailed

  /** What a worker is doing: `todo[0]` is the event in hand, and the counters are the local
      variables of `execute`. */
  datatype Worker =
    | Idle
    | Busy(claimId: ClaimId, todo: seq<EventId>, stage: Stage, claimed: nat, published: nat, failed: nat)

  /** `log` is what the broker has received. History, read by no step: `tries` are the calls of the
      publisher, `dropped` the claimed events that a crash or an exception kept from being tried. */
  datatype System = System(
    rows: OutboxTable, workers: seq<Worker>, log: seq<EventId>, usedClaims: set<ClaimId>,
    tries: seq<EventId>, dropped: seq<EventId>)

  datatype Action =
    | Add(e: EventId, occurredAt: Time)
    | ClaimBatch(w: nat, claimId: ClaimId, now: Time, until: Time, limit: nat, locked: set<EventId>,
        picked: seq<EventId>)
    | Publish(w: nat, outcome: Outcome)
    | Mark(w: nat, at: Time)
    | Abort(w: nat)
    | Return(w: nat)

  predicate IsBusy(sys: System, w: nat) {
    w < |sys.workers| && sys.workers[w].Busy?
  }

  predicate Enabled(sys: System, a: Action) {
    match a
    case Add(e, _) => e !in sys.rows
    case ClaimBatch(w, claimId, now, until, limit, locked, picked) =>
      && w < |sys.workers| && sys.workers[w].Idle?
      && claimId !in sys.usedClaims
      && EarliestEligible(sys.rows, locked, now, limit, picked)
    case Publish(w, _) => IsBusy(sys, w) && sys.workers[w].stage.ToPublish? && sys.workers[w].todo != []
    case Mark(w, _) => IsBusy(sys, w) && !sys.workers[w].stage.ToPublish?
    case Abort(w) => IsBusy(sys, w)
    case Return(w) => IsBusy(sys, w) && sys.workers[w].stage.ToPublish? && sys.workers[w].todo == []
  }

  /** The events of a batch that are still waiting for the publisher. */
  function Waiting(wk: Worker): seq<EventId> {
    match wk
    case Idle => []
    case Busy(_, todo, stage, _, _, _) => if stage.ToPublish? || todo == [] then todo else todo[1..]
  }

  function AfterMark(wk: Worker): Worker
    requires wk.Busy?
  {
    var next := wk.(todo := Waiting(wk), stage := ToPublish);
    match wk.stage
    case ToMarkPublished => next.(published := wk.published + 1)
    case _ => next
  }

  function MarkRows(rows: OutboxTable, wk: Worker, at: Time): OutboxTable
    requires wk.Busy?
  {
    if wk.todo == [] then rows
    else match wk.stage
    case ToPublish => rows
    case ToMarkPublished => MarkPublished(rows, wk.todo[0], wk.claimId, at)
    case ToMarkFailed => MarkFailed(rows, wk.todo[0], wk.claimId)
  }

  function Apply(sys: System, a: Action): System
    requires Enabled(sys, a)
  {
    match a
    case Add(e, occurredAt) => sys.(rows := sys.rows[e := NewRow(occurredAt)])
    case ClaimBatch(w, claimId, now, until, limit, locked, picked) =>
      sys.(rows := Claim(sys.rows, picked, claimId, until),
           usedClaims := sys.usedClaims + {claimId},
           workers := sys.workers[w := Busy(claimId, picked, ToPublish, |picked|, 0, 0)])
    case Publish(w, outcome) =>
      var wk := sys.workers[w];
      sys.(log := if outcome.RaisedBeforeDelivery? then sys.log else sys.log + [wk.todo[0]],
           tries := sys.tries + [wk.todo[0]],
           workers := sys.workers[w := if outcome.Delivered? then wk.(stage := ToMarkPublished)
                                       else wk.(stage := ToMarkFailed, failed := wk.failed + 1)])
    case Mark(w, at) =>
      sys.(rows := MarkRows(sys.rows, sys.workers[w], at), workers := sys.workers[w := AfterMark(sys.workers[w])])
    case Abort(w) =>
      sys.(dropped := sys.dropped + Waiting(sys.workers[w]), workers := sys.workers[w := Idle])
    case Return(w) => sys.(workers := sys.workers[w := Idle])
  }

  predicate Init(sys: System) {
    && sys.rows == map[] && sys.log == [] && sys.usedClaims == {}
    && sys.tries == [] && sys.dropped == []
    && forall i :: 0 <= i < |sys.workers| ==> sys.workers[i].Idle?
  }

  predicate IsRun(sys: System, actions: seq<Action>)
    decreases |actions|
  {
    actions == [] || (Enabled(sys, actions[0]) && IsRun(Apply(sys, actions[0]), actions[1..]))
  }

  function Final(sys: System, actions: seq<Action>): System
    requires IsRun(sys, actions)
    decreases |actions|
  {
    if actions == [] then sys else Final(Apply(sys, actions[0]), actions[1..])
  }

  // ----- Conservation of attempts -----

  function WaitingCopies(workers: seq<Worker>, e: EventId): nat {
    if workers == [] then 0
    else WaitingCopies(workers[..|workers| - 1], e) + Count(Waiting(workers[|workers| - 1]), e)
  }

  lemma {:induction false} OneWorkerChanges(workers: seq<Worker>, w: nat, wk: Worker, e: EventId)
    requires w < |workers|
    ensures WaitingCopies(workers[w := wk], e) + Count(Waiting(workers[w]), e)
            == WaitingCopies(workers, e) + Count(Waiting(wk), e)
  {
    hide Waiting, Count;
    var n := |workers| - 1;
    if w == n {
      assert workers[w := wk][..n] == workers[..n];
    } else {
      OneWorkerChanges(workers[..n], w, wk, e);
      assert workers[w := wk][..n] == workers[..n][w := wk];
    }
  }

  lemma {:induction false} NobodyWaits(workers: seq<Worker>, e: EventId)
    requires forall i :: 0 <= i < |workers| ==> workers[i].Idle?
    ensures WaitingCopies(workers, e) == 0
  {
    if workers != [] {
      NobodyWaits(workers[..|workers| - 1], e);
    }
  }

  function Attempts(rows: OutboxTable, e: EventId): nat {
    if e in rows then rows[e].attemptCount else 0
  }

  /** Every attempt that a row counts is a try, an event waiting in a live batch, or one dropped; and
      nothing is in the log without a try. */
  predicate Conserved(sys: System, e: EventId) {
    && Attempts(sys.rows, e) == Count(sys.tries, e) + WaitingCopies(sys.workers, e) + Count(sys.dropped, e)
    && Count(sys.log, e) <= Count(sys.tries, e)
  }

  lemma ClaimCounts(rows: OutboxTable, picked: seq<EventId>, claimId: ClaimId, until: Time, e: EventId)
    requires Distinct(picked) && forall p :: p in picked ==> p in rows
    ensures Attempts(Claim(rows, picked, claimId, until), e) == Attempts(rows, e) + Count(picked, e)
  {
    CountDistinct(picked, e);
  }

  lemma PublishConserves(sys: System, w: nat, outcome: Outcome, e: EventId)
    requires Conserved(sys, e) && Enabled(sys, Publish(w, outcome))
    ensures Conserved(Apply(sys, Publish(w, outcome)), e)
  {
    hide Count, WaitingCopies;
    var wk, wk' := sys.workers[w], Apply(sys, Publish(w, outcome)).workers[w];
    var x, rest := wk.todo[0], wk.todo[1..];
    OneWorkerChanges(sys.workers, w, wk', e);
    assert Waiting(wk') == rest && Waiting(wk) == [x] + rest;
    CountAppend([x], rest, e);
    CountAppend(sys.tries, [x], e);
    CountAppend(sys.log, [x], e);
  }

  lemma StepConserves(sys: System, a: Action, e: EventId)
    requires Conserved(sys, e) && Enabled(sys, a)
    ensures Conserved(Apply(sys, a), e)
  {
    hide Count, WaitingCopies;
    match a
    case Add(_, _) =>
    case ClaimBatch(w, claimId, _, until, _, _, picked) =>
      OneWorkerChanges(sys.workers, w, Apply(sys, a).workers[w], e);
      NothingWaiting(e);
      ClaimCounts(sys.rows, picked, claimId, until, e);
    case Publish(w, outcome) => PublishConserves(sys, w, outcome, e);
    case Mark(w, at) => OneWorkerChanges(sys.workers, w, AfterMark(sys.workers[w]), e);
    case Abort(w) =>
      OneWorkerChanges(sys.workers, w, Idle, e);
      NothingWaiting(e);
      CountAppend(sys.dropped, Waiting(sys.workers[w]), e);
    case Return(w) =>
      OneWorkerChanges(sys.workers, w, Idle, e);
      NothingWaiting(e);
  }

  lemma NothingWaiting(e: EventId)
    ensures Count([], e) == 0
  {
  }

  lemma {:induction false} RunConserves(sys: System, actions: seq<Action>, e: EventId)
    requires Conserved(sys, e) && IsRun(sys, actions)
    ensures Conserved(Final(sys, actions), e)
    decreases |actions|
  {
    if actions != [] {
      StepConserves(sys, actions[0], e);
      RunConserves(Apply(sys, actions[0]), actions[1..], e);
    }
  }

  /** In every run, an event's attempt count is its tries plus its waiting copies plus its dropped
      ones, so the broker has received it at most that many times. */
  lemma AttemptsAreConserved(sys: System, actions: seq<Action>, e: EventId)
    requires Init(sys) && IsRun(sys, actions)
    ensures var f := Final(sys, actions);
            && Attempts(f.rows, e) == Count(f.tries, e) + WaitingCopies(f.workers, e) + Count(f.dropped, e)
            && Count(f.log, e) <= Count(f.tries, e) <= Attempts(f.rows, e)
  {
    NobodyWaits(sys.workers, e);
    RunConserves(sys, actions, e);
  }

  // ----- Nothing is lost -----

  predicate RowInv(sys: System) {
    forall e :: e in sys.rows ==>
      var row := sys.rows[e];
      && (row.publishedAt.Some? ==> e in sys.log && row.claimId.None?)
      && (row.claimId.Some? <==> row.claimedUntil.Some?)
      && (row.claimId.Some? ==> row.claimId.value in sys.usedClaims)
  }

  predicate BatchInv(sys: System, wk: Worker) {
    wk.Busy? ==>
      && wk.claimId in sys.usedClaims
      && Distinct(wk.todo)
      && (forall e :: e in wk.todo ==> e in sys.rows)
      && wk.claimed == wk.published + wk.failed + |wk.todo| - (if wk.stage.ToMarkFailed? then 1 else 0)
      && (!wk.stage.ToPublish? ==> wk.todo != [])
      && (wk.stage.ToMarkPublished? ==> wk.todo[0] in sys.log)
      && (forall e :: e in sys.rows && sys.rows[e].claimId == Some(wk.claimId) ==> e in wk.todo)
  }

  predicate Inv(sys: System) {
    && RowInv(sys)
    && (forall i :: 0 <= i < |sys.workers| ==> BatchInv(sys, sys.workers[i]))
    && (forall i, j :: 0 <= i < j < |sys.workers| && sys.workers[i].Busy? && sys.workers[j].Busy? ==>
          sys.workers[i].claimId != sys.workers[j].claimId)
  }

  lemma AddKeepsInv(sys: System, a: Action)
    requires Inv(sys) && a.Add? && Enabled(sys, a)
    ensures Inv(Apply(sys, a))
  {
    forall i | 0 <= i < |sys.workers| ensures BatchInv(Apply(sys, a), sys.workers[i]) {
      assert BatchInv(sys, sys.workers[i]);
    }
  }

  lemma ClaimKeepsRows(sys: System, a: Action)
    requires Inv(sys) && a.ClaimBatch? && Enabled(sys, a)
    ensures RowInv(Apply(sys, a))
  {
  }

  lemma ClaimKeepsBatch(sys: System, a: Action, wk: Worker)
    requires RowInv(sys) && a.ClaimBatch? && Enabled(sys, a)
    requires BatchInv(sys, wk)
    ensures BatchInv(Apply(sys, a), wk)
  {
  }

  lemma ClaimMakesBatch(sys: System, a: Action)
    requires RowInv(sys) && a.ClaimBatch? && Enabled(sys, a)
    ensures BatchInv(Apply(sys, a), Apply(sys, a).workers[a.w])
  {
  }

  lemma ClaimKeepsInv(sys: System, a: Action)
    requires Inv(sys) && a.ClaimBatch? && Enabled(sys, a)
    ensures Inv(Apply(sys, a))
  {
    ClaimKeepsRows(sys, a);
    ClaimMakesBatch(sys, a);
    forall i | 0 <= i < |sys.workers| ensures BatchInv(Apply(sys, a), sys.workers[i]) {
      ClaimKeepsBatch(sys, a, sys.workers[i]);
    }
    forall i | 0 <= i < |sys.workers| && sys.workers[i].Busy? ensures sys.workers[i].claimId != a.claimId {
      assert BatchInv(sys, sys.workers[i]);
    }
    hide RowInv, BatchInv, EarliestEligible;
  }

  lemma PublishKeepsInv(sys: System, a: Action)
    requires Inv(sys) && a.Publish? && Enabled(sys, a)
    ensures Inv(Apply(sys, a))
  {
    var sys' := Apply(sys, a);
    forall i | 0 <= i < |sys.workers| ensures BatchInv(sys', sys'.workers[i]) {
      assert BatchInv(sys, sys.workers[i]);
    }
  }

  lemma MarkKeepsRows(sys: System, wk: Worker, at: Time)
    requires RowInv(sys) && BatchInv(sys, wk) && wk.Busy? && !wk.stage.ToPublish?
    ensures RowInv(sys.(rows := MarkRows(sys.rows, wk, at)))
  {
  }

  lemma MarkKeepsBatch(sys: System, wk: Worker, at: Time)
    requires RowInv(sys) && BatchInv(sys, wk) && wk.Busy? && !wk.stage.ToPublish?
    ensures BatchInv(sys.(rows := MarkRows(sys.rows, wk, at)), AfterMark(wk))
  {
    var rows := MarkRows(sys.rows, wk, at);
    assert wk.todo == [wk.todo[0]] + wk.todo[1..];
    forall e | e in rows && rows[e].claimId == Some(wk.claimId) ensures e in wk.todo[1..] {
      assert e in wk.todo;
    }
  }

  lemma MarkKeepsOtherBatch(sys: System, wk: Worker, at: Time, other: Worker)
    requires BatchInv(sys, wk) && wk.Busy? && !wk.stage.ToPublish?
    requires BatchInv(sys, other)
    ensures BatchInv(sys.(rows := MarkRows(sys.rows, wk, at)), other)
  {
  }

  lemma BatchInvRows(a: System, b: System, wk: Worker)
    requires a.rows == b.rows && a.log == b.log && a.usedClaims == b.usedClaims
    ensures RowInv(a) <==> RowInv(b)
    ensures BatchInv(a, wk) <==> BatchInv(b, wk)
  {
  }

  lemma MarkKeepsInv(sys: System, a: Action)
    requires Inv(sys) && a.Mark? && Enabled(sys, a)
    ensures Inv(Apply(sys, a))
  {
    hide RowInv, BatchInv;
    var wk, sys' := sys.workers[a.w], Apply(sys, a);
    var mid := sys.(rows := MarkRows(sys.rows, wk, a.at));
    MarkKeepsRows(sys, wk, a.at);
    forall i | 0 <= i < |sys.workers| ensures BatchInv(sys', sys'.workers[i]) {
      if i == a.w {
        MarkKeepsBatch(sys, wk, a.at);
      } else {
        MarkKeepsOtherBatch(sys, wk, a.at, sys.workers[i]);
      }
      BatchInvRows(mid, sys', sys'.workers[i]);
    }
    BatchInvRows(mid, sys', Idle);
    hide MarkRows;
  }

  lemma LeaveKeepsInv(sys: System, a: Action)
    requires Inv(sys) && (a.Abort? || a.Return?) && Enabled(sys, a)
    ensures Inv(Apply(sys, a))
  {
    hide RowInv, BatchInv;
    var sys' := Apply(sys, a);
    BatchInvRows(sys, sys', Idle);
    assert BatchInv(sys', Idle) by { IdleBatch(sys'); }
    forall i | 0 <= i < |sys.workers| ensures BatchInv(sys', sys'.workers[i]) {
      BatchInvRows(sys, sys', sys.workers[i]);
    }
  }

  lemma IdleBatch(sys: System)
    ensures BatchInv(sys, Idle)
  {
  }

  lemma StepKeepsInv(sys: System, a: Action)
    requires Inv(sys) && Enabled(sys, a)
    ensures Inv(Apply(sys, a))
  {
    match a
    case Add(_, _) => AddKeepsInv(sys, a);
    case ClaimBatch(_, _, _, _, _, _, _) => ClaimKeepsInv(sys, a);
    case Publish(_, _) => PublishKeepsInv(sys, a);
    case Mark(_, _) => MarkKeepsInv(sys, a);
    case Abort(_) => LeaveKeepsInv(sys, a);
    case Return(_) => LeaveKeepsInv(sys, a);
  }

  lemma {:induction false} RunKeepsInv(sys: System, actions: seq<Action>)
    requires Inv(sys) && IsRun(sys, actions)
    ensures Inv(Final(sys, actions))
    decreases |actions|
  {
    if actions != [] {
      StepKeepsInv(sys, actions[0]);
      RunKeepsInv(Apply(sys, actions[0]), actions[1..]);
    }
  }

  /** In every run: a published row's event is in the broker's log and the row carries no claim; a
      batch whose events are all done has counted each of them as published or failed; no two live
      batches share a claim id; and a claim is held by a row only while its batch has the event to do. */
  lemma NothingIsLost(sys: System, actions: seq<Action>)
    requires Init(sys) && IsRun(sys, actions)
    ensures var f := Final(sys, actions);
            && (forall e :: e in f.rows && f.rows[e].publishedAt.Some? ==>
                  e in f.log && f.rows[e].claimId.None? && f.rows[e].claimedUntil.None?)
            && (forall w :: 0 <= w < |f.workers| && Enabled(f, Return(w)) ==>
                  f.workers[w].claimed == f.workers[w].published + f.workers[w].failed)
            && (forall v, w :: 0 <= v < w < |f.workers| && f.workers[v].Busy? && f.workers[w].Busy? ==>
                  f.workers[v].claimId != f.workers[w].claimId)
            && (forall e: EventId, w: nat ::
                  e in f.rows && IsBusy(f, w) && f.rows[e].claimId == Some(f.workers[w].claimId) ==>
                  e in f.workers[w].todo)
  {
    RunKeepsInv(sys, actions);
    var f := Final(sys, actions);
    forall w: nat | IsBusy(f, w)
      ensures Enabled(f, Return(w)) ==> f.workers[w].claimed == f.workers[w].published + f.workers[w].failed
      ensures forall e :: e in f.rows && f.rows[e].claimId == Some(f.workers[w].claimId) ==> e in f.workers[w].todo
    {
      assert BatchInv(f, f.workers[w]);
    }
  }

  /** A published row is never changed again. */
  lemma PublishedStays(sys: System, a: Action, e: EventId)
    requires Inv(sys) && Enabled(sys, a) && e in sys.rows && sys.rows[e].publishedAt.Some?
    ensures e in Apply(sys, a).rows && Apply(sys, a).rows[e] == sys.rows[e]
  {
  }

  lemma {:induction false} PublishedStaysForever(sys: System, actions: seq<Action>, e: EventId)
    requires Inv(sys) && IsRun(sys, actions) && e in sys.rows && sys.rows[e].publishedAt.Some?
    ensures e in Final(sys, actions).rows && Final(sys, actions).rows[e] == sys.rows[e]
    decreases |actions|
  {
    if actions != [] {
      PublishedStays(sys, actions[0], e);
      StepKeepsInv(sys, actions[0]);
      PublishedStaysForever(Apply(sys, actions[0]), actions[1..], e);
    }
  }

  /** A claim on an event ends in only two ways: the batch that holds it marks that very event, or a
      later batch takes it over after it has run out. In particular a worker whose claim was taken
      over can neither clear nor complete the new one. */
  lemma ClaimEndsOnlyTwoWays(sys: System, a: Action, e: EventId)
    requires Inv(sys) && Enabled(sys, a) && e in sys.rows && sys.rows[e].claimId.Some?
    ensures e in Apply(sys, a).rows
    ensures Apply(sys, a).rows[e] != sys.rows[e] <==>
      || (a.Mark? && sys.workers[a.w].claimId == sys.rows[e].claimId.value && sys.workers[a.w].todo[0] == e)
      || (a.ClaimBatch? && e in a.picked)
    ensures a.ClaimBatch? && e in a.picked ==> sys.rows[e].claimedUntil.value <= a.now
  {
    if a.Mark? {
      assert BatchInv(sys, sys.workers[a.w]);
    }
  }
}
