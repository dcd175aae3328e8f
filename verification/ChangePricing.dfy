/** Change requests for a pricing session: revisions may come twice, late or in any order. */
module ChangePricing {
  import opened Common
  import opened Wrappers
  import opened Sessions
  import opened SessionUseCases

  /** The stored pricing requests, by request id and revision. */
  type Requests = map<(RequestId, int), Product>

  datatype ChangeError =
    | SessionNotFound(id: RequestId)
    | StatusIsText(id: RequestId)
    | RequestNotFound(id: RequestId, revision: int)
    | Raised(fault: Fault)

  /** One change call, and where it raises if it does. */
  datatype Call = Call(revision: int, fault: Fault)

  /** A request's session in the registry and in the durable store. */
  datatype Copies = Copies(cached: PricingSession, durable: Option<PricingSession>)

  function Revised(session: PricingSession, requests: Requests, id: RequestId, revision: int): PricingSession
    requires (id, revision) in requests
  {
    var request := PricingRequest(id, revision, requests[(id, revision)]);
    session.WithNewRequest(request).WithNewDependencies(DEFAULT_DEPENDENCIES)
  }

  /** The session has the stored terms of that revision of its request; its status is as it was. */
  predicate IsRevised(outcome: PricingSession, before: PricingSession, requests: Requests, id: RequestId,
                      revision: int)
  {
    && (id, revision) in requests
    && outcome.request.requestId == id
    && outcome.request.revision == revision
    && outcome.request.product == requests[(id, revision)]
    && outcome.dependencies == {"JPY-OIS"}
    && outcome.status == before.status
  }

  /** The call is not stale, and its revision exists. */
  predicate IsNews(session: PricingSession, requests: Requests, id: RequestId, revision: int) {
    session.request.revision < revision && (id, revision) in requests
  }

  function AfterCall(c: Copies, requests: Requests, id: RequestId, call: Call): Copies {
    if !IsNews(c.cached, requests, id, call.revision) then c
    else
      var session := Revised(c.cached, requests, id, call.revision);
      Copies(if ReachesRegistry(call.fault) then session else c.cached,
             if ReachesStore(call.fault) then Some(session) else c.durable)
  }

  function AfterCalls(c: Copies, requests: Requests, id: RequestId, calls: seq<Call>): Copies {
    if calls == [] then c
    else AfterCall(AfterCalls(c, requests, id, calls[..|calls| - 1]), requests, id, calls[|calls| - 1])
  }

  class ChangePricingUseCase {
    const registry: InMemoryPricingSessionRegistry
    const store: SqlAlchemyPricingSessionStore
    const requests: Requests

    constructor (registry: InMemoryPricingSessionRegistry, store: SqlAlchemyPricingSessionStore, requests: Requests)
      ensures this.registry == registry && this.store == store && this.requests == requests
    {
      this.registry, this.store, this.requests := registry, store, requests;
    }

    ghost function CopiesOf(id: RequestId): Copies
      requires id in registry.sessions
      reads registry, store
    {
      Copies(registry.sessions[id], if id in store.rows then Some(store.rows[id]) else None)
    }

    /** A session that is only in the store cannot be changed: it is read with its status as text, and saving
        that raises before anything is written. */
    method Execute(id: RequestId, revision: int, fault: Fault) returns (result: Result<(), ChangeError>)
      requires registry.Valid() && store.Valid() && store.staged == map[]
      modifies registry, store
      ensures registry.Valid() && store.Valid() && store.staged == map[]
      ensures id !in old(registry.sessions) ==>
        && registry.sessions == old(registry.sessions) && store.rows == old(store.rows)
        && result == Failure(if id in store.rows then StatusIsText(id) else SessionNotFound(id))
      ensures id in old(registry.sessions) ==>
        && registry.sessions.Keys == old(registry.sessions).Keys
        && CopiesOf(id) == AfterCall(old(CopiesOf(id)), requests, id, Call(revision, fault))
        && (forall x :: x != id ==>
              SameAt(registry.sessions, old(registry.sessions), x) && SameAt(store.rows, old(store.rows), x))
        && result ==
             if revision <= old(registry.sessions)[id].request.revision then Success(())
             else if (id, revision) !in requests then Failure(RequestNotFound(id, revision))
             else if fault.NoFault? then Success(())
             else Failure(Raised(fault))
      ensures id in old(registry.sessions) ==>
        var before := old(registry.sessions)[id];
        var news := before.request.revision < revision && (id, revision) in requests;
        && (news && (fault.NoFault? || fault.PricingFails? || fault == CommitFails(true)) ==>
              id in store.rows && IsRevised(store.rows[id], before, requests, id, revision))
        && (news && (fault.NoFault? || fault.PricingFails?) ==>
              id in registry.sessions && IsRevised(registry.sessions[id], before, requests, id, revision))
        && (!news || fault.BuildFails? || fault.SaveFails? || fault == CommitFails(false) ==>
              store.rows == old(store.rows))
        && (!news || fault.BuildFails? || fault.SaveFails? || fault.CommitFails? ==>
              registry.sessions == old(registry.sessions))
    {
      var cached := registry.Get(id);
      if cached.None? {
        return Failure(if id in store.rows then StatusIsText(id) else SessionNotFound(id));
      }
      var session := cached.value;
      if revision <= session.request.revision {
        return Success(());
      }
      if (id, revision) !in requests {
        return Failure(RequestNotFound(id, revision));
      }
      if fault.BuildFails? || fault.SaveFails? {
        return Failure(Raised(fault));
      }
      session := Revised(session, requests, id, revision);
      store.Save(session);
      if fault == CommitFails(false) {
        store.Rollback();
        return Failure(Raised(fault));
      }
      store.Commit();
      if fault.CommitFails? {
        return Failure(Raised(fault));
      }
      registry.Save(session);
      result := if fault.PricingFails? then Failure(Raised(fault)) else Success(());
    }
  }

  /** The existing revisions, later than the session's own, of the calls that got as far as the registry. */
  function Later(session: PricingSession, requests: Requests, id: RequestId, calls: seq<Call>): set<int> {
    set call | call in calls && (call.fault.NoFault? || call.fault.PricingFails?)
               && session.request.revision < call.revision && (id, call.revision) in requests ::
      call.revision
  }

  /** The outcome that has nothing to do with the order of the calls: the terms of the highest later revision,
      or the session as it was. */
  predicate IsLatest(outcome: PricingSession, session: PricingSession, requests: Requests, id: RequestId,
                     later: set<int>) {
    if later == {} then outcome == session
    else
      var r := outcome.request.revision;
      && r in later && (forall other :: other in later ==> other <= r)
      && IsRevised(outcome, session, requests, id, r)
  }

  lemma LaterOfOneMore(session: PricingSession, requests: Requests, id: RequestId, calls: seq<Call>, call: Call)
    ensures Later(session, requests, id, calls + [call]) ==
      Later(session, requests, id, calls) +
      (if ReachesRegistry(call.fault) && IsNews(session, requests, id, call.revision) then {call.revision} else {})
  {
    var all := calls + [call];
    assert all[|calls|] == call;
    assert forall c :: c in all <==> c in calls || c == call;
  }

  /** Whatever calls come, in whatever order, and wherever they raise, the registry ends with the highest
      revision that reached it. */
  lemma {:induction false} LatestRevisionWins(c: Copies, requests: Requests, id: RequestId, calls: seq<Call>)
    ensures IsLatest(AfterCalls(c, requests, id, calls).cached, c.cached, requests, id,
                     Later(c.cached, requests, id, calls))
  {
    if calls == [] {
      assert Later(c.cached, requests, id, calls) == {};
    } else {
      var init, last := calls[..|calls| - 1], calls[|calls| - 1];
      LatestRevisionWins(c, requests, id, init);
      LaterOfOneMore(c.cached, requests, id, init, last);
      assert calls == init + [last];
    }
  }

  lemma LatestIsUnique(a: PricingSession, b: PricingSession, session: PricingSession, requests: Requests,
                       id: RequestId, later: set<int>)
    requires IsLatest(a, session, requests, id, later) && IsLatest(b, session, requests, id, later)
    ensures a == b
  {
    if later != {} {
      assert a.request.revision <= b.request.revision <= a.request.revision;
    }
  }

  /** Reordering the calls, or making some of them several times, changes nothing. */
  lemma OrderAndRepetitionDoNotMatter(c: Copies, requests: Requests, id: RequestId, a: seq<Call>, b: seq<Call>)
    requires forall call :: call in a <==> call in b
    ensures AfterCalls(c, requests, id, a).cached == AfterCalls(c, requests, id, b).cached
  {
    LatestRevisionWins(c, requests, id, a);
    LatestRevisionWins(c, requests, id, b);
    assert Later(c.cached, requests, id, a) == Later(c.cached, requests, id, b);
    LatestIsUnique(AfterCalls(c, requests, id, a).cached, AfterCalls(c, requests, id, b).cached,
                   c.cached, requests, id, Later(c.cached, requests, id, a));
  }

  predicate Agree(c: Copies) {
    c.durable == Some(c.cached)
  }

  /** Between two agreeing copies a call brings no difference, except exactly when a commit that took
      effect was reported as failed. */
  lemma CallKeepsAgreement(c: Copies, requests: Requests, id: RequestId, call: Call)
    requires Agree(c)
    ensures Agree(AfterCall(c, requests, id, call)) <==>
      !(IsNews(c.cached, requests, id, call.revision) && call.fault == CommitFails(true))
  {
  }

  /** And making that same call again, this time without a fault, brings the copies together. */
  lemma RetryRestoresAgreement(c: Copies, requests: Requests, id: RequestId, revision: int)
    requires Agree(c) && IsNews(c.cached, requests, id, revision)
    ensures var lost := AfterCall(c, requests, id, Call(revision, CommitFails(true)));
            !Agree(lost) && Agree(AfterCall(lost, requests, id, Call(revision, NoFault)))
  {
  }

  /** Without such a commit, registry and store agree after each call. */
  lemma {:induction false} CallsKeepAgreement(c: Copies, requests: Requests, id: RequestId, calls: seq<Call>)
    requires Agree(c) && forall call :: call in calls ==> call.fault != CommitFails(true)
    ensures forall n :: 0 <= n <= |calls| ==> Agree(AfterCalls(c, requests, id, calls[..n]))
  {
    forall n | 0 <= n <= |calls| ensures Agree(AfterCalls(c, requests, id, calls[..n])) {
      PrefixAgrees(c, requests, id, calls[..n]);
    }
  }

  lemma {:induction false} PrefixAgrees(c: Copies, requests: Requests, id: RequestId, calls: seq<Call>)
    requires Agree(c) && forall call :: call in calls ==> call.fault != CommitFails(true)
    ensures Agree(AfterCalls(c, requests, id, calls))
  {
    if calls != [] {
      PrefixAgrees(c, requests, id, calls[..|calls| - 1]);
      CallKeepsAgreement(AfterCalls(c, requests, id, calls[..|calls| - 1]), requests, id, calls[|calls| - 1]);
    }
  }
}
