/** The in-memory session registry, the durable session store, and the use cases over the two. */
module SessionUseCases {
  import opened Common
  import opened Wrappers
  import opened Sessions

  class InMemoryPricingSessionRegistry {
    var sessions: SessionMap

    ghost predicate Valid()
      reads this
    {
      Keyed(sessions)
    }

    constructor ()
      ensures Valid() && sessions == map[]
    {
      sessions := map[];
    }

    method Get(requestId: RequestId) returns (session: Option<PricingSession>)
      ensures session == if requestId in sessions then Some(sessions[requestId]) else None
    {
      session := if requestId in sessions then Some(sessions[requestId]) else None;
    }

    method Save(session: PricingSession)
      requires Valid()
      modifies this
      ensures Valid() && sessions == Sessions.Save(old(sessions), session)
    {
      sessions := sessions[session.request.requestId := session];
    }

    method Remove(requestId: RequestId)
      requires Valid()
      modifies this
      ensures Valid() && sessions == old(sessions) - {requestId}
    {
      sessions := sessions - {requestId};
    }

    /** Each session once, in some order. */
    method ListAll() returns (all: seq<PricingSession>)
      requires Valid()
      ensures Lists(all, sessions)
    {
      all := Listing(sessions);
    }
  }

  /** `all` holds each session of `m` exactly once. */
  predicate Lists(all: seq<PricingSession>, m: SessionMap) {
    && |all| == |m|
    && (forall s :: s in all ==> s.request.requestId in m && m[s.request.requestId] == s)
    && (forall i, j :: 0 <= i < j < |all| ==> all[i].request.requestId != all[j].request.requestId)
  }

  method Listing(m: SessionMap) returns (all: seq<PricingSession>)
    requires Keyed(m)
    ensures Lists(all, m)
  {
    all := [];
    var rest := m.Keys;
    while rest != {}
      invariant rest <= m.Keys
      invariant |all| + |rest| == |m.Keys|
      invariant forall s :: s in all ==> s.request.requestId in m.Keys - rest && m[s.request.requestId] == s
      invariant forall i, j :: 0 <= i < j < |all| ==> all[i].request.requestId != all[j].request.requestId
      decreases |rest|
    {
      var id :| id in rest;
      forall i | 0 <= i < |all| ensures all[i].request.requestId != id {
        assert all[i] in all;
      }
      all := all + [m[id]];
      rest := rest - {id};
    }
    assert |m.Keys| == |m|;
  }

  // ----- What a list of sessions holds -----

  function RequestIds(all: seq<PricingSession>): set<RequestId> {
    set s | s in all :: s.request.requestId
  }

  lemma {:induction false} ListLength(all: seq<PricingSession>)
    requires forall i, j :: 0 <= i < j < |all| ==> all[i].request.requestId != all[j].request.requestId
    ensures |RequestIds(all)| == |all|
  {
    if all == [] {
      assert RequestIds(all) == {};
    } else {
      var init, last := all[..|all| - 1], all[|all| - 1];
      ListLength(init);
      assert all == init + [last];
      assert RequestIds(all) == RequestIds(init) + {last.request.requestId};
      assert last.request.requestId !in RequestIds(init);
    }
  }

  lemma SameSizeSubset<T>(a: set<T>, b: set<T>)
    requires a <= b && |a| == |b|
    ensures a == b
  {
    assert |b - a| == |b| - |a|;
    assert b == a + (b - a);
  }

  /** Nothing is missing from a listing. */
  lemma ListsAll(all: seq<PricingSession>, m: SessionMap, id: RequestId)
    requires Lists(all, m) && id in m
    ensures m[id] in all
  {
    ListLength(all);
    assert |m.Keys| == |m|;
    SameSizeSubset(RequestIds(all), m.Keys);
    assert id in RequestIds(all);
  }

  class SqlAlchemyPricingSessionStore {
    var rows: SessionMap
    // The changes of the open transaction.
    var staged: SessionMap

    ghost predicate Valid()
      reads this
    {
      Keyed(rows) && Keyed(staged)
    }

    constructor ()
      ensures Valid() && rows == map[] && staged == map[]
    {
      rows, staged := map[], map[];
    }

    /** Inserts the session or overwrites the row with its request id, once committed. */
    method Save(session: PricingSession)
      requires Valid()
      modifies this`staged
      ensures Valid() && staged == Sessions.Save(old(staged), session)
    {
      staged := staged[session.request.requestId := session];
    }

    method Commit()
      requires Valid()
      modifies this
      ensures Valid() && rows == old(rows) + old(staged) && staged == map[]
    {
      rows, staged := rows + staged, map[];
    }

    /** Leaving the unit of work without having committed. */
    method Rollback()
      requires Valid()
      modifies this`staged
      ensures Valid() && staged == map[]
    {
      staged := map[];
    }

    method ListActive() returns (all: seq<PricingSession>)
      requires Valid()
      ensures Lists(all, ActiveOnly(rows))
      ensures forall s :: s in all <==>
                s.request.requestId in rows && rows[s.request.requestId] == s && s.status == Active
    {
      all := Listing(ActiveOnly(rows));
      forall s: PricingSession | s.request.requestId in rows && rows[s.request.requestId] == s && s.status == Active
        ensures s in all
      {
        ListsAll(all, ActiveOnly(rows), s.request.requestId);
      }
    }
  }

  /** Where handling an event raises, if it does. A commit that raises may have taken effect. */
  datatype Fault = NoFault | BuildFails | SaveFails | CommitFails(applied: bool) | PricingFails

  predicate ReachesStore(fault: Fault) {
    fault.NoFault? || fault.PricingFails? || fault == CommitFails(true)
  }

  predicate ReachesRegistry(fault: Fault) {
    fault.NoFault? || fault.PricingFails?
  }

  datatype HandlingError = HandlingError(fault: Fault)

  class HandleRfqRegisteredForPricingUseCase {
    const store: SqlAlchemyPricingSessionStore
    const registry: InMemoryPricingSessionRegistry

    constructor (store: SqlAlchemyPricingSessionStore, registry: InMemoryPricingSessionRegistry)
      ensures this.store == store && this.registry == registry
    {
      this.store, this.registry := store, registry;
    }

    /** The durable save comes first: whatever raises, the registry never has a session that the store
        does not have, and an event handled without error is in both. */
    method Execute(event: RfqRegistered, fault: Fault) returns (result: Result<(), HandlingError>)
      requires store.Valid() && registry.Valid() && store.staged == map[]
      modifies store, registry
      ensures store.Valid() && registry.Valid() && store.staged == map[]
      ensures result == if fault.NoFault? then Success(()) else Failure(HandlingError(fault))
      ensures store.rows == if ReachesStore(fault) then Register(old(store.rows), event) else old(store.rows)
      ensures registry.sessions ==
        if ReachesRegistry(fault) then Register(old(registry.sessions), event) else old(registry.sessions)
      ensures fault.NoFault? || fault.PricingFails? || fault == CommitFails(true) ==>
        && event.rfqId in store.rows && HasTermsOf(store.rows[event.rfqId], event)
        && store.rows - {event.rfqId} == old(store.rows) - {event.rfqId}
      ensures fault.NoFault? || fault.PricingFails? ==>
        && event.rfqId in registry.sessions && HasTermsOf(registry.sessions[event.rfqId], event)
        && registry.sessions - {event.rfqId} == old(registry.sessions) - {event.rfqId}
      ensures fault.BuildFails? || fault.SaveFails? || fault == CommitFails(false) ==> store.rows == old(store.rows)
      ensures fault.BuildFails? || fault.SaveFails? || fault.CommitFails? ==>
        registry.sessions == old(registry.sessions)
    {
      if fault.BuildFails? {
        return Failure(HandlingError(fault));
      }
      var session := RegisteredSession(event);
      if fault.SaveFails? {
        store.Rollback();
        return Failure(HandlingError(fault));
      }
      store.Save(session);
      if fault == CommitFails(false) {
        store.Rollback();
        return Failure(HandlingError(fault));
      }
      store.Commit();
      if fault.CommitFails? {
        return Failure(HandlingError(fault));
      }
      registry.Save(session);
      if fault.PricingFails? {
        return Failure(HandlingError(fault));
      }
      result := Success(());
    }
  }

  class RestorePricingShardUseCase {
    const store: SqlAlchemyPricingSessionStore
    const registry: InMemoryPricingSessionRegistry
    const route: RequestId -> ShardId

    constructor (store: SqlAlchemyPricingSessionStore, registry: InMemoryPricingSessionRegistry,
                 route: RequestId -> ShardId)
      ensures this.store == store && this.registry == registry && this.route == route
    {
      this.store, this.registry, this.route := store, registry, route;
    }

    /** Adds exactly the active durable sessions of the shard. */
    method Execute(shard: ShardId)
      requires store.Valid() && registry.Valid()
      modifies registry
      ensures registry.Valid()
      ensures registry.sessions == old(registry.sessions) + OfShard(ActiveOnly(store.rows), route, shard)
      ensures forall id: RequestId ::
                if id in store.rows && store.rows[id].status == Active && route(id) == shard then
                  id in registry.sessions && registry.sessions[id] == store.rows[id]
                else SameAt(registry.sessions, old(registry.sessions), id)
    {
      var sessions := store.ListActive();
      for i := 0 to |sessions|
        invariant registry.Valid()
        invariant registry.sessions == old(registry.sessions) + OfShard(SavedInOrder(sessions[..i]), route, shard)
      {
        var session := sessions[i];
        SaveOneMore(sessions, i);
        RestoreOneMore(old(registry.sessions), SavedInOrder(sessions[..i]), session, route, shard);
        if route(session.request.requestId) == shard {
          registry.Save(session);
        }
      }
      assert sessions[..|sessions|] == sessions;
      SavedListing(sessions, ActiveOnly(store.rows));
    }
  }

  /** The map that saving these sessions one after the other builds. */
  function SavedInOrder(all: seq<PricingSession>): SessionMap {
    if all == [] then map[] else Save(SavedInOrder(all[..|all| - 1]), all[|all| - 1])
  }

  lemma SaveOneMore(all: seq<PricingSession>, i: nat)
    requires i < |all|
    ensures SavedInOrder(all[..i + 1]) == Save(SavedInOrder(all[..i]), all[i])
  {
    assert all[..i + 1][..i] == all[..i];
  }

  lemma RestoreOneMore(before: SessionMap, taken: SessionMap, s: PricingSession, route: RequestId -> ShardId,
                       shard: ShardId)
    ensures before + OfShard(Save(taken, s), route, shard) ==
      if route(s.request.requestId) == shard then Save(before + OfShard(taken, route, shard), s)
      else before + OfShard(taken, route, shard)
  {
    assert OfShard(Save(taken, s), route, shard) ==
      if route(s.request.requestId) == shard then Save(OfShard(taken, route, shard), s)
      else OfShard(taken, route, shard);
  }

  lemma {:induction false} SavedKeys(all: seq<PricingSession>, id: RequestId)
    ensures id in SavedInOrder(all) <==> exists s :: s in all && s.request.requestId == id
    ensures id in SavedInOrder(all) ==> SavedInOrder(all)[id] in all && SavedInOrder(all)[id].request.requestId == id
  {
    if all != [] {
      var init, last := all[..|all| - 1], all[|all| - 1];
      SavedKeys(init, id);
      assert all == init + [last];
    }
  }

  /** Saving a listing of a map one by one rebuilds the map. */
  lemma SavedListing(all: seq<PricingSession>, m: SessionMap)
    requires Lists(all, m) && Keyed(m)
    ensures SavedInOrder(all) == m
  {
    forall id: RequestId
      ensures id in SavedInOrder(all) <==> id in m
      ensures id in m ==> SavedInOrder(all)[id] == m[id]
    {
      SavedKeys(all, id);
      if id in m {
        ListsAll(all, m, id);
      }
    }
  }

  class ReleasePricingShardUseCase {
    const registry: InMemoryPricingSessionRegistry
    const route: RequestId -> ShardId

    constructor (registry: InMemoryPricingSessionRegistry, route: RequestId -> ShardId)
      ensures this.registry == registry && this.route == route
    {
      this.registry, this.route := registry, route;
    }

    /** Removes the shard's sessions and no other. */
    method Execute(shard: ShardId)
      requires registry.Valid()
      modifies registry
      ensures registry.Valid()
      ensures registry.sessions == WithoutShard(old(registry.sessions), route, shard)
      ensures forall id: RequestId ::
                if route(id) == shard then id !in registry.sessions
                else SameAt(registry.sessions, old(registry.sessions), id)
    {
      var sessions := registry.ListAll();
      for i := 0 to |sessions|
        invariant registry.Valid()
        invariant registry.sessions == map id | id in old(registry.sessions)
          && (id in RequestIds(sessions[..i]) ==> route(id) != shard) :: old(registry.sessions)[id]
      {
        var session := sessions[i];
        var requestId := session.request.requestId;
        assert sessions[..i + 1] == sessions[..i] + [session];
        assert RequestIds(sessions[..i + 1]) == RequestIds(sessions[..i]) + {requestId};
        if route(requestId) == shard {
          registry.Remove(requestId);
        }
      }
      assert sessions[..|sessions|] == sessions;
      forall id | id in old(registry.sessions) ensures id in RequestIds(sessions) {
        ListsAll(sessions, old(registry.sessions), id);
      }
    }
  }
}
