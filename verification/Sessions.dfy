/** Pricing sessions, and what saving, restoring and releasing them does to a map keyed by request. */
module Sessions {
  import opened Common

  type MarketDataId = string

  datatype PricingRequest = PricingRequest(requestId: RequestId, revision: int, product: Product)

  datatype Status = Active | Deactive

  datatype PricingSession = PricingSession(request: PricingRequest, dependencies: set<MarketDataId>, status: Status) {
    function WithNewRequest(newRequest: PricingRequest): PricingSession {
      this.(request := newRequest)
    }

    function WithNewDependencies(newDependencies: set<MarketDataId>): PricingSession {
      this.(dependencies := newDependencies)
    }
  }

  // The code's placeholder until dependencies are derived from the product.
  const DEFAULT_DEPENDENCIES: set<MarketDataId> := {"JPY-OIS"}

  function RegisteredSession(event: RfqRegistered): PricingSession {
    PricingSession(PricingRequest(event.rfqId, event.revision, event.product), DEFAULT_DEPENDENCIES, Active)
  }

  type SessionMap = map<RequestId, PricingSession>

  function Save(m: SessionMap, session: PricingSession): SessionMap {
    m[session.request.requestId := session]
  }

  function Register(m: SessionMap, event: RfqRegistered): SessionMap {
    Save(m, RegisteredSession(event))
  }

  function ActiveOnly(m: SessionMap): SessionMap {
    map id | id in m && m[id].status.Active? :: m[id]
  }

  /** The sessions of one shard: `route` is the partitioner that producer and worker share. */
  function OfShard(m: SessionMap, route: RequestId -> ShardId, p: ShardId): SessionMap {
    map id | id in m && route(id) == p :: m[id]
  }

  function WithoutShard(m: SessionMap, route: RequestId -> ShardId, p: ShardId): SessionMap {
    map id | id in m && route(id) != p :: m[id]
  }

  /** The session that the registered event asks for: its request, revision and product, active, depending on
      the one market datum that every session depends on so far. */
  predicate HasTermsOf(session: PricingSession, event: RfqRegistered) {
    && session.request.requestId == event.rfqId
    && session.request.revision == event.revision
    && session.request.product == event.product
    && session.dependencies == {"JPY-OIS"}
    && session.status == Active
  }

  predicate SameAt(a: SessionMap, b: SessionMap, id: RequestId) {
    (id in a <==> id in b) && (id in a ==> a[id] == b[id])
  }

  /** Sessions are stored under their own request id. */
  predicate Keyed(m: SessionMap) {
    forall id :: id in m ==> m[id].request.requestId == id
  }
}
