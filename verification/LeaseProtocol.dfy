/** Any number of workers renewing and claiming shard leases, interleaved in any order.

    A worker is suspended at every point where the code awaits or yields, for any length of time:
    in particular between the commit of a claim and each of the `_owned.add`s that follow it.
    Each transaction is one step; the clock readings are the workers' own. */
module LeaseProtocol {
  import opened Common
  import opened Wrappers
  import opened Sequences
  import opened Leases

  /** Where the suspended `changes` generator of a worker stands. */
  datatype Generator =
    | AtRenew
    | Releasing(lost: seq<ShardId>)
    | Claiming(limit: nat)
    | Acquiring(acquired: seq<ShardId>)

  /** `tasks` are the keys of the runtime's shard_tasks; `yielded` is the change the runtime is
      handling; `failed` says that the runtime raised "Shard already acquired". History, read by no
      step: `held` is the epoch the worker obtained for each shard at its latest claim of it, and
      `emitted` is every change yielded so far. */
  datatype Worker = Worker(
    lease: nat, maxShards: int,
    owned: set<ShardId>, gen: Generator, yielded: Option<Change>,
    tasks: set<ShardId>, failed: bool,
    clock: Time, renewedAt: Time,
    held: map<ShardId, int>, emitted: seq<Change>)

  datatype System = System(rows: LeaseTable, workers: map<WorkerId, Worker>, writes: set<LeaseWrite>)

  datatype Action =
    | Provision(s: ShardId, row: LeaseRow)
    | Start(w: WorkerId, lease: nat, maxShards: int, clock: Time)
    | Crash(w: WorkerId)
    | RenewNothing(w: WorkerId)
    | RenewAll(w: WorkerId, now: Time, order: seq<ShardId>)
    | YieldReleased(w: WorkerId)
    | Decide(w: WorkerId)
    | ClaimSome(w: WorkerId, now: Time, picked: seq<ShardId>)
    | YieldAcquired(w: WorkerId)
    | Handle(w: WorkerId)
    | Rest(w: WorkerId)

  // The generator runs only while the runtime waits for it.
  predicate Ready(sys: System, w: WorkerId) {
    w in sys.workers && !sys.workers[w].failed && sys.workers[w].yielded.None?
  }

  predicate Enabled(sys: System, a: Action) {
    match a
    case Provision(s, row) => s !in sys.rows && (row.owner.None? ==> row.leaseUntil.None?)
    case Start(w, _, _, _) => w !in sys.workers
    case Crash(w) => w in sys.workers
    case RenewNothing(w) => Ready(sys, w) && sys.workers[w].gen.AtRenew? && sys.workers[w].owned == {}
    case RenewAll(w, now, order) =>
      && Ready(sys, w) && sys.workers[w].gen.AtRenew? && sys.workers[w].owned != {}
      && sys.workers[w].clock <= now
      && Distinct(order) && SetOf(order) == Lost(sys.rows, w, sys.workers[w].owned)
    case YieldReleased(w) => Ready(sys, w) && sys.workers[w].gen.Releasing? && sys.workers[w].gen.lost != []
    case Decide(w) => Ready(sys, w) && sys.workers[w].gen == Releasing([])
    case ClaimSome(w, now, picked) =>
      && Ready(sys, w) && sys.workers[w].gen.Claiming?
      && sys.workers[w].clock <= now
      && ValidPick(sys.rows, now, sys.workers[w].gen.limit, picked)
    case YieldAcquired(w) => Ready(sys, w) && sys.workers[w].gen.Acquiring? && sys.workers[w].gen.acquired != []
    case Handle(w) => w in sys.workers && !sys.workers[w].failed && sys.workers[w].yielded.Some?
    case Rest(w) => Ready(sys, w) && sys.workers[w].gen == Acquiring([])
  }

  function NewWorker(lease: nat, maxShards: int, clock: Time): Worker {
    Worker(lease, maxShards, {}, AtRenew, None, {}, false, clock, clock, map[], [])
  }

  function RenewWrites(rows: LeaseTable, w: WorkerId, owned: set<ShardId>, now: Time, until: Time): set<LeaseWrite> {
    set s | s in owned && OwnedBy(rows, s, w) :: LeaseWrite(s, rows[s].epoch, w, now, until)
  }

  function ClaimWrites(rows: LeaseTable, w: WorkerId, picked: set<ShardId>, now: Time, until: Time): set<LeaseWrite>
    requires picked <= rows.Keys
  {
    set s | s in picked :: LeaseWrite(s, rows[s].epoch + 1, w, now, until)
  }

  function HeldAfterClaim(rows: LeaseTable, held: map<ShardId, int>, picked: set<ShardId>): map<ShardId, int>
    requires picked <= rows.Keys
  {
    map s | s in held.Keys + picked :: if s in picked then rows[s].epoch + 1 else held[s]
  }

  function Emit(wk: Worker, c: Change): Worker {
    wk.(yielded := Some(c), emitted := wk.emitted + [c],
        owned := if c.Acquired? then wk.owned + {c.shard} else wk.owned - {c.shard})
  }

  /** The runtime's reaction to a change. */
  function Handled(wk: Worker): Worker
    requires wk.yielded.Some?
  {
    match wk.yielded.value
    case Acquired(s) =>
      if s in wk.tasks then wk.(failed := true)
      else wk.(yielded := None, tasks := wk.tasks + {s})
    case Released(s) => wk.(yielded := None, tasks := wk.tasks - {s})
  }

  function Apply(sys: System, a: Action): System
    requires Enabled(sys, a)
  {
    match a
    case Provision(s, row) => sys.(rows := sys.rows[s := row])
    case Start(w, lease, maxShards, clock) =>
      sys.(workers := sys.workers[w := NewWorker(lease, maxShards, clock)])
    case Crash(w) => sys.(workers := sys.workers - {w})
    case RenewNothing(w) => SetWorker(sys, w, sys.workers[w].(gen := Releasing([])))
    case RenewAll(w, now, order) =>
      var wk := sys.workers[w];
      var until := now + wk.lease;
      SetWorker(sys, w, wk.(gen := Releasing(order), clock := now, renewedAt := now))
        .(rows := Renewed(sys.rows, w, wk.owned, until),
          writes := sys.writes + RenewWrites(sys.rows, w, wk.owned, now, until))
    case YieldReleased(w) =>
      var wk := sys.workers[w];
      SetWorker(sys, w, Emit(wk, Released(wk.gen.lost[0])).(gen := Releasing(wk.gen.lost[1..])))
    case Decide(w) =>
      var wk := sys.workers[w];
      var capacity := wk.maxShards - |wk.owned|;
      SetWorker(sys, w, wk.(gen := if capacity > 0 then Claiming(capacity) else AtRenew))
    case ClaimSome(w, now, picked) =>
      var wk := sys.workers[w];
      var until := now + wk.lease;
      SetWorker(sys, w, wk.(gen := Acquiring(picked), clock := now,
                            held := HeldAfterClaim(sys.rows, wk.held, SetOf(picked))))
        .(rows := Claimed(sys.rows, w, SetOf(picked), until),
          writes := sys.writes + ClaimWrites(sys.rows, w, SetOf(picked), now, until))
    case YieldAcquired(w) =>
      var wk := sys.workers[w];
      SetWorker(sys, w, Emit(wk, Acquired(wk.gen.acquired[0])).(gen := Acquiring(wk.gen.acquired[1..])))
    case Handle(w) => SetWorker(sys, w, Handled(sys.workers[w]))
    case Rest(w) => SetWorker(sys, w, sys.workers[w].(gen := AtRenew))
  }

  function SetWorker(sys: System, w: WorkerId, wk: Worker): System {
    sys.(workers := sys.workers[w := wk])
  }

  /** Before the first worker starts: the table holds any rows that its own claims could have
      left behind, and nobody has written a lease yet. */
  predicate Init(sys: System) {
    && sys.workers == map[]
    && sys.writes == {}
    && forall s :: s in sys.rows ==> (sys.rows[s].owner.None? ==> sys.rows[s].leaseUntil.None?)
  }

  predicate IsRun(sys: System, actions: seq<Action>)
    decreases |actions|
  {
    actions == [] || (Enabled(sys, actions[0]) && IsRun(Apply(sys, actions[0]), actions[1..]))
  }

  function Final(sys: System, actions: seq<Action>): System
    requires IsRun(sys, actions)
    decreases |actions|
  {
    if actions == [] then sys else Final(Apply(sys, actions[0]), actions[1..])
  }

  // ----- What every step keeps -----

  /** The worker's own bookkeeping: what it owns or is about to take it has claimed, and it never
      exceeds its capacity. */
  predicate WorkerInv(wk: Worker) {
    && wk.owned <= wk.held.Keys
    && (wk.gen.Acquiring? ==> SetOf(wk.gen.acquired) <= wk.held.Keys)
    && |wk.owned| + Wanted(wk) <= if wk.maxShards < 0 then 0 else wk.maxShards
  }

  function Wanted(wk: Worker): nat {
    match wk.gen
    case Claiming(limit) => limit
    case Acquiring(acquired) => |acquired|
    case _ => 0
  }

  /** The row names the worker as owner exactly when the epoch it obtained is the row's own. */
  predicate BeliefInv(rows: LeaseTable, w: WorkerId, wk: Worker) {
    forall s :: s in wk.held ==>
      && s in rows
      && wk.held[s] <= rows[s].epoch
      && (wk.held[s] == rows[s].epoch <==> rows[s].owner == Some(w))
  }

  predicate EpochsDiffer(a: Worker, b: Worker) {
    forall s :: s in a.held && s in b.held ==> a.held[s] != b.held[s]
  }

  predicate RowInv(rows: LeaseTable) {
    forall s :: s in rows ==> (rows[s].owner.None? ==> rows[s].leaseUntil.None?)
  }

  /** A lease that is still the worker's own runs no longer than its clock plus the lease time. */
  predicate OwnLeaseInv(rows: LeaseTable, wk: Worker) {
    forall s :: s in wk.held && s in rows && wk.held[s] == rows[s].epoch ==>
      rows[s].leaseUntil.Some? && rows[s].leaseUntil.value <= wk.clock + wk.lease
  }

  predicate WriteInv(rows: LeaseTable, writes: set<LeaseWrite>) {
    forall a :: a in writes ==>
      && a.shard in rows
      && a.now <= a.until
      && a.epoch <= rows[a.shard].epoch
      && (a.epoch == rows[a.shard].epoch ==> rows[a.shard].owner == Some(a.owner))
      && rows[a.shard].leaseUntil.Some? && a.until <= rows[a.shard].leaseUntil.value
  }

  /** Leases of a later epoch start after all leases of an earlier one have run out. */
  predicate DisjointWrites(writes: set<LeaseWrite>) {
    forall a, b :: a in writes && b in writes && a.shard == b.shard ==>
      && (a.epoch == b.epoch ==> a.owner == b.owner)
      && (a.epoch < b.epoch ==> a.until < b.now)
  }

  predicate PastLeasesInv(rows: LeaseTable, wk: Worker, writes: set<LeaseWrite>) {
    forall a :: a in writes && a.shard in wk.held && a.shard in rows
                && wk.held[a.shard] == rows[a.shard].epoch && a.epoch < rows[a.shard].epoch ==>
      a.until < wk.clock
  }

  predicate LeaseInv(rows: LeaseTable, writes: set<LeaseWrite>, w: WorkerId, wk: Worker) {
    BeliefInv(rows, w, wk) && OwnLeaseInv(rows, wk) && PastLeasesInv(rows, wk, writes)
  }

  predicate Inv(sys: System) {
    && RowInv(sys.rows)
    && WriteInv(sys.rows, sys.writes)
    && DisjointWrites(sys.writes)
    && (forall w :: w in sys.workers ==> WorkerInv(sys.workers[w]) && LeaseInv(sys.rows, sys.writes, w, sys.workers[w]))
    && (forall v, w :: v in sys.workers && w in sys.workers && v != w ==>
          EpochsDiffer(sys.workers[v], sys.workers[w]))
  }

  // Steps that touch neither the table nor any epoch keep everything but the bookkeeping.
  lemma LocalStepKeepsInv(sys: System, w: WorkerId, wk: Worker)
    requires Inv(sys) && w in sys.workers
    requires WorkerInv(wk)
    requires wk.held == sys.workers[w].held && wk.clock == sys.workers[w].clock && wk.lease == sys.workers[w].lease
    ensures Inv(SetWorker(sys, w, wk))
  {
    LocalStepKeepsLeases(sys.rows, sys.writes, w, sys.workers[w], wk);
    hide LeaseInv, WriteInv, DisjointWrites, RowInv, WorkerInv;
  }

  lemma LocalStepKeepsLeases(rows: LeaseTable, writes: set<LeaseWrite>, w: WorkerId, wk: Worker, wk': Worker)
    requires LeaseInv(rows, writes, w, wk)
    requires wk'.held == wk.held && wk'.clock == wk.clock && wk'.lease == wk.lease
    ensures LeaseInv(rows, writes, w, wk')
  {
  }

  lemma EmitKeepsWorkerInv(wk: Worker, c: Change, gen: Generator)
    requires WorkerInv(wk)
    requires c.Released? ==> wk.gen.Releasing? && gen.Releasing?
    requires c.Acquired? ==> wk.gen.Acquiring? && gen.Acquiring? && wk.gen.acquired == [c.shard] + gen.acquired
    ensures WorkerInv(Emit(wk, c).(gen := gen))
  {
    if c.Released? {
      assert |wk.owned - {c.shard}| <= |wk.owned|;
    } else {
      assert c.shard in SetOf(wk.gen.acquired);
      assert SetOf(gen.acquired) <= SetOf(wk.gen.acquired);
      assert |wk.owned + {c.shard}| <= |wk.owned| + 1;
    }
  }

  // ----- Renewal -----

  /** What a renewal changes of a row: at most the end of a lease of the worker's own, which it
      moves no earlier. */
  predicate RenewFrame(rows: LeaseTable, after: LeaseTable, w: WorkerId, until: Time) {
    && after.Keys == rows.Keys
    && forall s :: s in rows ==>
      && after[s].owner == rows[s].owner
      && after[s].epoch == rows[s].epoch
      && (after[s].leaseUntil == rows[s].leaseUntil || (rows[s].owner == Some(w) && after[s].leaseUntil == Some(until)))
      && (rows[s].leaseUntil.Some? ==>
            after[s].leaseUntil.Some? && rows[s].leaseUntil.value <= after[s].leaseUntil.value)
  }

  lemma RenewalFrame(rows: LeaseTable, w: WorkerId, wk: Worker, now: Time)
    requires BeliefInv(rows, w, wk) && OwnLeaseInv(rows, wk)
    requires wk.owned <= wk.held.Keys && wk.clock <= now
    ensures RenewFrame(rows, Renewed(rows, w, wk.owned, now + wk.lease), w, now + wk.lease)
  {
  }

  lemma RenewKeepsWrites(rows: LeaseTable, w: WorkerId, wk: Worker, now: Time, writes: set<LeaseWrite>)
    requires LeaseInv(rows, writes, w, wk)
    requires wk.owned <= wk.held.Keys && wk.clock <= now
    requires WriteInv(rows, writes)
    ensures WriteInv(Renewed(rows, w, wk.owned, now + wk.lease),
                     writes + RenewWrites(rows, w, wk.owned, now, now + wk.lease))
  {
    RenewalFrame(rows, w, wk, now);
  }

  lemma RenewKeepsDisjoint(rows: LeaseTable, w: WorkerId, wk: Worker, now: Time, writes: set<LeaseWrite>)
    requires LeaseInv(rows, writes, w, wk)
    requires wk.owned <= wk.held.Keys && wk.clock <= now
    requires WriteInv(rows, writes) && DisjointWrites(writes)
    ensures DisjointWrites(writes + RenewWrites(rows, w, wk.owned, now, now + wk.lease))
  {
    var added := RenewWrites(rows, w, wk.owned, now, now + wk.lease);
    forall a, b | a in writes && b in added && a.shard == b.shard
      ensures a.epoch <= b.epoch
      ensures a.epoch == b.epoch ==> a.owner == b.owner
      ensures a.epoch < b.epoch ==> a.until < b.now
    {
    }
    forall a, b | a in added && b in added && a.shard == b.shard ensures a.epoch == b.epoch && a.owner == b.owner {
    }
  }

  lemma RenewKeepsOther(rows: LeaseTable, after: LeaseTable, w: WorkerId, until: Time, v: WorkerId, wv: Worker)
    requires RenewFrame(rows, after, w, until) && v != w
    requires BeliefInv(rows, v, wv) && OwnLeaseInv(rows, wv)
    ensures BeliefInv(after, v, wv) && OwnLeaseInv(after, wv)
  {
  }

  lemma RenewKeepsPast(rows: LeaseTable, w: WorkerId, wk: Worker, now: Time, writes: set<LeaseWrite>, wv: Worker,
                       clock: Time)
    requires PastLeasesInv(rows, wv, writes) && wv.clock <= clock
    ensures PastLeasesInv(Renewed(rows, w, wk.owned, now + wk.lease), wv.(clock := clock),
                          writes + RenewWrites(rows, w, wk.owned, now, now + wk.lease))
  {
  }

  lemma RenewKeepsSelf(rows: LeaseTable, w: WorkerId, wk: Worker, now: Time, order: seq<ShardId>)
    requires BeliefInv(rows, w, wk) && OwnLeaseInv(rows, wk)
    requires wk.owned <= wk.held.Keys && wk.clock <= now
    ensures var after := Renewed(rows, w, wk.owned, now + wk.lease);
            var wk' := wk.(gen := Releasing(order), clock := now, renewedAt := now);
            BeliefInv(after, w, wk') && OwnLeaseInv(after, wk')
  {
    RenewalFrame(rows, w, wk, now);
  }

  lemma RenewKeepsLeases(rows: LeaseTable, writes: set<LeaseWrite>, w: WorkerId, wk: Worker, now: Time,
                         order: seq<ShardId>,
                         v: WorkerId, wv: Worker)
    requires LeaseInv(rows, writes, w, wk) && wk.owned <= wk.held.Keys && wk.clock <= now
    requires LeaseInv(rows, writes, v, wv) && (v == w ==> wv == wk)
    ensures var wv' := if v == w then wk.(gen := Releasing(order), clock := now, renewedAt := now) else wv;
            LeaseInv(Renewed(rows, w, wk.owned, now + wk.lease),
                     writes + RenewWrites(rows, w, wk.owned, now, now + wk.lease), v, wv')
  {
    RenewalFrame(rows, w, wk, now);
    if v == w {
      RenewKeepsSelf(rows, w, wk, now, order);
      RenewKeepsPast(rows, w, wk, now, writes, wk, now);
    } else {
      RenewKeepsOther(rows, Renewed(rows, w, wk.owned, now + wk.lease), w, now + wk.lease, v, wv);
      RenewKeepsPast(rows, w, wk, now, writes, wv, wv.clock);
      assert wv.(clock := wv.clock) == wv;
    }
  }

  lemma RenewKeepsInv(sys: System, w: WorkerId, now: Time, order: seq<ShardId>)
    requires Inv(sys) && Enabled(sys, RenewAll(w, now, order))
    ensures Inv(Apply(sys, RenewAll(w, now, order)))
  {
    hide LeaseInv, WriteInv, DisjointWrites, RowInv, EpochsDiffer, Renewed, RenewWrites;
    var wk := sys.workers[w];
    RenewKeepsWrites(sys.rows, w, wk, now, sys.writes);
    RenewKeepsDisjoint(sys.rows, w, wk, now, sys.writes);
    forall v | v in sys.workers
      ensures LeaseInv(Apply(sys, RenewAll(w, now, order)).rows, Apply(sys, RenewAll(w, now, order)).writes,
                       v, Apply(sys, RenewAll(w, now, order)).workers[v])
    {
      RenewKeepsLeases(sys.rows, sys.writes, w, wk, now, order, v, sys.workers[v]);
    }
    RenewKeepsBookkeeping(sys, w, now, order);
  }

  lemma RenewKeepsBookkeeping(sys: System, w: WorkerId, now: Time, order: seq<ShardId>)
    requires Inv(sys) && Enabled(sys, RenewAll(w, now, order))
    ensures var sys' := Apply(sys, RenewAll(w, now, order));
            && RowInv(sys'.rows)
            && (forall v :: v in sys'.workers ==> WorkerInv(sys'.workers[v]))
            && (forall u, v :: u in sys'.workers && v in sys'.workers && u != v ==>
                EpochsDiffer(sys'.workers[u], sys'.workers[v]))
  {
  }

  // ----- Claims -----

  lemma ClaimKeepsRows(rows: LeaseTable, w: WorkerId, picked: set<ShardId>, now: Time, lease: nat,
                       writes: set<LeaseWrite>)
    requires RowInv(rows) && WriteInv(rows, writes)
    requires forall s :: s in picked ==> s in rows && Claimable(rows[s], now)
    ensures RowInv(Claimed(rows, w, picked, now + lease))
    ensures WriteInv(Claimed(rows, w, picked, now + lease), writes + ClaimWrites(rows, w, picked, now, now + lease))
  {
  }

  lemma ClaimKeepsDisjoint(rows: LeaseTable, w: WorkerId, picked: set<ShardId>, now: Time, until: Time,
                           writes: set<LeaseWrite>)
    requires RowInv(rows) && WriteInv(rows, writes) && DisjointWrites(writes)
    requires forall s :: s in picked ==> s in rows && Claimable(rows[s], now)
    ensures DisjointWrites(writes + ClaimWrites(rows, w, picked, now, until))
  {
    var added := ClaimWrites(rows, w, picked, now, until);
    forall a, b | a in writes && b in added && a.shard == b.shard ensures a.epoch < b.epoch && a.until < b.now {
    }
    forall a, b | a in added && b in added && a.shard == b.shard ensures a.epoch == b.epoch && a.owner == b.owner {
    }
  }

  lemma ClaimKeepsOther(rows: LeaseTable, w: WorkerId, picked: set<ShardId>, now: Time, until: Time,
                        writes: set<LeaseWrite>, v: WorkerId, wv: Worker)
    requires picked <= rows.Keys && v != w
    requires LeaseInv(rows, writes, v, wv)
    ensures LeaseInv(Claimed(rows, w, picked, until), writes + ClaimWrites(rows, w, picked, now, until), v, wv)
  {
  }

  lemma ClaimKeepsSelf(rows: LeaseTable, w: WorkerId, picked: set<ShardId>, now: Time, writes: set<LeaseWrite>,
                       wk: Worker, wk': Worker)
    requires forall s :: s in picked ==> s in rows && Claimable(rows[s], now)
    requires RowInv(rows) && WriteInv(rows, writes)
    requires LeaseInv(rows, writes, w, wk)
    requires wk.clock <= now == wk'.clock && wk'.lease == wk.lease
    requires wk'.held == HeldAfterClaim(rows, wk.held, picked)
    ensures LeaseInv(Claimed(rows, w, picked, now + wk.lease),
                     writes + ClaimWrites(rows, w, picked, now, now + wk.lease), w, wk')
  {
  }

  lemma ClaimKeepsEpochsApart(rows: LeaseTable, v: WorkerId, wv: Worker, wk: Worker, wk': Worker, picked: set<ShardId>)
    requires picked <= rows.Keys
    requires BeliefInv(rows, v, wv) && EpochsDiffer(wv, wk)
    requires wk'.held == HeldAfterClaim(rows, wk.held, picked)
    ensures EpochsDiffer(wv, wk')
  {
  }

  lemma ClaimKeepsBookkeeping(sys: System, w: WorkerId, now: Time, picked: seq<ShardId>)
    requires Inv(sys) && Enabled(sys, ClaimSome(w, now, picked))
    ensures var sys' := Apply(sys, ClaimSome(w, now, picked));
            && (forall v :: v in sys'.workers ==> WorkerInv(sys'.workers[v]))
            && (forall u, v :: u in sys'.workers && v in sys'.workers && u != v ==>
                EpochsDiffer(sys'.workers[u], sys'.workers[v]))
  {
    var wk, wk' := sys.workers[w], Apply(sys, ClaimSome(w, now, picked)).workers[w];
    forall v | v in sys.workers && v != w ensures EpochsDiffer(sys.workers[v], wk') {
      ClaimKeepsEpochsApart(sys.rows, v, sys.workers[v], wk, wk', SetOf(picked));
    }
  }

  lemma ClaimKeepsInv(sys: System, w: WorkerId, now: Time, picked: seq<ShardId>)
    requires Inv(sys) && Enabled(sys, ClaimSome(w, now, picked))
    ensures Inv(Apply(sys, ClaimSome(w, now, picked)))
  {
    hide LeaseInv, WriteInv, DisjointWrites, RowInv, EpochsDiffer, Claimed, ClaimWrites, HeldAfterClaim;
    var wk, shards := sys.workers[w], SetOf(picked);
    ClaimKeepsRows(sys.rows, w, shards, now, wk.lease, sys.writes);
    ClaimKeepsDisjoint(sys.rows, w, shards, now, now + wk.lease, sys.writes);
    ClaimKeepsBookkeeping(sys, w, now, picked);
    var sys' := Apply(sys, ClaimSome(w, now, picked));
    forall v | v in sys.workers ensures LeaseInv(sys'.rows, sys'.writes, v, sys'.workers[v]) {
      if v == w {
        ClaimKeepsSelf(sys.rows, w, shards, now, sys.writes, wk, sys'.workers[w]);
      } else {
        ClaimKeepsOther(sys.rows, w, shards, now, now + wk.lease, sys.writes, v, sys.workers[v]);
      }
    }
  }

  // ----- All steps -----

  lemma ProvisionKeepsLeases(rows: LeaseTable, writes: set<LeaseWrite>, s: ShardId, row: LeaseRow, w: WorkerId,
                             wk: Worker)
    requires s !in rows && WriteInv(rows, writes) && LeaseInv(rows, writes, w, wk)
    ensures LeaseInv(rows[s := row], writes, w, wk)
  {
  }

  lemma ProvisionKeepsInv(sys: System, s: ShardId, row: LeaseRow)
    requires Inv(sys) && Enabled(sys, Provision(s, row))
    ensures Inv(Apply(sys, Provision(s, row)))
  {
    assert RowInv(sys.rows[s := row]) && WriteInv(sys.rows[s := row], sys.writes);
    hide LeaseInv, RowInv, WriteInv, DisjointWrites, EpochsDiffer, WorkerInv;
    forall w | w in sys.workers ensures LeaseInv(sys.rows[s := row], sys.writes, w, sys.workers[w]) {
      ProvisionKeepsLeases(sys.rows, sys.writes, s, row, w, sys.workers[w]);
    }
  }

  lemma StartKeepsInv(sys: System, w: WorkerId, lease: nat, maxShards: int, clock: Time)
    requires Inv(sys) && Enabled(sys, Start(w, lease, maxShards, clock))
    ensures Inv(Apply(sys, Start(w, lease, maxShards, clock)))
  {
    assert LeaseInv(sys.rows, sys.writes, w, NewWorker(lease, maxShards, clock));
  }

  lemma StepKeepsInv(sys: System, a: Action)
    requires Inv(sys) && Enabled(sys, a)
    ensures Inv(Apply(sys, a))
  {
    hide LeaseInv, RowInv, WriteInv, DisjointWrites, EpochsDiffer;
    match a
    case Provision(s, row) => ProvisionKeepsInv(sys, s, row);
    case Start(w, lease, maxShards, clock) => StartKeepsInv(sys, w, lease, maxShards, clock);
    case Crash(w) =>
    case RenewNothing(w) => LocalStepKeepsInv(sys, w, sys.workers[w].(gen := Releasing([])));
    case RenewAll(w, now, order) => RenewKeepsInv(sys, w, now, order);
    case YieldReleased(w) =>
      var wk := sys.workers[w];
      EmitKeepsWorkerInv(wk, Released(wk.gen.lost[0]), Releasing(wk.gen.lost[1..]));
      LocalStepKeepsInv(sys, w, Emit(wk, Released(wk.gen.lost[0])).(gen := Releasing(wk.gen.lost[1..])));
    case Decide(w) =>
      var wk := sys.workers[w];
      var capacity := wk.maxShards - |wk.owned|;
      LocalStepKeepsInv(sys, w, wk.(gen := if capacity > 0 then Claiming(capacity) else AtRenew));
    case ClaimSome(w, now, picked) => ClaimKeepsInv(sys, w, now, picked);
    case YieldAcquired(w) =>
      var wk := sys.workers[w];
      EmitKeepsWorkerInv(wk, Acquired(wk.gen.acquired[0]), Acquiring(wk.gen.acquired[1..]));
      LocalStepKeepsInv(sys, w, Emit(wk, Acquired(wk.gen.acquired[0])).(gen := Acquiring(wk.gen.acquired[1..])));
    case Handle(w) => LocalStepKeepsInv(sys, w, Handled(sys.workers[w]));
    case Rest(w) => LocalStepKeepsInv(sys, w, sys.workers[w].(gen := AtRenew));
  }

  // ----- Whole runs -----

  lemma {:induction false} RunKeepsInv(sys: System, actions: seq<Action>)
    requires Inv(sys) && IsRun(sys, actions)
    ensures Inv(Final(sys, actions))
    decreases |actions|
  {
    if actions != [] {
      StepKeepsInv(sys, actions[0]);
      RunKeepsInv(Apply(sys, actions[0]), actions[1..]);
    }
  }

  /** The shards a worker believes to hold: those it owns and those it has claimed but not yet added. */
  function Believed(wk: Worker): set<ShardId> {
    wk.owned + if wk.gen.Acquiring? then SetOf(wk.gen.acquired) else {}
  }

  /** In every run, comparing the owner of a row is comparing epochs: a believed shard is still the
      worker's own exactly when its row carries the epoch of the worker's latest claim, so a renewal
      reports as lost exactly the stale beliefs, and no two workers ever hold the same epoch. */
  lemma OwnerCheckIsEpochCheck(sys: System, actions: seq<Action>, w: WorkerId)
    requires Init(sys) && IsRun(sys, actions)
    requires w in Final(sys, actions).workers
    ensures var f := Final(sys, actions);
            var wk := f.workers[w];
            && (forall s :: s in Believed(wk) ==>
                  s in wk.held && s in f.rows && (OwnedBy(f.rows, s, w) <==> wk.held[s] == f.rows[s].epoch))
            && Lost(f.rows, w, wk.owned) == (set s | s in wk.owned && wk.held[s] != f.rows[s].epoch)
            && (forall v, s :: v in f.workers && v != w && s in Believed(wk) && s in Believed(f.workers[v]) ==>
                  s in f.workers[v].held && wk.held[s] != f.workers[v].held[s])
  {
    RunKeepsInv(sys, actions);
    var f := Final(sys, actions);
    var wk := f.workers[w];
    assert LeaseInv(f.rows, f.writes, w, wk) && WorkerInv(wk);
    forall v, s | v in f.workers && v != w && s in Believed(wk) && s in Believed(f.workers[v])
      ensures s in f.workers[v].held && wk.held[s] != f.workers[v].held[s]
    {
      assert WorkerInv(f.workers[v]) && EpochsDiffer(wk, f.workers[v]);
    }
  }

  /** In every run, two leases of one shard that differ in epoch or in owner never overlap: each
      worker's clock need only never go back. */
  lemma LeasesNeverOverlap(sys: System, actions: seq<Action>, a: LeaseWrite, b: LeaseWrite)
    requires Init(sys) && IsRun(sys, actions)
    requires a in Final(sys, actions).writes && b in Final(sys, actions).writes && a.shard == b.shard
    ensures a.owner != b.owner ==> a.epoch != b.epoch
    ensures a.epoch < b.epoch ==> a.until < b.now
    ensures a.epoch != b.epoch ==> a.until < b.now || b.until < a.now
  {
    RunKeepsInv(sys, actions);
  }

  /** In every run, no worker ever owns more shards than its maximum. */
  lemma CapacityHolds(sys: System, actions: seq<Action>, w: WorkerId)
    requires Init(sys) && IsRun(sys, actions)
    requires w in Final(sys, actions).workers
    ensures var wk := Final(sys, actions).workers[w]; |wk.owned| <= if wk.maxShards < 0 then 0 else wk.maxShards
  {
    RunKeepsInv(sys, actions);
  }

  predicate Claims(a: Action, s: ShardId) {
    a.ClaimSome? && s in a.picked
  }

  function ClaimCount(actions: seq<Action>, s: ShardId): nat {
    if actions == [] then 0 else (if Claims(actions[0], s) then 1 else 0) + ClaimCount(actions[1..], s)
  }

  /** No end of lease is ever moved back. */
  predicate NotEarlier(a: Option<Time>, b: Option<Time>) {
    a.Some? ==> b.Some? && a.value <= b.value
  }

  /** A step moves a row only forward: its epoch rises by one when the step claims it and stays
      otherwise, and a row that had an end of lease is claimed only after that end. */
  lemma StepMovesRowForward(sys: System, a: Action, s: ShardId)
    requires Inv(sys) && Enabled(sys, a) && s in sys.rows
    ensures var before, after := sys.rows[s], Apply(sys, a).rows;
            && s in after
            && after[s].epoch == before.epoch + (if Claims(a, s) then 1 else 0)
            && NotEarlier(before.leaseUntil, after[s].leaseUntil)
            && (Claims(a, s) && before.leaseUntil.Some? ==> before.leaseUntil.value < a.now)
  {
    if a.RenewAll? {
      var wk := sys.workers[a.w];
      assert WorkerInv(wk) && LeaseInv(sys.rows, sys.writes, a.w, wk);
      RenewalFrame(sys.rows, a.w, wk, a.now);
    }
  }

  /** Over a whole run a row's epoch rises by exactly the number of its claims, and its end of
      lease never goes back. */
  lemma {:induction false} RunMovesRowForward(sys: System, actions: seq<Action>, s: ShardId)
    requires Inv(sys) && IsRun(sys, actions) && s in sys.rows
    ensures s in Final(sys, actions).rows
    ensures Final(sys, actions).rows[s].epoch == sys.rows[s].epoch + ClaimCount(actions, s)
    ensures NotEarlier(sys.rows[s].leaseUntil, Final(sys, actions).rows[s].leaseUntil)
    decreases |actions|
  {
    if actions != [] {
      StepMovesRowForward(sys, actions[0], s);
      StepKeepsInv(sys, actions[0]);
      RunMovesRowForward(Apply(sys, actions[0]), actions[1..], s);
    }
  }

  /** What a worker about to claim can get, in the columns of the row: exactly what has no owner or a lease that
      has run out by its clock. */
  lemma ClaimableExactlyWhenFree(sys: System, w: WorkerId, s: ShardId, now: Time)
    requires Ready(sys, w) && sys.workers[w].gen.Claiming? && 0 < sys.workers[w].gen.limit
    requires sys.workers[w].clock <= now
    ensures (exists picked :: s in picked && Enabled(sys, ClaimSome(w, now, picked))) <==>
      && s in sys.rows
      && (sys.rows[s].owner.None? || (sys.rows[s].leaseUntil.Some? && sys.rows[s].leaseUntil.value < now))
  {
    if s in sys.rows && Claimable(sys.rows[s], now) {
      assert s in [s] && Enabled(sys, ClaimSome(w, now, [s]));
    }
  }
}
