/** The Postgres-backed source of shard ownership changes, as one worker runs it. */
module PostgresOwnership {
  import opened Common
  import opened Wrappers
  import opened Sequences
  import opened Leases

  predicate IsLeast(m: ShardId, s: set<ShardId>) {
    m in s && forall x :: x in s ==> m <= x
  }

  lemma MinExists(s: set<ShardId>)
    requires s != {}
    ensures exists m :: IsLeast(m, s)
    decreases s
  {
    var a :| a in s;
    if s == {a} {
      assert IsLeast(a, s);
    } else {
      MinExists(s - {a});
      var b :| IsLeast(b, s - {a});
      var m := if a <= b then a else b;
      assert IsLeast(m, s) by {
        forall x | x in s ensures m <= x { if x != a { assert x in s - {a}; } }
      }
    }
  }

  function Acquisitions(acquired: seq<ShardId>): seq<Change> {
    seq(|acquired|, i requires 0 <= i < |acquired| => Acquired(acquired[i]))
  }

  lemma NoAcquisition()
    ensures Acquisitions([]) == []
  {
  }

  lemma OneMoreAcquisition(acquired: seq<ShardId>, s: ShardId)
    ensures Acquisitions(acquired + [s]) == Acquisitions(acquired) + [Acquired(s)]
  {
  }

  class LeaseDatabase {
    var rows: LeaseTable

    /** `SELECT ... ORDER BY shard_id FOR UPDATE SKIP LOCKED LIMIT limit`; `locked` are the rows that other
        transactions have locked. */
    method SelectClaimable(locked: set<ShardId>, now: Time, limit: nat) returns (picked: seq<ShardId>)
      ensures LowestClaimable(rows, locked, now, limit, picked)
      ensures forall s :: s in picked ==>
                && s in rows && s !in locked
                && (rows[s].owner.None? || (rows[s].leaseUntil.Some? && rows[s].leaseUntil.value < now))
      ensures forall s | s in rows && s !in locked && s !in picked
                && (rows[s].owner.None? || (rows[s].leaseUntil.Some? && rows[s].leaseUntil.value < now)) ::
                |picked| == limit && forall p :: p in picked ==> p < s
    {
      picked := [];
      var rest := rows.Keys - locked;
      while rest != {} && |picked| < limit
        invariant rest <= rows.Keys - locked
        invariant forall p, r :: p in picked && r in rest ==> p < r
        invariant ValidPick(rows, now, limit, picked)
        invariant forall p :: p in picked ==> p !in locked
        invariant forall s :: s in rows && s !in locked && Claimable(rows[s], now) ==> s in picked || s in rest
        decreases |rest|
      {
        MinExists(rest);
        var s :| s in rest && IsLeast(s, rest);
        rest := rest - {s};
        if Claimable(rows[s], now) {
          ExtendPick(rows, now, limit, picked, s);
          picked := picked + [s];
        }
      }
    }
  }

  class PostgresPricingShardOwnership {
    const db: LeaseDatabase
    const workerId: WorkerId
    const leaseDuration: nat
    const maxShards: int
    var owned: set<ShardId>

    constructor (db: LeaseDatabase, workerId: WorkerId, leaseDuration: nat, maxShards: int)
      ensures this.db == db && this.workerId == workerId
      ensures this.leaseDuration == leaseDuration && this.maxShards == maxShards
      ensures owned == {}
    {
      this.db, this.workerId := db, workerId;
      this.leaseDuration, this.maxShards := leaseDuration, maxShards;
      owned := {};
    }

    /** One transaction: every owned shard whose row still names this worker is extended, and the
        others are reported as lost. */
    method RenewOwned(now: Time) returns (lost: set<ShardId>)
      modifies db
      ensures db.rows == Renewed(old(db.rows), workerId, owned, now + leaseDuration)
      ensures lost == Lost(old(db.rows), workerId, owned)
      ensures forall s :: s in lost <==> s in owned && !(s in old(db.rows) && old(db.rows)[s].owner == Some(workerId))
      ensures db.rows.Keys == old(db.rows).Keys
      ensures forall s :: s in db.rows ==>
                var row := old(db.rows)[s];
                db.rows[s] == if s in owned && row.owner == Some(workerId)
                              then LeaseRow(row.owner, Some(now + leaseDuration), row.epoch) else row
    {
      RenewedRows(db.rows, workerId, owned, now + leaseDuration);
      hide Renewed;
      RenewNone(db.rows, workerId, now + leaseDuration);
      if owned == {} {
        return {};
      }
      var newExpiry := now + leaseDuration;
      var renewed: set<ShardId>, visited: set<ShardId> := {}, {};
      while visited != owned
        invariant visited <= owned
        invariant db.rows == Renewed(old(db.rows), workerId, visited, newExpiry)
        invariant renewed == set s | s in visited && OwnedBy(old(db.rows), s, workerId)
        decreases |owned - visited|
      {
        var s :| s in owned - visited;
        RenewOne(old(db.rows), workerId, visited, s, newExpiry);
        assert owned - visited == (owned - (visited + {s})) + {s};
        if s in db.rows && db.rows[s].owner == Some(workerId) {
          db.rows := db.rows[s := db.rows[s].(leaseUntil := Some(newExpiry))];
          renewed := renewed + {s};
        }
        visited := visited + {s};
      }
      lost := owned - renewed;
    }

    /** One transaction: up to `limit` claimable rows become this worker's, each with its epoch
        raised by one. */
    method ClaimAvailable(limit: int, locked: set<ShardId>, now: Time) returns (acquired: seq<ShardId>)
      modifies db
      ensures limit <= 0 ==> acquired == []
      ensures 0 < limit ==> LowestClaimable(old(db.rows), locked, now, limit, acquired)
      ensures db.rows == Claimed(old(db.rows), workerId, SetOf(acquired), now + leaseDuration)
      ensures db.rows.Keys == old(db.rows).Keys
      ensures forall s :: s in db.rows ==>
                var row := old(db.rows)[s];
                db.rows[s] == if s in acquired then LeaseRow(Some(workerId), Some(now + leaseDuration), row.epoch + 1)
                              else row
    {
      acquired := [];
      if limit <= 0 {
        return;
      }
      var newExpiry := now + leaseDuration;
      var picked := db.SelectClaimable(locked, now, limit);
      for i := 0 to |picked|
        invariant acquired == picked[..i]
        invariant db.rows == Claimed(old(db.rows), workerId, SetOf(picked[..i]), newExpiry)
      {
        var s := picked[i];
        assert picked[..i + 1] == picked[..i] + [s];
        assert SetOf(picked[..i + 1]) == SetOf(picked[..i]) + {s};
        ClaimOne(old(db.rows), workerId, SetOf(picked[..i]), s, newExpiry);
        db.rows := db.rows[s := ClaimedRow(db.rows[s], workerId, newExpiry)];
        acquired := acquired + [s];
      }
      assert picked[..|picked|] == picked;
    }

    /** Drops the lost shards one by one, yielding a release for each. */
    method ReleaseLost(lost: set<ShardId>) returns (changes: seq<Change>)
      requires lost <= owned
      modifies this
      ensures owned == old(owned) - lost == OwnedAfter(old(owned), changes)
      ensures Alternating(old(owned), changes)
      ensures forall s :: s in lost <==> Released(s) in changes
      ensures forall c :: c in changes ==> c.Released?
    {
      NoChange(owned);
      hide OwnedAfter, Alternating;
      changes := [];
      var rest := lost;
      while rest != {}
        invariant rest <= lost
        invariant owned == old(owned) - (lost - rest) == OwnedAfter(old(owned), changes)
        invariant Alternating(old(owned), changes)
        invariant forall s :: s in lost - rest <==> Released(s) in changes
        invariant forall c :: c in changes ==> c.Released?
        decreases |rest|
      {
        var s :| s in rest;
        OneMoreChange(old(owned), changes, Released(s));
        owned := owned - {s};
        changes := changes + [Released(s)];
        rest := rest - {s};
      }
    }

    /** Takes the claimed shards one by one, yielding an acquisition for each. */
    method TakeAcquired(ghost start: set<ShardId>, sofar: seq<Change>, acquired: seq<ShardId>)
      returns (changes: seq<Change>)
      requires forall i, j :: 0 <= i < j < |acquired| ==> acquired[i] < acquired[j]
      requires owned == OwnedAfter(start, sofar)
      modifies this
      ensures changes == sofar + Acquisitions(acquired)
      ensures owned == old(owned) + SetOf(acquired) == OwnedAfter(start, changes)
      ensures Alternating(start, sofar) && old(owned) !! SetOf(acquired) ==> Alternating(start, changes)
    {
      hide OwnedAfter, Alternating;
      changes := sofar;
      assert sofar + Acquisitions(acquired[..0]) == sofar;
      for i := 0 to |acquired|
        invariant changes == sofar + Acquisitions(acquired[..i])
        invariant owned == old(owned) + SetOf(acquired[..i]) == OwnedAfter(start, changes)
        invariant Alternating(start, sofar) && old(owned) !! SetOf(acquired) ==> Alternating(start, changes)
      {
        var s := acquired[i];
        assert acquired[..i + 1] == acquired[..i] + [s];
        OneMoreAcquisition(acquired[..i], s);
        hide Acquisitions;
        OneMoreChange(start, changes, Acquired(s));
        owned := owned + {s};
        changes := changes + [Acquired(s)];
      }
      assert acquired[..|acquired|] == acquired;
    }

    /** The second half of a pass: claims what the capacity allows and takes it. */
    method FillUp(ghost start: set<ShardId>, sofar: seq<Change>, ghost until: Time, locked: set<ShardId>,
                  claimNow: Time)
      returns (changes: seq<Change>, ghost acquired: seq<ShardId>)
      requires forall s :: s in owned ==> OwnedBy(db.rows, s, workerId) && db.rows[s].leaseUntil == Some(until)
      requires |owned| <= if maxShards < 0 then 0 else maxShards
      requires owned == OwnedAfter(start, sofar) && Alternating(start, sofar)
      modifies this, db
      ensures var room := maxShards - |old(owned)|;
              if room > 0 then LowestClaimable(old(db.rows), locked, claimNow, room, acquired) else acquired == []
      ensures db.rows == Claimed(old(db.rows), workerId, SetOf(acquired), claimNow + leaseDuration)
      ensures changes == sofar + Acquisitions(acquired) && owned == old(owned) + SetOf(acquired)
      ensures owned == OwnedAfter(start, changes)
      ensures |owned| <= if maxShards < 0 then 0 else maxShards
      ensures claimNow <= until ==> Alternating(start, changes)
      ensures forall s :: s in owned ==> OwnedBy(db.rows, s, workerId)
    {
      hide OwnedAfter, Alternating, Claimed, Acquisitions;
      changes, acquired := sofar, [];
      assert sofar + Acquisitions([]) == sofar by { NoAcquisition(); }
      ClaimNone(db.rows, workerId, claimNow + leaseDuration);
      var capacity := maxShards - |owned|;
      if capacity > 0 {
        ghost var kept, rows := owned, db.rows;
        var claimed := ClaimAvailable(capacity, locked, claimNow);
        acquired := claimed;
        if claimNow <= until {
          FreshLeasesAreNotPicked(rows, workerId, kept, until, claimNow, capacity, acquired);
        }
        ClaimedAreOwned(rows, workerId, kept, SetOf(acquired), claimNow + leaseDuration);
        DistinctCount(acquired);
        UnionCount(kept, SetOf(acquired));
        changes := TakeAcquired(start, sofar, claimed);
      }
    }

    /** One pass of the loop in `changes`, with nobody else writing the table meanwhile: `renewNow`
        and `claimNow` are the two readings of the clock, `locked` the rows that others have locked at the claim,
        `changes` what is yielded, in order.
        When the claim reads the clock before the renewed leases have run out, the stream stays
        alternating. */
    method ChangesRound(renewNow: Time, locked: set<ShardId>, claimNow: Time)
      returns (changes: seq<Change>, ghost releases: seq<Change>, ghost acquired: seq<ShardId>)
      requires |owned| <= if maxShards < 0 then 0 else maxShards
      modifies this, db
      ensures owned == OwnedAfter(old(owned), changes)
      ensures |owned| <= if maxShards < 0 then 0 else maxShards
      ensures claimNow <= renewNow + leaseDuration ==> Alternating(old(owned), changes)
      ensures changes == releases + Acquisitions(acquired)
      ensures Alternating(old(owned), releases) && forall c :: c in releases ==> c.Released?
      ensures forall s :: s in Lost(old(db.rows), workerId, old(owned)) <==> Released(s) in releases
      ensures owned == old(owned) - Lost(old(db.rows), workerId, old(owned)) + SetOf(acquired)
      ensures forall s :: s in owned ==> OwnedBy(db.rows, s, workerId)
      ensures var renewed := Renewed(old(db.rows), workerId, old(owned), renewNow + leaseDuration);
              var room := maxShards - |old(owned) - Lost(old(db.rows), workerId, old(owned))|;
              && (if room > 0 then LowestClaimable(renewed, locked, claimNow, room, acquired) else acquired == [])
              && db.rows == Claimed(renewed, workerId, SetOf(acquired), claimNow + leaseDuration)
    {
      hide OwnedAfter, Alternating, Renewed, Claimed, LowestClaimable, Acquisitions, Lost, OwnedBy;
      LostWereOwned(db.rows, workerId, owned);
      RenewedAreOwned(db.rows, workerId, owned, renewNow + leaseDuration);
      var lost := RenewOwned(renewNow);
      var released := ReleaseLost(lost);
      releases := released;
      SmallerSet(owned, old(owned));
      changes, acquired := FillUp(old(owned), released, renewNow + leaseDuration, locked, claimNow);
    }
  }

  lemma RenewedRows(rows: LeaseTable, w: WorkerId, shards: set<ShardId>, until: Time)
    ensures var after := Renewed(rows, w, shards, until);
            && after.Keys == rows.Keys
            && forall s :: s in rows ==>
                 after[s] == if s in shards && rows[s].owner == Some(w)
                             then LeaseRow(rows[s].owner, Some(until), rows[s].epoch) else rows[s]
  {
  }

  lemma ClaimNone(rows: LeaseTable, w: WorkerId, until: Time)
    ensures Claimed(rows, w, SetOf([]), until) == rows
  {
  }

  lemma LostWereOwned(rows: LeaseTable, w: WorkerId, owned: set<ShardId>)
    ensures Lost(rows, w, owned) <= owned
  {
  }

  lemma RenewedAreOwned(rows: LeaseTable, w: WorkerId, owned: set<ShardId>, until: Time)
    ensures var kept := owned - Lost(rows, w, owned);
            var after := Renewed(rows, w, owned, until);
            forall s :: s in kept ==> OwnedBy(after, s, w) && after[s].leaseUntil == Some(until)
  {
  }

  lemma ClaimedAreOwned(rows: LeaseTable, w: WorkerId, kept: set<ShardId>, picked: set<ShardId>, until: Time)
    requires forall s :: s in kept ==> OwnedBy(rows, s, w)
    requires picked <= rows.Keys
    ensures forall s :: s in kept + picked ==> OwnedBy(Claimed(rows, w, picked, until), s, w)
  {
  }

  lemma FreshLeasesAreNotPicked(rows: LeaseTable, w: WorkerId, kept: set<ShardId>, until: Time,
                                now: Time, limit: nat, picked: seq<ShardId>)
    requires forall s :: s in kept ==> OwnedBy(rows, s, w) && rows[s].leaseUntil == Some(until)
    requires now <= until
    requires ValidPick(rows, now, limit, picked)
    ensures kept !! SetOf(picked)
  {
  }

  lemma {:induction false} SmallerSet<T>(a: set<T>, b: set<T>)
    requires a <= b
    ensures |a| <= |b|
    decreases a
  {
    if a != {} {
      var x :| x in a;
      SmallerSet(a - {x}, b - {x});
    }
  }

  lemma UnionCount<T>(a: set<T>, b: set<T>)
    ensures |a + b| <= |a| + |b|
  {
    assert |a + b| == |a| + |b| - |a * b|;
  }
}
