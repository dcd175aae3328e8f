/** The rows of the shard lease table and what one renew or claim transaction does to them. */
module Leases {
  import opened Common
  import opened Wrappers

  datatype LeaseRow = LeaseRow(owner: Option<WorkerId>, leaseUntil: Option<Time>, epoch: int)

  type LeaseTable = map<ShardId, LeaseRow>

  /** One write of a lease: who held which epoch of which shard, from `now` until `until`. */
  datatype LeaseWrite = LeaseWrite(shard: ShardId, epoch: int, owner: WorkerId, now: Time, until: Time)

  datatype Change = Acquired(shard: ShardId) | Released(shard: ShardId)

  predicate OwnedBy(rows: LeaseTable, s: ShardId, w: WorkerId) {
    s in rows && rows[s].owner == Some(w)
  }

  // SQL comparison: a NULL lease_until is never smaller than anything.
  predicate Claimable(row: LeaseRow, now: Time) {
    row.owner.None? || (row.leaseUntil.Some? && row.leaseUntil.value < now)
  }

  /** What the locking SELECT of a claim returns when others have locked these rows: the lowest-numbered
      claimable ones of the rest, up to the limit. */
  predicate LowestClaimable(rows: LeaseTable, locked: set<ShardId>, now: Time, limit: nat, picked: seq<ShardId>) {
    && ValidPick(rows, now, limit, picked)
    && (forall s :: s in picked ==> s !in locked)
    && (forall s :: s in rows && s !in locked && Claimable(rows[s], now) && s !in picked ==>
          |picked| == limit && forall p :: p in picked ==> p < s)
  }

  /** What it may return for some locks: any claimable rows, in shard order, up to the limit. */
  predicate ValidPick(rows: LeaseTable, now: Time, limit: nat, picked: seq<ShardId>) {
    && |picked| <= limit
    && (forall i, j :: 0 <= i < j < |picked| ==> picked[i] < picked[j])
    && (forall s :: s in picked ==> s in rows && Claimable(rows[s], now))
  }

  function Renewed(rows: LeaseTable, w: WorkerId, shards: set<ShardId>, until: Time): LeaseTable {
    map s | s in rows ::
      if s in shards && OwnedBy(rows, s, w) then rows[s].(leaseUntil := Some(until)) else rows[s]
  }

  function Lost(rows: LeaseTable, w: WorkerId, owned: set<ShardId>): set<ShardId> {
    set s | s in owned && !OwnedBy(rows, s, w)
  }

  function ClaimedRow(row: LeaseRow, w: WorkerId, until: Time): LeaseRow {
    LeaseRow(Some(w), Some(until), row.epoch + 1)
  }

  function Claimed(rows: LeaseTable, w: WorkerId, shards: set<ShardId>, until: Time): LeaseTable {
    map s | s in rows :: if s in shards then ClaimedRow(rows[s], w, until) else rows[s]
  }

  /** The shards owned after the changes of a stream have all been applied. */
  function OwnedAfter(owned: set<ShardId>, changes: seq<Change>): set<ShardId> {
    if changes == [] then owned
    else
      var before := OwnedAfter(owned, changes[..|changes| - 1]);
      match changes[|changes| - 1]
      case Acquired(s) => before + {s}
      case Released(s) => before - {s}
  }

  /** Acquired and Released alternate for every shard: a shard is acquired only while it is not
      owned and released only while it is. */
  predicate Alternating(owned: set<ShardId>, changes: seq<Change>) {
    if changes == [] then true
    else
      var before := OwnedAfter(owned, changes[..|changes| - 1]);
      && Alternating(owned, changes[..|changes| - 1])
      && (match changes[|changes| - 1]
          case Acquired(s) => s !in before
          case Released(s) => s in before)
  }

  lemma ValidPickIsLowestForSomeLocks(rows: LeaseTable, now: Time, limit: nat, picked: seq<ShardId>)
    ensures ValidPick(rows, now, limit, picked) <==> exists locked :: LowestClaimable(rows, locked, now, limit, picked)
  {
    if ValidPick(rows, now, limit, picked) {
      var locked := set s | s in rows && s !in picked;
      assert LowestClaimable(rows, locked, now, limit, picked);
    }
  }

  lemma ExtendPick(rows: LeaseTable, now: Time, limit: nat, picked: seq<ShardId>, s: ShardId)
    requires ValidPick(rows, now, limit, picked) && |picked| < limit
    requires s in rows && Claimable(rows[s], now)
    requires forall p :: p in picked ==> p < s
    ensures ValidPick(rows, now, limit, picked + [s])
  {
    forall i, j | 0 <= i < j < |picked + [s]| ensures (picked + [s])[i] < (picked + [s])[j] {
      assert picked[i] in picked;
    }
  }

  lemma RenewNone(rows: LeaseTable, w: WorkerId, until: Time)
    ensures Renewed(rows, w, {}, until) == rows
  {
  }

  lemma RenewOne(rows: LeaseTable, w: WorkerId, done: set<ShardId>, s: ShardId, until: Time)
    requires s !in done
    ensures var rs := Renewed(rows, w, done, until);
            && OwnedBy(rs, s, w) == OwnedBy(rows, s, w)
            && Renewed(rows, w, done + {s}, until) ==
               (if OwnedBy(rs, s, w) then rs[s := rs[s].(leaseUntil := Some(until))] else rs)
  {
  }

  lemma ClaimOne(rows: LeaseTable, w: WorkerId, done: set<ShardId>, s: ShardId, until: Time)
    requires s in rows && s !in done
    ensures var rs := Claimed(rows, w, done, until);
            s in rs && Claimed(rows, w, done + {s}, until) == rs[s := ClaimedRow(rs[s], w, until)]
  {
  }

  lemma NoChange(owned: set<ShardId>)
    ensures OwnedAfter(owned, []) == owned && Alternating(owned, [])
  {
  }

  lemma OneMoreChange(owned: set<ShardId>, changes: seq<Change>, c: Change)
    ensures var now := OwnedAfter(owned, changes);
            && OwnedAfter(owned, changes + [c]) == (if c.Acquired? then now + {c.shard} else now - {c.shard})
            && (Alternating(owned, changes + [c]) <==>
                Alternating(owned, changes) && (c.Acquired? <==> c.shard !in now))
  {
    assert (changes + [c])[..|changes|] == changes;
  }
}
