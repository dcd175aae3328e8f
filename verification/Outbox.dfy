/** The rows of the outbox table and what each of its transactions does to them. */
module Outbox {
  import opened Common
  import opened Wrappers
  import opened Sequences

  type ClaimId = string

  datatype OutboxRow = OutboxRow(
    occurredAt: Time,
    claimId: Option<ClaimId>,
    claimedUntil: Option<Time>,
    attemptCount: nat,
    publishedAt: Option<Time>)

  type OutboxTable = map<EventId, OutboxRow>

  function NewRow(occurredAt: Time): OutboxRow {
    OutboxRow(occurredAt, None, None, 0, None)
  }

  predicate Eligible(row: OutboxRow, now: Time) {
    row.publishedAt.None? && (row.claimedUntil.None? || row.claimedUntil.value <= now)
  }

  predicate InOrder(rows: OutboxTable, events: seq<EventId>)
    requires forall e :: e in events ==> e in rows
  {
    forall i, j :: 0 <= i < j < |events| ==> rows[events[i]].occurredAt <= rows[events[j]].occurredAt
  }

  /** What the claiming SELECT may return: the earliest eligible rows that no other transaction has
      locked, at most `limit` of them, in order of occurrence. */
  predicate EarliestEligible(rows: OutboxTable, locked: set<EventId>, now: Time, limit: nat, picked: seq<EventId>) {
    && |picked| <= limit
    && Distinct(picked)
    && (forall e :: e in picked ==> e in rows && e !in locked && Eligible(rows[e], now))
    && InOrder(rows, picked)
    && (forall e :: e in rows && e !in locked && Eligible(rows[e], now) && e !in picked ==>
          |picked| == limit && forall p :: p in picked ==> rows[p].occurredAt <= rows[e].occurredAt)
  }

  function ClaimedRow(row: OutboxRow, claimId: ClaimId, until: Time): OutboxRow {
    row.(claimId := Some(claimId), claimedUntil := Some(until), attemptCount := row.attemptCount + 1)
  }

  function Claim(rows: OutboxTable, picked: seq<EventId>, claimId: ClaimId, until: Time): OutboxTable {
    map e | e in rows :: if e in picked then ClaimedRow(rows[e], claimId, until) else rows[e]
  }

  function MarkPublished(rows: OutboxTable, e: EventId, claimId: ClaimId, at: Time): OutboxTable {
    if e in rows && rows[e].claimId == Some(claimId) && rows[e].publishedAt.None?
    then rows[e := rows[e].(publishedAt := Some(at), claimId := None, claimedUntil := None)]
    else rows
  }

  function MarkFailed(rows: OutboxTable, e: EventId, claimId: ClaimId): OutboxTable {
    if e in rows && rows[e].claimId == Some(claimId)
    then rows[e := rows[e].(claimId := None, claimedUntil := None)]
    else rows
  }

  predicate IsEarliest(rows: OutboxTable, e: EventId, s: set<EventId>)
    requires s <= rows.Keys
  {
    e in s && forall x :: x in s ==> rows[e].occurredAt <= rows[x].occurredAt
  }

  lemma EarliestExists(rows: OutboxTable, s: set<EventId>)
    requires s != {} && s <= rows.Keys
    ensures exists e :: IsEarliest(rows, e, s)
    decreases s
  {
    var a :| a in s;
    if s == {a} {
      assert IsEarliest(rows, a, s);
    } else {
      EarliestExists(rows, s - {a});
      var b :| IsEarliest(rows, b, s - {a});
      var m := if rows[a].occurredAt <= rows[b].occurredAt then a else b;
      assert IsEarliest(rows, m, s) by {
        forall x | x in s ensures rows[m].occurredAt <= rows[x].occurredAt { if x != a { assert x in s - {a}; } }
      }
    }
  }

  lemma PickOneMore(rows: OutboxTable, picked: seq<EventId>, e: EventId)
    requires forall p :: p in picked ==> p in rows
    requires Distinct(picked) && InOrder(rows, picked)
    requires e in rows && e !in picked
    requires forall p :: p in picked ==> rows[p].occurredAt <= rows[e].occurredAt
    ensures Distinct(picked + [e]) && InOrder(rows, picked + [e])
  {
    forall i | 0 <= i < |picked| ensures picked[i] != e && rows[picked[i]].occurredAt <= rows[e].occurredAt {
      assert picked[i] in picked;
    }
  }
}
