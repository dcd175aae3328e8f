/** Notifying the assigned trader of a registered RFQ: one stored notification per event and recipient. */
module Notifications {
  import opened Common
  import opened Wrappers
  import opened Sequences

  type NotificationId = string

  datatype Notification = Notification(
    notificationId: NotificationId, recipient: Recipient, resourceId: string, sourceEventId: EventId)

  /** What the unique key of the table ranges over; there is one notification type. */
  datatype Source = Source(eventId: EventId, recipient: Recipient)

  function SourceOf(n: Notification): Source {
    Source(n.sourceEventId, n.recipient)
  }

  function EventSource(event: RfqRegistered): Source {
    Source(event.eventId, event.assignedTrader)
  }

  function NotificationFor(event: RfqRegistered, id: NotificationId): Notification {
    Notification(id, event.assignedTrader, event.rfqId, event.eventId)
  }

  /** The event has its row for this recipient. */
  predicate HasRow(rows: seq<Notification>, eventId: EventId, recipient: Recipient) {
    exists n :: n in rows && n.sourceEventId == eventId && n.recipient == recipient
  }

  lemma HasRowMeans(rows: seq<Notification>, event: RfqRegistered)
    ensures HasRow(rows, event.eventId, event.assignedTrader) <==> EventSource(event) in Sources(rows)
  {
    if HasRow(rows, event.eventId, event.assignedTrader) {
      var n :| n in rows && n.sourceEventId == event.eventId && n.recipient == event.assignedTrader;
      var i :| 0 <= i < |rows| && rows[i] == n;
      assert Sources(rows)[i] == EventSource(event);
    }
    if EventSource(event) in Sources(rows) {
      var i :| 0 <= i < |rows| && Sources(rows)[i] == EventSource(event);
      assert rows[i] in rows;
    }
  }

  function Sources(rows: seq<Notification>): seq<Source> {
    seq(|rows|, i requires 0 <= i < |rows| => SourceOf(rows[i]))
  }

  /** Where handling an event raises, if it does; a call that raises may have had its effect. */
  datatype Fault = NoFault | SaveRaises | CommitRaises(applied: bool) | PublishRaises(delivered: bool)

  datatype NotifyError = Conflict(source: Source) | Raised(fault: Fault)

  class NotificationTable {
    var rows: seq<Notification>

    ghost predicate Valid()
      reads this
    {
      Distinct(Sources(rows))
    }

    constructor ()
      ensures Valid() && rows == []
    {
      rows := [];
    }

    method FindBySource(source: Source) returns (found: Option<Notification>)
      ensures found.None? <==> source !in Sources(rows)
      ensures found.Some? ==> found.value in rows && SourceOf(found.value) == source
    {
      for i := 0 to |rows|
        invariant source !in Sources(rows)[..i]
      {
        if SourceOf(rows[i]) == source {
          assert Sources(rows)[i] == source;
          return Some(rows[i]);
        }
      }
      assert Sources(rows)[..|rows|] == Sources(rows);
      found := None;
    }

    /** Inserts a row, unless the unique key forbids it. */
    method Insert(n: Notification) returns (ok: bool)
      requires Valid()
      modifies this
      ensures Valid()
      ensures ok <==> SourceOf(n) !in Sources(old(rows))
      ensures rows == if ok then old(rows) + [n] else old(rows)
    {
      var existing := FindBySource(SourceOf(n));
      ok := existing.None?;
      if ok {
        assert Sources(rows + [n]) == Sources(rows) + [SourceOf(n)];
        rows := rows + [n];
      }
    }
  }

  class RealtimeChannel {
    var log: seq<Notification>

    method Publish(n: Notification)
      modifies this
      ensures log == old(log) + [n]
    {
      log := log + [n];
    }
  }

  class NotifyAssignedTraderOnRfqRegisteredUseCase {
    const table: NotificationTable
    const channel: RealtimeChannel

    constructor (table: NotificationTable, channel: RealtimeChannel)
      ensures this.table == table && this.channel == channel
    {
      this.table, this.channel := table, channel;
    }

    /** `others` are the rows that other workers commit between this worker's look-up and its commit. An
        event handled without error has its row; it is published only by the call that inserted the row. */
    method Execute(event: RfqRegistered, id: NotificationId, others: seq<Notification>, fault: Fault)
      returns (result: Result<Notification, NotifyError>)
      requires table.Valid() && Distinct(Sources(table.rows + others))
      modifies table, channel
      ensures table.Valid()
      ensures result.Success? ==>
        && result.value in table.rows
        && result.value.sourceEventId == event.eventId && result.value.recipient == event.assignedTrader
      ensures HasRow(old(table.rows), event.eventId, event.assignedTrader) ==>
        result.Success? && table.rows == old(table.rows) && channel.log == old(channel.log)
      ensures !HasRow(old(table.rows), event.eventId, event.assignedTrader) ==>
        var notification := Notification(id, event.assignedTrader, event.rfqId, event.eventId);
        var inserted := !fault.SaveRaises? && fault != CommitRaises(false)
                        && !HasRow(old(table.rows) + others, event.eventId, event.assignedTrader);
        var published := inserted && (fault.NoFault? || fault == PublishRaises(true));
        && table.rows == old(table.rows) + others + (if inserted then [notification] else [])
        && channel.log == old(channel.log) + (if published then [notification] else [])
        && (result.Success? <==> inserted && fault.NoFault?)
        && (result.Success? ==> result.value == notification)
    {
      HasRowMeans(table.rows, event);
      HasRowMeans(table.rows + others, event);
      hide HasRow, Sources;
      var notification := NotificationFor(event, id);
      var existing := table.FindBySource(EventSource(event));
      if existing.Some? {
        return Success(existing.value);
      }
      table.rows := table.rows + others;
      if fault.SaveRaises? || fault == CommitRaises(false) {
        return Failure(Raised(fault));
      }
      var ok := table.Insert(notification);
      if !ok {
        return Failure(Conflict(EventSource(event)));
      }
      if fault.CommitRaises? || fault == PublishRaises(false) {
        return Failure(Raised(fault));
      }
      channel.Publish(notification);
      if fault.PublishRaises? {
        return Failure(Raised(fault));
      }
      result := Success(notification);
    }
  }

  class NotificationWorker {
    const notify: NotifyAssignedTraderOnRfqRegisteredUseCase
    var committed: nat

    constructor (notify: NotifyAssignedTraderOnRfqRegisteredUseCase, committed: nat)
      ensures this.notify == notify && this.committed == committed
    {
      this.notify, this.committed := notify, committed;
    }

    /** One turn of the consume loop: the offset is committed only after the event has its row. */
    method Consume(offset: nat, event: RfqRegistered, id: NotificationId, others: seq<Notification>, fault: Fault)
      returns (result: Result<(), NotifyError>)
      requires notify.table.Valid() && Distinct(Sources(notify.table.rows + others))
      modifies this, notify.table, notify.channel
      ensures notify.table.Valid()
      ensures committed == if result.Success? then offset + 1 else old(committed)
      ensures result.Success? ==> HasRow(notify.table.rows, event.eventId, event.assignedTrader)
    {
      var handled := notify.Execute(event, id, others, fault);
      if handled.Failure? {
        return Failure(handled.error);
      }
      committed := offset + 1;
      result := Success(());
    }
  }
}
