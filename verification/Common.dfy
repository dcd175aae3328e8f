/** Names and messages that several parts of the system share. */
module Common {
  type RequestId = string
  type ShardId = nat
  type WorkerId = string
  type EventId = string
  type Recipient = string
  // Readings of a clock, in seconds.
  type Time = int
  // The economic terms of a request are never looked at here.
  type Product = string

  /** The integration event of a registered RFQ. */
  datatype RfqRegistered = RfqRegistered(
    eventId: EventId, rfqId: RequestId, revision: int, product: Product, assignedTrader: Recipient)

  /** How a call of a publisher ends; one that raises may have delivered the message all the same. */
  datatype Outcome = Delivered | RaisedAfterDelivery | RaisedBeforeDelivery
}
