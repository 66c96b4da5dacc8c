/** The payloads the services exchange (packages/shared/src/contracts).
    Identifiers and dates, which the schemas check only for their format, are well formed by type. */
module Contracts {
  type UserId = string

  datatype TxType = Buy | Sell
  datatype Channel = Email | Sms | Push
  datatype EventType = TradeExecuted | OtherEvent(name: string)

  datatype Preference = Preference(userId: UserId, channel: Channel, enabled: bool)
  datatype Rule = Rule(id: nat, userId: UserId, eventType: EventType, enabled: bool)

  /** The `transaction.created` payload; its transaction id is the id of the message that carries it. */
  datatype TxEvent = TxEvent(userId: UserId, symbol: string, txType: TxType, qty: real, price: real, occurredAt: int)

  /** TransactionCreatedEventSchema. */
  predicate EventSchema(e: TxEvent)
  {
    1 <= |e.symbol| <= 10 && e.qty > 0.0 && e.price > 0.0
  }

  /** What arrives on the queue: a payload with the schema's fields, or anything else. */
  datatype Body = Unparsable | Fields(event: TxEvent)

  predicate ValidBody(b: Body)
  {
    b.Fields? && EventSchema(b.event)
  }
}
