/** The RabbitMQ topology of the retry protocol and the `x-death` header the broker keeps for it.
    Topic routing without wildcards is equality of routing keys (section 3.1.3.3 of the AMQP 0-9-1
    specification). */
module Messaging {
  import opened Wrappers
  import opened Contracts

  const MAX_RETRIES: nat := 3
  const PREFETCH: nat := 10

  datatype Exchange = PortfolioEvents | PortfolioEventsDlx
  datatype Queue = TxCreated | TxCreatedRetry | TxCreatedDlqFinal | OtherQueue(name: string)
  datatype RoutingKey = CreatedKey | RetryKey | FailedKey
  datatype Binding = Binding(source: Exchange, destination: Queue, key: RoutingKey)
  datatype DeadLetterTo = DeadLetterTo(exchange: Exchange, key: RoutingKey)

  /** docker/rabbitmq/definitions.json. */
  const BINDINGS: seq<Binding> := [
    Binding(PortfolioEvents, TxCreated, CreatedKey),
    Binding(PortfolioEventsDlx, TxCreatedRetry, RetryKey),
    Binding(PortfolioEventsDlx, TxCreatedDlqFinal, FailedKey)]

  /** The same bindings as the notification service declares them: its module, then its subscriber. */
  const APP_BINDINGS: seq<Binding> := [
    Binding(PortfolioEventsDlx, TxCreatedRetry, RetryKey),
    Binding(PortfolioEventsDlx, TxCreatedDlqFinal, FailedKey),
    Binding(PortfolioEvents, TxCreated, CreatedKey)]

  /** The `x-dead-letter-*` arguments of each queue. */
  function DeadLetterOf(q: Queue): Option<DeadLetterTo>
  {
    match q
    case TxCreated => Some(DeadLetterTo(PortfolioEventsDlx, RetryKey))
    case TxCreatedRetry => Some(DeadLetterTo(PortfolioEvents, CreatedKey))
    case TxCreatedDlqFinal => None
    case OtherQueue(_) => None
  }

  datatype Reason = Rejected | Expired | MaxLen | DeliveryLimit

  /** One entry of the `x-death` header; the consumer trusts none of its fields to be there. */
  datatype XDeath = XDeath(queue: Option<Queue>, reason: Option<Reason>, count: Option<nat>)

  /** A message: the transaction it is about, its payload, and its `x-death` header (empty when absent). */
  datatype Message = Message(id: nat, body: Body, deaths: seq<XDeath>)

  /** The copies of `m` that reach queue `q` when it is published to `ex` with `key`: one per matching binding. */
  function Arrivals(bs: seq<Binding>, q: Queue, ex: Exchange, key: RoutingKey, m: Message): seq<Message>
  {
    if bs == [] then [] else
      (if bs[0] == Binding(ex, q, key) then [m] else []) + Arrivals(bs[1..], q, ex, key, m)
  }

  lemma ArrivalsOfThree(bs: seq<Binding>, q: Queue, ex: Exchange, key: RoutingKey, m: Message)
    requires |bs| == 3
    ensures Arrivals(bs, q, ex, key, m)
         == (if bs[0] == Binding(ex, q, key) then [m] else [])
          + (if bs[1] == Binding(ex, q, key) then [m] else [])
          + (if bs[2] == Binding(ex, q, key) then [m] else [])
  {
    var t := bs[1..];
    assert t[0] == bs[1] && t[1..][0] == bs[2] && t[1..][1..] == [];
    assert Arrivals(t[1..], q, ex, key, m)
        == (if bs[2] == Binding(ex, q, key) then [m] else []) + Arrivals(t[1..][1..], q, ex, key, m);
  }

  /** Publishing on a leg of the protocol puts exactly one copy on exactly one queue: a created event on
      the main queue, a retry on the retry queue, a failed event on the terminal queue. */
  lemma EachLegHasOneQueue(q: Queue, m: Message)
    ensures Arrivals(BINDINGS, q, PortfolioEvents, CreatedKey, m) == if q == TxCreated then [m] else []
    ensures Arrivals(BINDINGS, q, PortfolioEventsDlx, RetryKey, m) == if q == TxCreatedRetry then [m] else []
    ensures Arrivals(BINDINGS, q, PortfolioEventsDlx, FailedKey, m) == if q == TxCreatedDlqFinal then [m] else []
  {
    ArrivalsOfThree(BINDINGS, q, PortfolioEvents, CreatedKey, m);
    ArrivalsOfThree(BINDINGS, q, PortfolioEventsDlx, RetryKey, m);
    ArrivalsOfThree(BINDINGS, q, PortfolioEventsDlx, FailedKey, m);
  }

  /** The broker's definitions and the application's declarations route every message alike. */
  lemma TopologiesAgree(q: Queue, ex: Exchange, key: RoutingKey, m: Message)
    ensures Arrivals(BINDINGS, q, ex, key, m) == Arrivals(APP_BINDINGS, q, ex, key, m)
  {
    ArrivalsOfThree(BINDINGS, q, ex, key, m);
    ArrivalsOfThree(APP_BINDINGS, q, ex, key, m);
  }

  /** What one entry adds to the retry count: its count, when it is about queue `q` and has one. */
  function EntryCount(x: XDeath, q: Queue): nat
  {
    if x.queue == Some(q) && x.count.Some? then x.count.value else 0
  }

  /** The number of times the header says a message was dead-lettered out of `q`. */
  function Deaths(t: seq<XDeath>, q: Queue): nat
  {
    if t == [] then 0 else EntryCount(t[0], q) + Deaths(t[1..], q)
  }

  function RetryCount(m: Message): nat
  {
    Deaths(m.deaths, TxCreated)
  }

  /** The `x-death` header as the consumer finds it: possibly missing, possibly not an array. */
  datatype Headers = NoHeaders | NoXDeath | NotAnArray | WithXDeath(deaths: seq<XDeath>)

  /** getRetryCount. */
  method GetRetryCount(headers: Headers) returns (total: nat)
    ensures total == if headers.WithXDeath? then Deaths(headers.deaths, TxCreated) else 0
  {
    if !headers.WithXDeath? {
      return 0;
    }
    total := 0;
    var i := 0;
    while i < |headers.deaths|
      invariant 0 <= i <= |headers.deaths|
      invariant total + Deaths(headers.deaths[i..], TxCreated) == Deaths(headers.deaths, TxCreated)
    {
      var entry := headers.deaths[i];
      if entry.queue == Some(TxCreated) && entry.count.Some? {
        total := total + entry.count.value;
      }
      i := i + 1;
    }
  }

  predicate About(x: XDeath, q: Queue, r: Reason)
  {
    x.queue == Some(q) && x.reason == Some(r)
  }

  function CountFor(t: seq<XDeath>, q: Queue, r: Reason): nat
  {
    if t == [] then 0 else
      (if About(t[0], q, r) then EntryCount(t[0], q) else 0) + CountFor(t[1..], q, r)
  }

  function Without(t: seq<XDeath>, q: Queue, r: Reason): seq<XDeath>
  {
    if t == [] then [] else
      (if About(t[0], q, r) then [] else [t[0]]) + Without(t[1..], q, r)
  }

  /** The broker's bookkeeping on dead-lettering out of `q` for reason `r`: one entry per pair, its count
      incremented, moved to the front. */
  function Stamp(t: seq<XDeath>, q: Queue, r: Reason): seq<XDeath>
  {
    [XDeath(Some(q), Some(r), Some(CountFor(t, q, r) + 1))] + Without(t, q, r)
  }

  lemma {:induction false} DeathsSplit(t: seq<XDeath>, q: Queue, r: Reason, p: Queue)
    ensures Deaths(t, p) == Deaths(Without(t, q, r), p) + if p == q then CountFor(t, q, r) else 0
  {
    if t != [] {
      DeathsSplit(t[1..], q, r, p);
      if !About(t[0], q, r) {
        assert Without(t, q, r)[1..] == Without(t[1..], q, r);
      } else {
        assert Without(t, q, r) == Without(t[1..], q, r);
      }
    }
  }

  /** One more dead-lettering out of `q` adds one to the count of `q` and nothing to any other queue's. */
  lemma StampCounts(t: seq<XDeath>, q: Queue, r: Reason, p: Queue)
    ensures Deaths(Stamp(t, q, r), p) == Deaths(t, p) + if p == q then 1 else 0
  {
    DeathsSplit(t, q, r, p);
    assert Stamp(t, q, r)[1..] == Without(t, q, r);
  }

  /** One dead-lettering in a message's history. */
  datatype Death = Death(queue: Queue, reason: Reason)

  /** The header after a whole history, oldest first. */
  function HeaderAfter(h: seq<Death>): seq<XDeath>
    decreases |h|
  {
    if h == [] then [] else
      var n := |h| - 1;
      Stamp(HeaderAfter(h[..n]), h[n].queue, h[n].reason)
  }

  /** How often a history leaves queue `q`. */
  function TimesOut(h: seq<Death>, q: Queue): nat
    decreases |h|
  {
    if h == [] then 0 else
      var n := |h| - 1;
      TimesOut(h[..n], q) + if h[n].queue == q then 1 else 0
  }

  /** The compressed header forgets order and merges entries, but for every history and every queue it
      still counts exactly the dead-letterings out of that queue. In particular the retry queue's
      expiries never add to the consumer's retry count. */
  lemma {:induction false} HeaderCountsHistory(h: seq<Death>, q: Queue)
    ensures Deaths(HeaderAfter(h), q) == TimesOut(h, q)
    decreases |h|
  {
    if h != [] {
      var n := |h| - 1;
      HeaderCountsHistory(h[..n], q);
      StampCounts(HeaderAfter(h[..n]), h[n].queue, h[n].reason, q);
    }
  }
}
