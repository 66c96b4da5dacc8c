/** TransactionCreatedConsumer as the source writes it: methods over the notification table and the
    broker connection, with early returns and a try/catch. Its contract is the await-by-await run. */
module Consumer {
  import opened Wrappers
  import opened Contracts
  import opened Messaging
  import opened HandlerSteps

  /** prisma.notification. */
  class NotificationTable {
    var rows: seq<Row>

    constructor ()
      ensures rows == []
    {
      rows := [];
    }

    /** Inserts `row` and returns its id, or the error the caller sees. */
    method Create(row: Row, call: Call) returns (id: nat, err: Option<string>)
      modifies this
      ensures rows == if call.Throws? then old(rows) else old(rows) + [row]
      ensures id == |old(rows)| && err == if call.Done? then None else Some(call.err)
    {
      id := |rows|;
      if !call.Throws? {
        rows := rows + [row];
      }
      err := if call.Done? then None else Some(call.err);
    }

    /** Replaces row `id` by `row`, in one statement. */
    method Update(id: nat, row: Row, call: Call) returns (err: Option<string>)
      requires id < |rows|
      modifies this
      ensures rows == if call.Throws? then old(rows) else old(rows)[id := row]
      ensures err == if call.Done? then None else Some(call.err)
    {
      if !call.Throws? {
        rows := rows[id := row];
      }
      err := if call.Done? then None else Some(call.err);
    }
  }

  /** The terminal queue, behind the connection the handler publishes on. */
  class AmqpConnection {
    var dlq: seq<Message>

    constructor ()
      ensures dlq == []
    {
      dlq := [];
    }

    method Publish(ex: Exchange, key: RoutingKey, m: Message, call: Call) returns (err: Option<string>)
      modifies this
      ensures dlq == if call.Throws? then old(dlq) else old(dlq) + Arrivals(BINDINGS, TxCreatedDlqFinal, ex, key, m)
      ensures err == if call.Done? then None else Some(call.err)
    {
      if !call.Throws? {
        dlq := dlq + Arrivals(BINDINGS, TxCreatedDlqFinal, ex, key, m);
      }
      err := if call.Done? then None else Some(call.err);
    }
  }

  /** The run up to the delivery, in one piece. */
  lemma DriveToDelivery(st: Store, id: nat, body: Body, k: nat, env: Env)
    requires ValidBody(body) && k < MAX_RETRIES
    ensures var end := Drive(Position(Received, 0, st), id, body, k, env);
            if !Wanted(env.pref, env.rule) then end.pc == Returning(Skipped) && end.store == st
            else
              var e := body.event;
              var row := Row(id, e.userId, e.symbol, e.txType, env.pref.value.channel, Pending, k, None);
              var created := st.(rows := st.rows + [row]);
              match env.createRow
              case Done => end == Drive(Position(Delivering, |st.rows|, created), id, body, k, env)
              case Throws(_) => end.pc == Rejecting && end.store == st
              case LostReply(_) => end.pc == Rejecting && end.store == created
  {
    DriveOn(Position(Received, 0, st), id, body, k, env);
    DriveOn(Position(LookingUp, 0, st), id, body, k, env);
    if Wanted(env.pref, env.rule) {
      DriveOn(Position(Creating(env.pref.value.channel), 0, st), id, body, k, env);
    }
  }

  /** The rest of the run, once row `row` has been created: a delivery and an update that both work leave it
      SENT with one attempt more. Anything else rejects the message and, unless that update throws as well,
      leaves the row FAILED with the error that was thrown and one attempt more than it then had. */
  lemma DriveFromDelivery(st: Store, id: nat, body: Body, k: nat, row: nat, env: Env)
    requires ValidBody(body) && row < |st.rows|
    ensures var end, r := Drive(Position(Delivering, row, st), id, body, k, env), st.rows[row];
            var sent := r.(status := Sent, attempts := r.attempts + 1);
            && end.store.dlq == st.dlq
            && if env.deliver.None? && env.markSent.Done? then
                 end.pc == Returning(Notified) && end.store.rows == st.rows[row := sent]
               else
                 var err := if env.deliver.Some? then env.deliver.value else env.markSent.err;
                 var left := if env.deliver.None? && env.markSent.LostReply? then sent else r;
                 var failed := left.(status := Failed, attempts := left.attempts + 1, lastError := Some(err));
                 && end.pc == Rejecting
                 && end.store.rows == st.rows[row := if env.markFailed.Throws? then left else failed]
  {
    DriveOn(Position(Delivering, row, st), id, body, k, env);
    var r := st.rows[row];
    if env.deliver.None? {
      DriveOn(Position(MarkingSent, row, st), id, body, k, env);
      var sent := st.(rows := st.rows[row := r.(status := Sent, attempts := r.attempts + 1)]);
      if env.markSent.LostReply? {
        DriveOn(Position(MarkingFailed(env.markSent.err), row, sent), id, body, k, env);
      } else if env.markSent.Throws? {
        DriveOn(Position(MarkingFailed(env.markSent.err), row, st), id, body, k, env);
      }
    } else {
      DriveOn(Position(MarkingFailed(env.deliver.value), row, st), id, body, k, env);
    }
  }

  /** Parking: the DEAD row, with the retry count as it is, then the copy; whatever throws rejects the message. */
  lemma DriveParking(st: Store, id: nat, body: Body, k: nat, env: Env)
    requires ValidBody(body) && k >= 3
    ensures var end, e := Drive(Position(Received, 0, st), id, body, k, env), body.event;
            var dead := Row(id, e.userId, e.symbol, e.txType, Email, Dead, k, Some("max retries exceeded"));
            && end.pc == (if env.parkRow.Done? && env.parkPublish.Done? then Returning(Parked) else Rejecting)
            && end.store.rows == (if env.parkRow.Throws? then st.rows else st.rows + [dead])
            && end.store.dlq == if env.parkRow.Done? && !env.parkPublish.Throws? then st.dlq + [Message(id, body, [])]
                                else st.dlq
  {
    DriveOn(Position(Received, 0, st), id, body, k, env);
    DriveOn(Position(ParkingRow, 0, st), id, body, k, env);
    if env.parkRow.Done? {
      var dead := st.(rows := st.rows + [DeadRow(id, body.event, k)]);
      DriveOn(Position(ParkingPublish, 0, dead), id, body, k, env);
      EachLegHasOneQueue(TxCreatedDlqFinal, Republished(id, body));
    }
  }

  class TransactionCreatedConsumer {
    const prisma: NotificationTable
    const amqp: AmqpConnection

    constructor (prisma: NotificationTable, amqp: AmqpConnection)
      ensures this.prisma == prisma && this.amqp == amqp
    {
      this.prisma := prisma;
      this.amqp := amqp;
    }

    function Contents(): Store
      reads prisma, amqp
    {
      Store(prisma.rows, amqp.dlq)
    }

    /** `handle`: acknowledged when it returns, rejected when it throws. */
    method Handle(m: Message, env: Env) returns (verdict: Pc)
      modifies prisma, amqp
      ensures var end := Drive(Position(Received, 0, old(Contents())), m.id, m.body, RetryCount(m), env);
              verdict == end.pc && Contents() == end.store
    {
      if !ValidBody(m.body) {
        return Returning(Invalid);
      }
      var event := m.body.event;
      var retryCount := GetRetryCount(if m.deaths == [] then NoXDeath else WithXDeath(m.deaths));
      ghost var k := RetryCount(m);
      if retryCount >= MAX_RETRIES {
        DriveOn(Position(Received, 0, Contents()), m.id, m.body, k, env);
        verdict := ParkAsDead(m, retryCount, env);
        return;
      }
      DriveToDelivery(Contents(), m.id, m.body, k, env);
      var pref, rule := env.pref, env.rule;
      if pref.None? || !pref.value.enabled || rule.None? || !rule.value.enabled {
        return Returning(Skipped);
      }
      var channel := pref.value.channel;
      var id, err := prisma.Create(PendingRow(m.id, event, channel, retryCount), env.createRow);
      if err.Some? {
        return Rejecting;
      }
      verdict := DeliverAndMark(m, id, env);
    }

    /** The try/catch of `handle`: deliver, mark the row sent; on any error mark it failed and rethrow. */
    method DeliverAndMark(m: Message, id: nat, env: Env) returns (verdict: Pc)
      requires ValidBody(m.body) && id < |prisma.rows|
      modifies prisma
      ensures var end := Drive(Position(Delivering, id, old(Contents())), m.id, m.body, RetryCount(m), env);
              verdict == end.pc && Contents() == end.store
    {
      ghost var k := RetryCount(m);
      DriveOn(Position(Delivering, id, Contents()), m.id, m.body, k, env);
      var err := env.deliver;
      if err.None? {
        DriveOn(Position(MarkingSent, id, Contents()), m.id, m.body, k, env);
        err := prisma.Update(id, MarkedSent(prisma.rows[id]), env.markSent);
        if err.None? {
          return Returning(Notified);
        }
      }
      DriveOn(Position(MarkingFailed(err.value), id, Contents()), m.id, m.body, k, env);
      var _ := prisma.Update(id, MarkedFailed(prisma.rows[id], err.value), env.markFailed);
      return Rejecting;
    }

    method ParkAsDead(m: Message, retryCount: nat, env: Env) returns (verdict: Pc)
      requires ValidBody(m.body) && retryCount == RetryCount(m)
      modifies prisma, amqp
      ensures var end := Drive(Position(ParkingRow, 0, old(Contents())), m.id, m.body, RetryCount(m), env);
              verdict == end.pc && Contents() == end.store
    {
      DriveOn(Position(ParkingRow, 0, Contents()), m.id, m.body, retryCount, env);
      var _, err := prisma.Create(DeadRow(m.id, m.body.event, retryCount), env.parkRow);
      if err.Some? {
        return Rejecting;
      }
      DriveOn(Position(ParkingPublish, 0, Contents()), m.id, m.body, retryCount, env);
      err := amqp.Publish(PortfolioEventsDlx, FailedKey, Republished(m.id, m.body), env.parkPublish);
      return if err.Some? then Rejecting else Returning(Parked);
    }
  }
}
