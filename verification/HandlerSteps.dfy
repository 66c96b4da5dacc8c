/** One run of the notification consumer's handler, cut at its awaits.
    `Goto` is its control flow and `Write` is what it stores; both the method that models `handle`
    and the system of interleaved handlers are stated with them. */
module HandlerSteps {
  import opened Wrappers
  import opened Contracts
  import opened Messaging

  datatype Status = Pending | Sent | Failed | Dead

  /** A row of the notification table; its id is its position. */
  datatype Row = Row(tx: nat, userId: UserId, symbol: string, txType: TxType,
                     channel: Channel, status: Status, attempts: nat, lastError: Option<string>)

  /** How a database or publish call ends: done; thrown without effect; or thrown after it took effect
      (its reply was lost). */
  datatype Call = Done | Throws(err: string) | LostReply(err: string)

  /** How the handler can return, which acknowledges the message. */
  datatype Outcome = Notified | Skipped | Parked | Invalid

  /** The handler's program counter: the await it is about to pass. `Returning` is acknowledged by the
      library, `Rejecting` (the handler threw) is rejected without requeue. */
  datatype Pc = Received | LookingUp | Creating(channel: Channel) | Delivering | MarkingSent
              | MarkingFailed(err: string) | ParkingRow | ParkingPublish
              | Returning(outcome: Outcome) | Rejecting

  /** What the awaited call answers. A lookup carries the time at which the portfolio service answered. */
  datatype Answer = Go
                  | Looked(pref: Option<Preference>, rule: Option<Rule>, prefAt: int, ruleAt: int)
                  | Stored(call: Call)
                  | Delivered(err: Option<string>, at: int)

  predicate Fits(pc: Pc, a: Answer)
  {
    match pc
    case Received => a.Go?
    case LookingUp => a.Looked?
    case Delivering => a.Delivered?
    case Returning(_) => false
    case Rejecting => false
    case _ => a.Stored?
  }

  predicate HasRow(pc: Pc)
  {
    pc.Delivering? || pc.MarkingSent? || pc.MarkingFailed?
  }

  /** Both the preference and the rule were found and are enabled. */
  predicate Wanted(pref: Option<Preference>, rule: Option<Rule>)
  {
    pref.Some? && pref.value.enabled && rule.Some? && rule.value.enabled
  }

  function Goto(pc: Pc, body: Body, k: nat, a: Answer): Pc
    requires Fits(pc, a)
  {
    match pc
    case Received =>
      if !ValidBody(body) then Returning(Invalid) else if k >= MAX_RETRIES then ParkingRow else LookingUp
    case LookingUp => if Wanted(a.pref, a.rule) then Creating(a.pref.value.channel) else Returning(Skipped)
    case Creating(_) => if a.call.Done? then Delivering else Rejecting
    case Delivering => if a.err.None? then MarkingSent else MarkingFailed(a.err.value)
    case MarkingSent => if a.call.Done? then Returning(Notified) else MarkingFailed(a.call.err)
    case MarkingFailed(_) => Rejecting
    case ParkingRow => if a.call.Done? then ParkingPublish else Rejecting
    case ParkingPublish => if a.call.Done? then Returning(Parked) else Rejecting
  }

  /** What the handlers write: the notification table and the terminal queue. */
  datatype Store = Store(rows: seq<Row>, dlq: seq<Message>)

  function PendingRow(id: nat, e: TxEvent, channel: Channel, k: nat): Row
  {
    Row(id, e.userId, e.symbol, e.txType, channel, Pending, k, None)
  }

  function DeadRow(id: nat, e: TxEvent, k: nat): Row
  {
    Row(id, e.userId, e.symbol, e.txType, Email, Dead, k, Some("max retries exceeded"))
  }

  function MarkedSent(r: Row): Row
  {
    r.(status := Sent, attempts := r.attempts + 1)
  }

  function MarkedFailed(r: Row, err: string): Row
  {
    r.(status := Failed, attempts := r.attempts + 1, lastError := Some(err))
  }

  /** The event as it is published again: same payload, fresh headers. */
  function Republished(id: nat, body: Body): Message
  {
    Message(id, body, [])
  }

  function Write(pc: Pc, id: nat, body: Body, k: nat, row: nat, st: Store, a: Answer): Store
    requires Fits(pc, a)
    requires HasRow(pc) ==> row < |st.rows|
  {
    if !a.Stored? || a.call.Throws? || !body.Fields? then st else
      match pc
      case Creating(channel) => st.(rows := st.rows + [PendingRow(id, body.event, channel, k)])
      case MarkingSent => st.(rows := st.rows[row := MarkedSent(st.rows[row])])
      case MarkingFailed(err) => st.(rows := st.rows[row := MarkedFailed(st.rows[row], err)])
      case ParkingRow => st.(rows := st.rows + [DeadRow(id, body.event, k)])
      case _ => st.(dlq := st.dlq
        + Arrivals(BINDINGS, TxCreatedDlqFinal, PortfolioEventsDlx, FailedKey, Republished(id, body)))
  }

  /** The row a handler works on: the one it created. */
  function RowAfter(pc: Pc, row: nat, st: Store): nat
  {
    if pc.Creating? then |st.rows| else row
  }

  function Rank(pc: Pc): nat
  {
    match pc
    case Received => 6
    case LookingUp => 5
    case Creating(_) => 4
    case Delivering => 3
    case MarkingSent => 2
    case MarkingFailed(_) => 1
    case ParkingRow => 2
    case ParkingPublish => 1
    case Returning(_) => 0
    case Rejecting => 0
  }

  /** The answers one uninterrupted run of the handler would get at each await. */
  datatype Env = Env(pref: Option<Preference>, rule: Option<Rule>, prefAt: int, ruleAt: int,
                     createRow: Call, deliver: Option<string>, deliverAt: int,
                     markSent: Call, markFailed: Call, parkRow: Call, parkPublish: Call)

  function AnswerAt(pc: Pc, env: Env): (a: Answer)
    requires Rank(pc) > 0
    ensures Fits(pc, a)
  {
    match pc
    case Received => Go
    case LookingUp => Looked(env.pref, env.rule, env.prefAt, env.ruleAt)
    case Creating(_) => Stored(env.createRow)
    case Delivering => Delivered(env.deliver, env.deliverAt)
    case MarkingSent => Stored(env.markSent)
    case MarkingFailed(_) => Stored(env.markFailed)
    case ParkingRow => Stored(env.parkRow)
    case ParkingPublish => Stored(env.parkPublish)
  }

  datatype Position = Position(pc: Pc, row: nat, store: Store)

  predicate Sound(p: Position, body: Body)
  {
    && (HasRow(p.pc) ==> p.row < |p.store.rows|)
    && (Rank(p.pc) > 0 && !p.pc.Received? ==> ValidBody(body))
  }

  /** One await of the handler. */
  function PassAwait(p: Position, id: nat, body: Body, k: nat, a: Answer): (q: Position)
    requires Fits(p.pc, a) && Sound(p, body)
    ensures Sound(q, body)
    ensures Rank(q.pc) < Rank(p.pc)
  {
    Position(Goto(p.pc, body, k, a), RowAfter(p.pc, p.row, p.store), Write(p.pc, id, body, k, p.row, p.store, a))
  }

  /** The whole run, await by await. */
  function Drive(p: Position, id: nat, body: Body, k: nat, env: Env): (q: Position)
    requires Sound(p, body)
    ensures Rank(q.pc) == 0
    decreases Rank(p.pc)
  {
    if Rank(p.pc) == 0 then p else
      Drive(PassAwait(p, id, body, k, AnswerAt(p.pc, env)), id, body, k, env)
  }

  /** Driving on from a position that is not the end passes its await first. */
  lemma DriveOn(p: Position, id: nat, body: Body, k: nat, env: Env)
    requires Sound(p, body) && Rank(p.pc) > 0
    ensures var q := PassAwait(p, id, body, k, AnswerAt(p.pc, env));
            Drive(p, id, body, k, env) == if Rank(q.pc) == 0 then q else Drive(q, id, body, k, env)
  {
  }
}
