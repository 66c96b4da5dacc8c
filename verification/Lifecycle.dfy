/** The life of one event: where it is, what its handlers have written, and the invariant of every step. */
module Lifecycle {
  import opened Wrappers
  import opened Contracts
  import opened Messaging
  import opened HandlerSteps

  datatype DeliverCall = DeliverCall(tx: nat, userId: UserId, err: Option<string>, at: int)
  datatype Lookup =
    Lookup(tx: nat, userId: UserId, pref: Option<Preference>, rule: Option<Rule>, prefAt: int, ruleAt: int)

  /** What the handlers write, and the history the properties speak about: calls of `deliver`, answered
      lookups, and per event the steps taken, the calls that threw, the replies lost and the crashes. */
  datatype Ledger = Ledger(store: Store, calls: seq<DeliverCall>, lookups: seq<Lookup>,
                           steps: multiset<nat>, throws: multiset<nat>, lost: multiset<nat>, crashes: multiset<nat>)

  const EMPTY: Ledger := Ledger(Store([], []), [], [], multiset{}, multiset{}, multiset{}, multiset{})

  function Ticked(g: Ledger, id: nat): Ledger
  {
    g.(steps := g.steps + multiset{id})
  }

  function Crashed(g: Ledger, id: nat): Ledger
  {
    g.(crashes := g.crashes + multiset{id})
  }

  function CallMade(id: nat, body: Body, a: Answer): seq<DeliverCall>
  {
    if a.Delivered? && body.Fields? then [DeliverCall(id, body.event.userId, a.err, a.at)] else []
  }

  function LookupMade(id: nat, body: Body, a: Answer): seq<Lookup>
  {
    if a.Looked? && body.Fields? then [Lookup(id, body.event.userId, a.pref, a.rule, a.prefAt, a.ruleAt)] else []
  }

  predicate Threw(a: Answer)
  {
    a.Stored? && a.call.Throws?
  }

  predicate WasLost(a: Answer)
  {
    a.Stored? && a.call.LostReply?
  }

  function Added(g: Ledger, st: Store, id: nat, calls: seq<DeliverCall>, lookups: seq<Lookup>,
                 threw: bool, lost: bool): Ledger
  {
    Ledger(st, g.calls + calls, g.lookups + lookups, g.steps,
           if threw then g.throws + multiset{id} else g.throws,
           if lost then g.lost + multiset{id} else g.lost, g.crashes)
  }

  /** What one await of a handler adds to the ledger. */
  function Entered(g: Ledger, id: nat, body: Body, k: nat, pc: Pc, row: nat, a: Answer): Ledger
    requires Fits(pc, a)
    requires HasRow(pc) ==> row < |g.store.rows|
  {
    Added(g, Write(pc, id, body, k, row, g.store, a), id, CallMade(id, body, a), LookupMade(id, body, a),
          Threw(a), WasLost(a))
  }

  /** Where an event is: on the main queue, on the retry queue, in a handler, or acknowledged.
      `k` is the retry count its header shows. */
  datatype Place = Waiting(k: nat) | Cooling(k: nat) | Handling(k: nat, pc: Pc) | Settled(k: nat, outcome: Outcome)
  datatype Token = Token(id: nat, body: Body, place: Place)
  datatype Life = Life(token: Token, ledger: Ledger)

  /** What can happen to one event. */
  datatype Move = Take | Await(answer: Answer) | Ack | Nack | Crash | Expire

  function NewestRow(st: Store): nat
  {
    if st.rows == [] then 0 else |st.rows| - 1
  }

  predicate Can(l: Life, mv: Move)
  {
    var p := l.token.place;
    match mv
    case Take => p.Waiting?
    case Await(a) => p.Handling? && Fits(p.pc, a) && (HasRow(p.pc) ==> l.ledger.store.rows != [])
    case Ack => p.Handling? && p.pc.Returning?
    case Nack => p.Handling? && p.pc.Rejecting?
    case Crash => p.Handling?
    case Expire => p.Cooling?
  }

  function After(l: Life, mv: Move): Life
    requires Can(l, mv)
  {
    var t := l.token;
    var p := t.place;
    var g := Ticked(l.ledger, t.id);
    match mv
    case Take => Life(t.(place := Handling(p.k, Received)), g)
    case Await(a) =>
      Life(t.(place := Handling(p.k, Goto(p.pc, t.body, p.k, a))),
           Entered(g, t.id, t.body, p.k, p.pc, NewestRow(g.store), a))
    case Ack => Life(t.(place := Settled(p.k, p.pc.outcome)), g)
    case Nack => Life(t.(place := Cooling(p.k + 1)), g)
    case Crash => Life(t.(place := Waiting(p.k)), Crashed(g, t.id))
    case Expire => Life(t.(place := Waiting(p.k)), g)
  }

  /** A freshly published event; publishing it was its first step. */
  function Born(id: nat, body: Body): Life
  {
    Life(Token(id, body, Waiting(0)), Ticked(EMPTY, id))
  }

  function CountOf(rows: seq<Row>, s: Status): nat
    decreases |rows|
  {
    if rows == [] then 0 else
      CountOf(rows[..|rows| - 1], s) + if rows[|rows| - 1].status == s then 1 else 0
  }

  lemma CountAppend(rows: seq<Row>, r: Row, s: Status)
    ensures CountOf(rows + [r], s) == CountOf(rows, s) + if r.status == s then 1 else 0
  {
    assert (rows + [r])[..|rows|] == rows;
  }

  lemma CountOverwrite(rows: seq<Row>, r: Row, s: Status)
    requires rows != []
    ensures CountOf(rows[|rows| - 1 := r], s) + (if rows[|rows| - 1].status == s then 1 else 0)
         == CountOf(rows, s) + if r.status == s then 1 else 0
  {
    assert rows[|rows| - 1 := r][..|rows| - 1] == rows[..|rows| - 1];
  }

  /** The event has left, or is about to leave, the protocol with this outcome. */
  predicate Ends(p: Place, o: Outcome)
  {
    p == Settled(p.k, o) || p == Handling(p.k, Returning(o))
  }

  /** An event that fails its schema is only ever acknowledged; a valid one is parked exactly when its
      retry count has reached the limit. */
  predicate Routed(l: Life)
  {
    var p := l.token.place;
    if ValidBody(l.token.body) then
      && !Ends(p, Invalid)
      && (Ends(p, Notified) || Ends(p, Skipped) ==> p.k < MAX_RETRIES)
      && (Ends(p, Parked) ==> p.k >= MAX_RETRIES)
      && (p.Handling? && (HasRow(p.pc) || p.pc.LookingUp? || p.pc.Creating?) ==> p.k < MAX_RETRIES)
      && (p.Handling? && (p.pc.ParkingRow? || p.pc.ParkingPublish?) ==> p.k >= MAX_RETRIES)
    else
      && (p == Waiting(0) || p == Handling(0, Received) || Ends(p, Invalid))
      && p.k == 0
      && l.ledger.store == Store([], []) && l.ledger.calls == [] && l.ledger.lookups == []
  }

  /** Every row, copy and call of the event says whose and what it is. */
  predicate Described(l: Life)
  {
    var t := l.token;
    && RowsDescribe(l) && CopiesDescribe(l)
    && (forall i :: 0 <= i < |l.ledger.calls| ==> CallDescribes(l.ledger.calls[i], t))
    && (forall i :: 0 <= i < |l.ledger.lookups| ==> LookupDescribes(l.ledger.lookups[i], t))
  }

  predicate RowsDescribe(l: Life)
  {
    forall i :: 0 <= i < |l.ledger.store.rows| ==> RowDescribes(l.ledger.store.rows[i], l.token)
  }

  predicate CopiesDescribe(l: Life)
  {
    forall i :: 0 <= i < |l.ledger.store.dlq| ==> l.ledger.store.dlq[i] == Republished(l.token.id, l.token.body)
  }

  predicate RowDescribes(r: Row, t: Token)
  {
    t.body.Fields? && r.tx == t.id && r.userId == t.body.event.userId
    && r.symbol == t.body.event.symbol && r.txType == t.body.event.txType && TellsError(r)
    && (r.status == Dead ==> r.channel == Email)
  }

  /** A row has an error exactly when it failed or was parked. */
  predicate TellsError(r: Row)
  {
    match r.status
    case Failed => r.lastError.Some?
    case Dead => r.lastError == Some("max retries exceeded")
    case _ => r.lastError.None?
  }

  predicate CallDescribes(c: DeliverCall, t: Token)
  {
    t.body.Fields? && c.tx == t.id && c.userId == t.body.event.userId
  }

  predicate LookupDescribes(c: Lookup, t: Token)
  {
    t.body.Fields? && c.tx == t.id && c.userId == t.body.event.userId
  }

  predicate EndsWith(rows: seq<Row>, s: Status, attempts: nat)
  {
    rows != [] && rows[|rows| - 1].status == s && rows[|rows| - 1].attempts == attempts
  }

  /** The handler that delivers or marks works on the newest row of its event, which it created; and the newest
      row of a notified or parked event is its SENT or DEAD one, with the attempts its header tells. */
  predicate WorksOnItsRow(l: Life)
  {
    var p, rows := l.token.place, l.ledger.store.rows;
    && (p.Handling? && (p.pc.Delivering? || p.pc.MarkingSent?) ==> EndsWith(rows, Pending, p.k))
    && (p.Handling? && p.pc.MarkingFailed? ==> EndsWith(rows, Pending, p.k) || EndsWith(rows, Sent, p.k + 1))
    && (Ends(p, Notified) ==> EndsWith(rows, Sent, p.k + 1))
    && (Ends(p, Parked) || (p.Handling? && p.pc.ParkingPublish?) ==> EndsWith(rows, Dead, p.k))
  }

  /** Faults after which an effect may have happened that the protocol will repeat. */
  function Repeats(l: Life): nat
  {
    l.ledger.crashes[l.token.id] + l.ledger.lost[l.token.id]
  }

  predicate SentBounded(l: Life)
  {
    var sent := CountOf(l.ledger.store.rows, Sent);
    if Ends(l.token.place, Notified) then 1 <= sent <= 1 + Repeats(l) else sent <= Repeats(l)
  }

  predicate ParkedBounded(l: Life)
  {
    ParkedNumbers(|l.ledger.store.dlq|, CountOf(l.ledger.store.rows, Dead), Repeats(l), l.token.place)
  }

  predicate ParkedNumbers(copies: nat, dead: nat, repeats: nat, p: Place)
  {
    && (if Ends(p, Parked) then 1 <= copies <= 1 + repeats else copies <= repeats)
    && copies <= dead
    && (p.Handling? && p.pc.ParkingPublish? ==> copies < dead)
    && (p.k < MAX_RETRIES ==> dead == 0)
  }

  function Min(a: nat, b: nat): nat
  {
    if a < b then a else b
  }

  /** A handler that has called `deliver` has used up one more attempt than its header shows. */
  function Attempts(p: Place): nat
  {
    p.k + if Ends(p, Notified) ||
             (p.Handling? && (p.pc.MarkingSent? || p.pc.MarkingFailed? || p.pc.Rejecting?)) then 1 else 0
  }

  predicate DeliveriesBounded(l: Life)
  {
    |l.ledger.calls| <= Min(Attempts(l.token.place), MAX_RETRIES) + l.ledger.crashes[l.token.id]
  }

  predicate Backs(c: Lookup, channel: Channel)
  {
    Wanted(c.pref, c.rule) && c.pref.value.channel == channel
  }

  /** The newest lookup allows a notification on the channel. */
  predicate NewestBacks(lookups: seq<Lookup>, channel: Channel)
  {
    lookups != [] && Backs(lookups[|lookups| - 1], channel)
  }

  /** The newest lookup did not find both enabled. */
  predicate NewestRefuses(lookups: seq<Lookup>)
  {
    lookups != [] && !Wanted(lookups[|lookups| - 1].pref, lookups[|lookups| - 1].rule)
  }

  /** A handler about to create a row does so on the event's newest lookup, its own; and one that skips does
      so on its own, too. */
  predicate Consented(l: Life)
  {
    && (l.token.place.Handling? && l.token.place.pc.Creating? ==>
          NewestBacks(l.ledger.lookups, l.token.place.pc.channel))
    && (Ends(l.token.place, Skipped) ==> NewestRefuses(l.ledger.lookups))
  }

  /** The event met no fault: only `deliver` may have thrown. */
  predicate Unharmed(l: Life)
  {
    Repeats(l) == 0 && l.ledger.throws[l.token.id] == 0
  }

  /** The row of the delivery that failed as the event's attempt number `attempts`. */
  predicate Records(r: Row, c: DeliverCall, attempts: nat)
  {
    r.status == Failed && r.attempts == attempts && c.err.Some? && r.lastError == c.err
  }

  /** Rows FAILED with attempts 1..k, each with the error of its call of `deliver`. */
  predicate FailedUpTo(rows: seq<Row>, calls: seq<DeliverCall>, k: nat)
  {
    k <= |rows| && k <= |calls| && forall i :: 0 <= i < k ==> Records(rows[i], calls[i], i + 1)
  }

  predicate OnlyFailed(g: Ledger, k: nat)
  {
    |g.store.rows| == k && |g.calls| == k && FailedUpTo(g.store.rows, g.calls, k)
  }

  predicate ThenRow(g: Ledger, k: nat, s: Status, attempts: nat)
  {
    |g.store.rows| == k + 1 && FailedUpTo(g.store.rows, g.calls, k)
    && g.store.rows[k].status == s && g.store.rows[k].attempts == attempts
  }

  predicate ThenCall(g: Ledger, k: nat, err: Option<string>)
  {
    |g.calls| == k + 1 && g.calls[k].err == err
  }

  /** The exact rows and calls of an event that met no fault, at every place of its life. */
  predicate Numbered(l: Life)
  {
    var p, g := l.token.place, l.ledger;
    && p.k <= MAX_RETRIES
    && match p
       case Waiting(k) => OnlyFailed(g, k)
       case Cooling(k) => OnlyFailed(g, k)
       case Handling(k, pc) => NumberedIn(g, k, pc)
       case Settled(k, o) => NumberedIn(g, k, Returning(o))
  }

  predicate NumberedIn(g: Ledger, k: nat, pc: Pc)
  {
    match pc
    case Delivering => ThenRow(g, k, Pending, k) && |g.calls| == k
    case MarkingSent => ThenRow(g, k, Pending, k) && ThenCall(g, k, None)
    case MarkingFailed(err) => ThenRow(g, k, Pending, k) && ThenCall(g, k, Some(err))
    case ParkingPublish => ThenRow(g, k, Dead, k) && |g.calls| == k
    case Returning(Notified) => ThenRow(g, k, Sent, k + 1) && ThenCall(g, k, None)
    case Returning(Parked) => ThenRow(g, k, Dead, k) && |g.calls| == k
    case Rejecting => k < MAX_RETRIES && OnlyFailed(g, k + 1)
    case _ => OnlyFailed(g, k)
  }

  /** The steps an event still has before it if nothing else goes wrong. */
  function RoundsLeft(k: nat): nat
  {
    5 + 9 * (MAX_RETRIES - Min(k, MAX_RETRIES))
  }

  function StepsLeft(p: Place): nat
  {
    match p
    case Waiting(k) => RoundsLeft(k)
    case Cooling(k) => 1 + RoundsLeft(k)
    case Settled(_, _) => 0
    case Handling(k, pc) =>
      match pc
      case Received => RoundsLeft(k) - 1
      case LookingUp => 7 + RoundsLeft(k + 1)
      case Creating(_) => 6 + RoundsLeft(k + 1)
      case Delivering => 5 + RoundsLeft(k + 1)
      case MarkingSent => 4 + RoundsLeft(k + 1)
      case MarkingFailed(_) => 3 + RoundsLeft(k + 1)
      case ParkingRow => 3
      case ParkingPublish => 2
      case Rejecting => 2 + RoundsLeft(k + 1)
      case Returning(_) => 1
  }

  const STEPS_PER_EVENT: nat := 33
  const STEPS_PER_ERROR: nat := 6
  const STEPS_PER_CRASH: nat := 32

  function Allowance(g: Ledger, id: nat): nat
  {
    STEPS_PER_EVENT + STEPS_PER_ERROR * (g.throws[id] + g.lost[id]) + STEPS_PER_CRASH * g.crashes[id]
  }

  predicate WithinAllowance(l: Life)
  {
    l.ledger.steps[l.token.id] + StepsLeft(l.token.place) <= Allowance(l.ledger, l.token.id)
  }

  /** The invariant of an event's life. */
  ghost predicate LifeInv(l: Life)
  {
    && Routed(l) && Described(l) && WorksOnItsRow(l)
    && SentBounded(l) && ParkedBounded(l) && DeliveriesBounded(l)
    && Consented(l)
    && (Unharmed(l) && ValidBody(l.token.body) ==> Numbered(l))
    && WithinAllowance(l)
  }

  lemma BornInv(id: nat, body: Body)
    ensures LifeInv(Born(id, body))
  {
  }

  lemma KeepsRouted(l: Life, mv: Move)
    requires Routed(l) && Can(l, mv)
    ensures Routed(After(l, mv))
  {
  }

  lemma AwaitKeepsWorksOnItsRow(l: Life, a: Answer)
    requires Routed(l) && WorksOnItsRow(l) && Can(l, Await(a))
    ensures WorksOnItsRow(After(l, Await(a)))
  {
    RowsAfterAwait(l, a);
  }

  /** The newest row after an await that stores: the row inserted or marked. */
  lemma RowsAfterAwait(l: Life, a: Answer)
    requires WorksOnItsRow(l) && Can(l, Await(a))
    ensures var pc, k := l.token.place.pc, l.token.place.k;
            var rows, rows' := l.ledger.store.rows, After(l, Await(a)).ledger.store.rows;
            var stored := a.Stored? && !a.call.Throws? && l.token.body.Fields?;
            && (!stored || pc.ParkingPublish? ==> rows' == rows)
            && (stored && pc.Creating? ==> EndsWith(rows', Pending, k))
            && (stored && pc.MarkingSent? ==> EndsWith(rows', Sent, k + 1))
            && (stored && pc.ParkingRow? ==> EndsWith(rows', Dead, k))
  {
  }

  lemma KeepsWorksOnItsRow(l: Life, mv: Move)
    requires Routed(l) && WorksOnItsRow(l) && Can(l, mv)
    ensures WorksOnItsRow(After(l, mv))
  {
    if mv.Await? {
      AwaitKeepsWorksOnItsRow(l, mv.answer);
    }
  }

  /** Parking publishes exactly one copy, on the terminal queue. */
  lemma OneCopy(id: nat, body: Body)
    ensures Arrivals(BINDINGS, TxCreatedDlqFinal, PortfolioEventsDlx, FailedKey, Republished(id, body))
         == [Republished(id, body)]
  {
    EachLegHasOneQueue(TxCreatedDlqFinal, Republished(id, body));
  }

  lemma RowsStayDescribed(l: Life, a: Answer)
    requires WorksOnItsRow(l) && RowsDescribe(l) && Can(l, Await(a))
    ensures RowsDescribe(After(l, Await(a)))
  {
  }

  lemma CopiesStayDescribed(l: Life, a: Answer)
    requires CopiesDescribe(l) && Can(l, Await(a))
    ensures CopiesDescribe(After(l, Await(a)))
  {
    OneCopy(l.token.id, l.token.body);
  }

  lemma KeepsDescribed(l: Life, mv: Move)
    requires WorksOnItsRow(l) && Described(l) && Can(l, mv)
    ensures Described(After(l, mv))
  {
    if mv.Await? {
      RowsStayDescribed(l, mv.answer);
      CopiesStayDescribed(l, mv.answer);
    }
  }

  /** The counts by status after a step: a row inserted, or the newest row overwritten. */
  lemma CountsAfter(l: Life, mv: Move, s: Status)
    requires WorksOnItsRow(l) && Can(l, mv)
    ensures var before, now := CountOf(l.ledger.store.rows, s), CountOf(After(l, mv).ledger.store.rows, s);
            if !mv.Await? || !mv.answer.Stored? || mv.answer.call.Throws? || !l.token.body.Fields? then now == before
            else match l.token.place.pc
                 case Creating(_) => now == before + if s == Pending then 1 else 0
                 case ParkingRow => now == before + if s == Dead then 1 else 0
                 case MarkingSent => now + (if s == Pending then 1 else 0) == before + if s == Sent then 1 else 0
                 case MarkingFailed(_) =>
                   var was := l.ledger.store.rows[|l.ledger.store.rows| - 1].status;
                   now + (if s == was then 1 else 0) == before + if s == Failed then 1 else 0
                 case _ => now == before
  {
    var rows := l.ledger.store.rows;
    if mv.Await? && mv.answer.Stored? && !mv.answer.call.Throws? && l.token.body.Fields? {
      var t, k := l.token, l.token.place.k;
      match t.place.pc {
        case Creating(channel) => CountAppend(rows, PendingRow(t.id, t.body.event, channel, k), s);
        case ParkingRow => CountAppend(rows, DeadRow(t.id, t.body.event, k), s);
        case MarkingSent => CountOverwrite(rows, MarkedSent(rows[|rows| - 1]), s);
        case MarkingFailed(err) => CountOverwrite(rows, MarkedFailed(rows[|rows| - 1], err), s);
        case _ =>
      }
    }
  }

  lemma RepeatsAfter(l: Life, a: Answer)
    requires Can(l, Await(a))
    ensures Repeats(After(l, Await(a))) == Repeats(l) + if WasLost(a) then 1 else 0
  {
  }

  lemma NotifiedAfter(l: Life, a: Answer)
    requires Can(l, Await(a))
    ensures !Ends(l.token.place, Notified)
    ensures Ends(After(l, Await(a)).token.place, Notified) <==> l.token.place.pc.MarkingSent? && a.call.Done?
  {
  }

  lemma SentAfter(l: Life, a: Answer)
    requires WorksOnItsRow(l) && Can(l, Await(a))
    ensures var before, now := CountOf(l.ledger.store.rows, Sent), CountOf(After(l, Await(a)).ledger.store.rows, Sent);
            if l.token.place.pc.MarkingSent? && !a.call.Throws? && l.token.body.Fields? then now == before + 1
            else now <= before
  {
    CountsAfter(l, Await(a), Sent);
  }

  lemma AwaitKeepsSentBounded(l: Life, a: Answer)
    requires Routed(l) && WorksOnItsRow(l) && SentBounded(l) && Can(l, Await(a))
    ensures SentBounded(After(l, Await(a)))
  {
    SentAfter(l, a);
    RepeatsAfter(l, a);
    NotifiedAfter(l, a);
  }

  lemma KeepsSentBounded(l: Life, mv: Move)
    requires Routed(l) && WorksOnItsRow(l) && SentBounded(l) && Can(l, mv)
    ensures SentBounded(After(l, mv))
  {
    if mv.Await? {
      AwaitKeepsSentBounded(l, mv.answer);
    }
  }

  lemma CopiesAfter(l: Life, a: Answer)
    requires Can(l, Await(a))
    ensures |After(l, Await(a)).ledger.store.dlq| == |l.ledger.store.dlq|
          + if l.token.place.pc.ParkingPublish? && !a.call.Throws? && l.token.body.Fields? then 1 else 0
  {
    OneCopy(l.token.id, l.token.body);
  }

  lemma DeadAfter(l: Life, a: Answer)
    requires WorksOnItsRow(l) && Can(l, Await(a))
    ensures CountOf(After(l, Await(a)).ledger.store.rows, Dead) == CountOf(l.ledger.store.rows, Dead)
          + if l.token.place.pc.ParkingRow? && !a.call.Throws? && l.token.body.Fields? then 1 else 0
  {
    CountsAfter(l, Await(a), Dead);
  }

  /** The numbers of a parking, one await further. */
  lemma ParkedNumbersAfter(copies: nat, dead: nat, repeats: nat, k: nat, pc: Pc, body: Body, a: Answer)
    requires Fits(pc, a) && ParkedNumbers(copies, dead, repeats, Handling(k, pc))
    requires pc.ParkingRow? || pc.ParkingPublish? ==> k >= MAX_RETRIES && body.Fields?
    ensures ParkedNumbers(copies + (if pc.ParkingPublish? && !a.call.Throws? && body.Fields? then 1 else 0),
                          dead + (if pc.ParkingRow? && !a.call.Throws? && body.Fields? then 1 else 0),
                          repeats + (if WasLost(a) then 1 else 0), Handling(k, Goto(pc, body, k, a)))
  {
  }

  lemma ParkingIsRouted(l: Life)
    requires Routed(l) && l.token.place.Handling?
    requires l.token.place.pc.ParkingRow? || l.token.place.pc.ParkingPublish?
    ensures l.token.place.k >= MAX_RETRIES && l.token.body.Fields?
  {
  }

  lemma AwaitKeepsParkedBounded(l: Life, a: Answer)
    requires Routed(l) && WorksOnItsRow(l) && ParkedBounded(l) && Can(l, Await(a))
    ensures ParkedBounded(After(l, Await(a)))
  {
    if l.token.place.pc.ParkingRow? || l.token.place.pc.ParkingPublish? {
      ParkingIsRouted(l);
    }
    DeadAfter(l, a);
    RepeatsAfter(l, a);
    CopiesAfter(l, a);
    ParkedNumbersAfter(|l.ledger.store.dlq|, CountOf(l.ledger.store.rows, Dead), Repeats(l),
                       l.token.place.k, l.token.place.pc, l.token.body, a);
  }

  lemma KeepsParkedBounded(l: Life, mv: Move)
    requires Routed(l) && WorksOnItsRow(l) && ParkedBounded(l) && Can(l, mv)
    ensures ParkedBounded(After(l, mv))
  {
    if mv.Await? {
      AwaitKeepsParkedBounded(l, mv.answer);
    }
  }

  lemma KeepsDeliveriesBounded(l: Life, mv: Move)
    requires Routed(l) && DeliveriesBounded(l) && Can(l, mv)
    ensures DeliveriesBounded(After(l, mv))
  {
  }

  lemma MoreLookups(l: Life, a: Answer)
    requires Can(l, Await(a))
    ensures var before, now := l.ledger.lookups, After(l, Await(a)).ledger.lookups;
            && (!a.Looked? ==> now == before)
            && (a.Looked? && l.token.body.Fields? ==>
                  if Wanted(a.pref, a.rule) then NewestBacks(now, a.pref.value.channel) else NewestRefuses(now))
  {
  }

  lemma AwaitKeepsConsented(l: Life, a: Answer)
    requires Routed(l) && Consented(l) && Can(l, Await(a))
    ensures Consented(After(l, Await(a)))
  {
    MoreLookups(l, a);
  }

  lemma KeepsConsented(l: Life, mv: Move)
    requires Routed(l) && Consented(l) && Can(l, mv)
    ensures Consented(After(l, mv))
  {
    if mv.Await? {
      AwaitKeepsConsented(l, mv.answer);
    }
  }

  lemma AwaitKeepsNumbered(l: Life, a: Answer)
    requires Routed(l) && WorksOnItsRow(l) && ValidBody(l.token.body) && Can(l, Await(a))
    requires a.Stored? ==> a.call.Done?
    requires Numbered(l)
    ensures var l' := After(l, Await(a));
            && l'.token.place.Handling? && l'.token.place.k <= MAX_RETRIES
            && NumberedIn(l'.ledger, l'.token.place.k, l'.token.place.pc)
  {
  }

  lemma KeepsNumbered(l: Life, mv: Move)
    requires Routed(l) && WorksOnItsRow(l) && ValidBody(l.token.body) && Can(l, mv)
    requires Unharmed(After(l, mv))
    requires Numbered(l)
    ensures Numbered(After(l, mv))
  {
    if mv.Await? {
      AwaitKeepsNumbered(l, mv.answer);
    }
  }

  /** An await uses up a step, unless it threw, which costs the allowance of an error. */
  lemma AwaitSpends(k: nat, pc: Pc, body: Body, a: Answer)
    requires Fits(pc, a) && Routed(Life(Token(0, body, Handling(k, pc)), EMPTY))
    ensures 1 + StepsLeft(Handling(k, Goto(pc, body, k, a)))
         <= StepsLeft(Handling(k, pc)) + if a.Stored? && !a.call.Done? then STEPS_PER_ERROR else 0
  {
  }

  lemma KeepsWithinAllowance(l: Life, mv: Move)
    requires Routed(l) && WithinAllowance(l) && Can(l, mv)
    ensures WithinAllowance(After(l, mv))
  {
    if mv.Await? {
      AwaitSpends(l.token.place.k, l.token.place.pc, l.token.body, mv.answer);
    }
  }

  /** Every step of an event's life keeps the invariant. */
  lemma EveryMoveKeepsLifeInv(l: Life, mv: Move)
    requires LifeInv(l) && Can(l, mv)
    ensures LifeInv(After(l, mv))
  {
    KeepsRouted(l, mv);
    KeepsWorksOnItsRow(l, mv);
    KeepsDescribed(l, mv);
    KeepsSentBounded(l, mv);
    KeepsParkedBounded(l, mv);
    KeepsDeliveriesBounded(l, mv);
    KeepsConsented(l, mv);
    var l' := After(l, mv);
    if Unharmed(l') && ValidBody(l'.token.body) {
      assert Unharmed(l);
      KeepsNumbered(l, mv);
    }
    KeepsWithinAllowance(l, mv);
  }
}
