/** Interleaved `create` calls: insert, invalidate, publish, return; each may throw at each of its awaits. */
module Publisher {
  import opened Wrappers
  import opened Contracts
  import opened Messaging
  import opened HandlerSteps
  import opened PortfolioTables

  /** Where a call is. `Aborted` remembers the row it had inserted when it threw, if it knew of one. */
  datatype Progress = Inserting | Invalidating(row: nat) | Publishing(row: nat)
                    | Returned(rec: TxRecord) | Aborted(inserted: Option<nat>)
  datatype Create = Create(cmd: CreateCommand, progress: Progress)

  /** The table, the published events and the calls; `owner` remembers which call inserted which row. */
  datatype Shop = Shop(now: int, txs: seq<TxRow>, owner: seq<nat>, events: seq<Message>, calls: map<nat, Create>)

  const OPENED: Shop := Shop(0, [], [], [], map[])

  datatype Step = Tick(ms: nat) | Begin(c: nat, cmd: CreateCommand) | Proceed(c: nat, call: Call)

  predicate Enabled(s: Shop, step: Step)
  {
    match step
    case Tick(_) => true
    case Begin(c, _) => c !in s.calls
    case Proceed(c, call) =>
      && c in s.calls
      && match s.calls[c].progress
         case Inserting => NewRow(s.txs, s.calls[c].cmd, s.now).None? ==> call.Throws?
         case Invalidating(_) => true
         case Publishing(row) => row < |s.txs|
         case _ => false
  }

  function EventOf(r: TxRow): Message
  {
    Message(r.id, Fields(ToEvent(r)), [])
  }

  /** The row a call has inserted, if any. */
  function RowOf(p: Progress): Option<nat>
  {
    match p
    case Inserting => None
    case Invalidating(row) => Some(row)
    case Publishing(row) => Some(row)
    case Returned(rec) => Some(rec.id)
    case Aborted(row) => row
  }

  function Inserted(s: Shop, c: nat, p: Progress): Shop
    requires c in s.calls && NewRow(s.txs, s.calls[c].cmd, s.now).Some?
  {
    s.(txs := s.txs + [NewRow(s.txs, s.calls[c].cmd, s.now).value], owner := s.owner + [c],
       calls := s.calls[c := s.calls[c].(progress := p)])
  }

  function Moved(s: Shop, c: nat, p: Progress): Shop
    requires c in s.calls
  {
    s.(calls := s.calls[c := s.calls[c].(progress := p)])
  }

  function Published(s: Shop, c: nat, row: nat, p: Progress): Shop
    requires c in s.calls && row < |s.txs|
  {
    s.(events := s.events + [EventOf(s.txs[row])], calls := s.calls[c := s.calls[c].(progress := p)])
  }

  function Next(s: Shop, step: Step): Shop
    requires Enabled(s, step)
  {
    match step
    case Tick(ms) => s.(now := s.now + ms)
    case Begin(c, cmd) => s.(calls := s.calls[c := Create(cmd, Inserting)])
    case Proceed(c, call) =>
      match s.calls[c].progress
      case Inserting =>
        if call.Throws? then Moved(s, c, Aborted(None))
        else Inserted(s, c, if call.Done? then Invalidating(|s.txs|) else Aborted(Some(|s.txs|)))
      case Invalidating(row) => Moved(s, c, if call.Done? then Publishing(row) else Aborted(Some(row)))
      case Publishing(row) =>
        if call.Throws? then Moved(s, c, Aborted(Some(row)))
        else Published(s, c, row, if call.Done? then Returned(ToRecord(s.txs[row])) else Aborted(Some(row)))
  }

  /** The row stores the command: its fields, its numbers rounded to the column. */
  predicate Stores(r: TxRow, cmd: CreateCommand)
  {
    r.userId == cmd.userId && r.symbol == cmd.symbol && r.txType == cmd.txType
    && ToDecimal(cmd.qty) == Some(r.qty) && ToDecimal(cmd.price) == Some(r.price)
  }

  function EventIds(events: seq<Message>): set<nat>
  {
    set m <- events :: m.id
  }

  lemma EventIdsAppend(events: seq<Message>, m: Message)
    ensures EventIds(events + [m]) == EventIds(events) + {m.id}
  {
    forall n | n in events + [m] ensures n in events || n == m {
    }
    assert m in events + [m] && forall n :: n in events ==> n in events + [m];
  }

  predicate HasEvent(s: Shop, row: nat)
  {
    row in EventIds(s.events)
  }

  predicate RowOk(s: Shop, i: nat)
    requires i < |s.txs| && |s.owner| == |s.txs|
  {
    && s.txs[i].id == i && s.txs[i].createdAt <= s.now
    && s.owner[i] in s.calls && RowOf(s.calls[s.owner[i]].progress) == Some(i)
    && Stores(s.txs[i], s.calls[s.owner[i]].cmd)
  }

  ghost predicate RowsOk(s: Shop)
  {
    && |s.owner| == |s.txs| && InsertedInOrder(s.txs)
    && forall i :: 0 <= i < |s.txs| ==> RowOk(s, i)
  }

  /** A call that still has to publish has no event; one that returned has, and returns its row's record. */
  predicate CallOk(s: Shop, c: nat)
    requires c in s.calls && |s.owner| == |s.txs|
  {
    var p := s.calls[c].progress;
    && (RowOf(p).Some? ==> RowOf(p).value < |s.txs| && s.owner[RowOf(p).value] == c)
    && (p.Returned? ==> HasEvent(s, p.rec.id) && p.rec == ToRecord(s.txs[p.rec.id]))
    && (p.Invalidating? || p.Publishing? ==> !HasEvent(s, p.row))
  }

  ghost predicate CallsOk(s: Shop)
  {
    |s.owner| == |s.txs| && forall c :: c in s.calls ==> CallOk(s, c)
  }

  /** Events are published once per row and carry that row's fields. */
  ghost predicate EventsOk(s: Shop)
  {
    && (forall i :: 0 <= i < |s.events| ==> s.events[i].id < |s.txs| && s.events[i] == EventOf(s.txs[s.events[i].id]))
    && (forall i, j :: 0 <= i < j < |s.events| ==> s.events[i].id != s.events[j].id)
  }

  ghost predicate Inv(s: Shop)
  {
    RowsOk(s) && CallsOk(s) && EventsOk(s)
  }

  lemma MovedKeepsInv(s: Shop, c: nat, p: Progress)
    requires Inv(s) && c in s.calls && RowOf(p) == RowOf(s.calls[c].progress)
    requires p.Aborted? || (p.Publishing? && s.calls[c].progress.Invalidating?)
    ensures Inv(Moved(s, c, p))
  {
    var s' := Moved(s, c, p);
    forall i: nat | i < |s'.txs| ensures RowOk(s', i) {
      assert RowOk(s, i);
    }
    forall d | d in s'.calls ensures CallOk(s', d) {
      assert CallOk(s, d);
    }
  }

  lemma BeginKeepsInv(s: Shop, c: nat, cmd: CreateCommand)
    requires Inv(s) && c !in s.calls
    ensures Inv(s.(calls := s.calls[c := Create(cmd, Inserting)]))
  {
    var s' := s.(calls := s.calls[c := Create(cmd, Inserting)]);
    forall i: nat | i < |s'.txs| ensures RowOk(s', i) {
      assert RowOk(s, i);
    }
    forall d | d in s'.calls ensures CallOk(s', d) {
      assert d != c ==> CallOk(s, d);
    }
  }

  lemma InsertedKeepsInv(s: Shop, c: nat, p: Progress)
    requires Inv(s) && c in s.calls && s.calls[c].progress.Inserting? && NewRow(s.txs, s.calls[c].cmd, s.now).Some?
    requires p == Invalidating(|s.txs|) || p == Aborted(Some(|s.txs|))
    ensures Inv(Inserted(s, c, p))
  {
    var s' := Inserted(s, c, p);
    forall i: nat | i < |s'.txs| ensures RowOk(s', i) {
      if i < |s.txs| {
        assert RowOk(s, i);
      }
    }
    assert !HasEvent(s, |s.txs|);
    forall d | d in s'.calls ensures CallOk(s', d) {
      assert CallOk(s, d);
    }
    forall i: nat, j: nat | i <= j < |s'.txs| ensures s'.txs[i].createdAt <= s'.txs[j].createdAt {
      if j < |s.txs| {
        assert s.txs[i].createdAt <= s.txs[j].createdAt;
      } else if i < |s.txs| {
        assert RowOk(s, i);
      }
    }
  }

  lemma PublishedKeepsInv(s: Shop, c: nat, row: nat, p: Progress)
    requires Inv(s) && c in s.calls && s.calls[c].progress == Publishing(row) && row < |s.txs|
    requires p == Aborted(Some(row)) || p == Returned(ToRecord(s.txs[row]))
    ensures Inv(Published(s, c, row, p))
  {
    var s' := Published(s, c, row, p);
    EventIdsAppend(s.events, EventOf(s.txs[row]));
    assert RowOk(s, row) && CallOk(s, c);
    forall i: nat | i < |s'.txs| ensures RowOk(s', i) {
      assert RowOk(s, i);
    }
    forall d | d in s'.calls ensures CallOk(s', d) {
      assert CallOk(s, d);
    }
    forall i | 0 <= i < |s.events| ensures s.events[i].id != row {
      assert s.events[i].id in EventIds(s.events);
    }
  }

  lemma TickKeepsInv(s: Shop, ms: nat)
    requires Inv(s)
    ensures Inv(s.(now := s.now + ms))
  {
    var s' := s.(now := s.now + ms);
    forall i: nat | i < |s'.txs| ensures RowOk(s', i) {
      assert RowOk(s, i);
    }
    forall d | d in s'.calls ensures CallOk(s', d) {
      assert CallOk(s, d);
    }
  }

  lemma StepKeepsInv(s: Shop, step: Step)
    requires Inv(s) && Enabled(s, step)
    ensures Inv(Next(s, step))
  {
    match step
    case Tick(ms) => TickKeepsInv(s, ms);
    case Begin(c, cmd) => BeginKeepsInv(s, c, cmd);
    case Proceed(c, call) =>
      match s.calls[c].progress {
        case Inserting =>
          if call.Throws? {
            MovedKeepsInv(s, c, Aborted(None));
          } else {
            InsertedKeepsInv(s, c, if call.Done? then Invalidating(|s.txs|) else Aborted(Some(|s.txs|)));
          }
        case Invalidating(row) => MovedKeepsInv(s, c, if call.Done? then Publishing(row) else Aborted(Some(row)));
        case Publishing(row) =>
          if call.Throws? {
            MovedKeepsInv(s, c, Aborted(Some(row)));
          } else {
            PublishedKeepsInv(s, c, row, if call.Done? then Returned(ToRecord(s.txs[row])) else Aborted(Some(row)));
          }
      }
  }

  /** The runs of interleaved creates. */
  predicate Feasible(ss: seq<Step>)
    decreases |ss|, 0
  {
    ss == [] || (Feasible(ss[..|ss| - 1]) && Enabled(State(ss[..|ss| - 1]), ss[|ss| - 1]))
  }

  function State(ss: seq<Step>): Shop
    requires Feasible(ss)
    decreases |ss|, 1
  {
    if ss == [] then OPENED else Next(State(ss[..|ss| - 1]), ss[|ss| - 1])
  }

  lemma {:induction false} RunInv(ss: seq<Step>)
    requires Feasible(ss)
    ensures Inv(State(ss))
    decreases |ss|
  {
    if ss != [] {
      RunInv(ss[..|ss| - 1]);
      StepKeepsInv(State(ss[..|ss| - 1]), ss[|ss| - 1]);
    }
  }

  predicate Failing(p: Progress)
  {
    p.Aborted? || p.Invalidating? || p.Publishing?
  }

  /** Published events map one to one to rows with equal fields; and a row without an event belongs to a call
      that is still on its way to publishing or threw. */
  lemma EventsMatchRows(ss: seq<Step>)
    requires Feasible(ss)
    ensures var s := State(ss);
            && (forall i :: 0 <= i < |s.events| ==>
                  s.events[i].id < |s.txs| && s.events[i] == EventOf(s.txs[s.events[i].id]))
            && (forall i, j :: 0 <= i < j < |s.events| ==> s.events[i].id != s.events[j].id)
            && |s.owner| == |s.txs|
            && (forall row :: 0 <= row < |s.txs| && !HasEvent(s, row) ==>
                  && s.owner[row] in s.calls && RowOf(s.calls[s.owner[row]].progress) == Some(row)
                  && Failing(s.calls[s.owner[row]].progress))
  {
    RunInv(ss);
    var s := State(ss);
    forall row: nat | row < |s.txs| && !HasEvent(s, row)
      ensures s.owner[row] in s.calls && RowOf(s.calls[s.owner[row]].progress) == Some(row)
           && Failing(s.calls[s.owner[row]].progress)
    {
      assert RowOk(s, row);
      assert CallOk(s, s.owner[row]);
    }
  }

  /** How the awaits of call `c` ended, in order: the insert, the delete of the cache key, the publish. */
  function Ended(ss: seq<Step>, c: nat): seq<Call>
    decreases |ss|
  {
    if ss == [] then [] else
      var n := |ss| - 1;
      Ended(ss[..n], c) + if ss[n].Proceed? && ss[n].c == c then [ss[n].call] else []
  }

  /** A call is as far as its awaits have worked. */
  predicate Follows(p: Progress, ended: seq<Call>)
  {
    && |ended| <= 3 && (forall i :: 0 <= i < |ended| - 1 ==> ended[i].Done?)
    && match p
       case Inserting => ended == []
       case Invalidating(_) => ended == [Done]
       case Publishing(_) => ended == [Done, Done]
       case Returned(_) => ended == [Done, Done, Done]
       case Aborted(row) =>
         ended != [] && !ended[|ended| - 1].Done? && (row.Some? <==> |ended| > 1 || ended[0].LostReply?)
  }

  /** It has an event if all three awaits were reached and the publish took effect. */
  predicate EventFollows(s: Shop, p: Progress, ended: seq<Call>)
  {
    RowOf(p).Some? ==> (HasEvent(s, RowOf(p).value) <==> |ended| == 3 && !ended[2].Throws?)
  }

  lemma StepFollows(s: Shop, step: Step, c: nat, ended: seq<Call>)
    requires Inv(s) && Enabled(s, step) && c in Next(s, step).calls
    requires if c in s.calls then Follows(s.calls[c].progress, ended) && EventFollows(s, s.calls[c].progress, ended)
             else ended == []
    ensures var s', ended' := Next(s, step), ended + if step.Proceed? && step.c == c then [step.call] else [];
            Follows(s'.calls[c].progress, ended') && EventFollows(s', s'.calls[c].progress, ended')
  {
    var s' := Next(s, step);
    if c in s.calls {
      assert CallOk(s, c);
      if step.Proceed? {
        assert CallOk(s, step.c);
        if s.calls[step.c].progress.Publishing? {
          EventIdsAppend(s.events, EventOf(s.txs[s.calls[step.c].progress.row]));
          assert RowOk(s, s.calls[step.c].progress.row);
        } else if s.calls[step.c].progress.Inserting? {
          assert !HasEvent(s, |s.txs|);
        }
      }
      assert ended + [] == ended;
    }
  }

  lemma {:induction false} NotBegunNotEnded(ss: seq<Step>, c: nat)
    requires Feasible(ss) && c !in State(ss).calls
    ensures Ended(ss, c) == []
    decreases |ss|
  {
    if ss != [] {
      NotBegunNotEnded(ss[..|ss| - 1], c);
    }
  }

  lemma {:induction false} CallFollows(ss: seq<Step>, c: nat)
    requires Feasible(ss) && c in State(ss).calls
    ensures Follows(State(ss).calls[c].progress, Ended(ss, c))
    ensures EventFollows(State(ss), State(ss).calls[c].progress, Ended(ss, c))
    decreases |ss|
  {
    var before := ss[..|ss| - 1];
    RunInv(before);
    if c in State(before).calls {
      CallFollows(before, c);
    } else {
      NotBegunNotEnded(before, c);
    }
    StepFollows(State(before), ss[|ss| - 1], c, Ended(before, c));
  }

  /** The row that call `c` inserted. */
  predicate Inserts(s: Shop, c: nat, row: nat)
  {
    row < |s.txs| && row < |s.owner| && s.owner[row] == c
  }

  /** In every run, a call goes on exactly as long as its awaits work: after one that threw there is no other,
      and the call never returns. It returns when all three worked; it has inserted a row if its insert took
      effect; and that row has an event if its publish was reached and took effect. */
  lemma {:induction false} ThrowingEndsTheCall(ss: seq<Step>, c: nat)
    requires Feasible(ss) && c in State(ss).calls
    ensures var s, ended := State(ss), Ended(ss, c);
            && |ended| <= 3 && (forall i :: 0 <= i < |ended| - 1 ==> ended[i].Done?)
            && (s.calls[c].progress.Returned? <==> ended == [Done, Done, Done])
            && ((exists row :: Inserts(s, c, row)) <==> ended != [] && !ended[0].Throws?)
            && (forall row :: Inserts(s, c, row) ==> (HasEvent(s, row) <==> |ended| == 3 && !ended[2].Throws?))
  {
    var s, p := State(ss), State(ss).calls[c].progress;
    RunInv(ss);
    CallFollows(ss, c);
    assert CallOk(s, c);
    if RowOf(p).Some? {
      assert Inserts(s, c, RowOf(p).value);
    }
    forall row: nat | Inserts(s, c, row) ensures RowOf(p) == Some(row) {
      assert RowOk(s, row);
    }
  }

  /** A call that returned: its row stores its command, its record and its row's one event agree, and the
      list shows the record. */
  ghost predicate Completed(s: Shop, c: nat)
    requires c in s.calls
  {
    var p := s.calls[c].progress;
    && p.Returned? && p.rec.id < |s.txs| && Stores(s.txs[p.rec.id], s.calls[c].cmd)
    && EventOf(s.txs[p.rec.id]) in s.events && AgreesWith(p.rec, EventOf(s.txs[p.rec.id]))
    && p.rec in ListOf(s.txs, s.calls[c].cmd.userId)
  }

  lemma ReturnedIsCompleted(s: Shop, c: nat)
    requires Inv(s) && c in s.calls && s.calls[c].progress.Returned?
    ensures Completed(s, c)
  {
    var rec := s.calls[c].progress.rec;
    assert CallOk(s, c);
    assert RowOk(s, rec.id);
    var m :| m in s.events && m.id == rec.id;
    var i :| 0 <= i < |s.events| && s.events[i] == m;
    ListIsTheQuery(s.txs, s.calls[c].cmd.userId);
    assert s.txs[rec.id] in s.txs;
  }

  /** In every run, every call that has returned is completed; and when all have, there are as many events
      as rows, one for each. */
  lemma AllReturnedAllPublished(ss: seq<Step>)
    requires Feasible(ss)
    ensures var s := State(ss);
            && (forall c :: c in s.calls && s.calls[c].progress.Returned? ==> Completed(s, c))
            && ((forall c :: c in s.calls ==> s.calls[c].progress.Returned?) ==>
                  |s.events| == |s.txs| && forall row :: 0 <= row < |s.txs| ==> HasEvent(s, row))
  {
    RunInv(ss);
    var s := State(ss);
    forall c | c in s.calls && s.calls[c].progress.Returned? ensures Completed(s, c) {
      ReturnedIsCompleted(s, c);
    }
    if forall c :: c in s.calls ==> s.calls[c].progress.Returned? {
      forall row: nat | row < |s.txs| ensures HasEvent(s, row) {
        assert RowOk(s, row);
        assert CallOk(s, s.owner[row]);
      }
      AsManyEvents(s);
    }
  }

  /** The record the caller gets and the event the consumer gets say the same. */
  predicate AgreesWith(rec: TxRecord, m: Message)
  {
    m.body.Fields? && m.id == rec.id && m.body.event.userId == rec.userId && m.body.event.symbol == rec.symbol
    && m.body.event.txType == rec.txType && m.body.event.qty == rec.qty && m.body.event.price == rec.price
    && m.body.event.occurredAt == rec.createdAt
  }

  function IdsBelow(n: nat): set<nat>
  {
    if n == 0 then {} else IdsBelow(n - 1) + {n - 1}
  }

  lemma {:induction false} SizeBelow(n: nat)
    ensures |IdsBelow(n)| == n
    ensures forall i: nat :: i in IdsBelow(n) <==> i < n
  {
    if n > 0 {
      SizeBelow(n - 1);
    }
  }

  lemma {:induction false} DistinctSize(ms: seq<Message>)
    requires forall i, j :: 0 <= i < j < |ms| ==> ms[i].id != ms[j].id
    ensures |EventIds(ms)| == |ms|
    decreases |ms|
  {
    if ms != [] {
      var before, last := ms[..|ms| - 1], ms[|ms| - 1];
      DistinctSize(before);
      assert ms == before + [last];
      EventIdsAppend(before, last);
      forall m | m in before ensures m.id != last.id {
        var i :| 0 <= i < |before| && before[i] == m;
        assert ms[i] == m;
      }
    }
  }

  lemma AsManyEvents(s: Shop)
    requires EventsOk(s) && forall row :: 0 <= row < |s.txs| ==> HasEvent(s, row)
    ensures |s.events| == |s.txs|
  {
    DistinctSize(s.events);
    SizeBelow(|s.txs|);
    forall n | n in EventIds(s.events) ensures n in IdsBelow(|s.txs|) {
      var m :| m in s.events && m.id == n;
      var i :| 0 <= i < |s.events| && s.events[i] == m;
    }
    forall n | n in IdsBelow(|s.txs|) ensures n in EventIds(s.events) {
      assert HasEvent(s, n);
    }
    assert EventIds(s.events) == IdsBelow(|s.txs|);
  }

  lemma Extend(ss: seq<Step>, step: Step)
    requires Feasible(ss) && Enabled(State(ss), step)
    ensures Feasible(ss + [step]) && State(ss + [step]) == Next(State(ss), step)
  {
    assert (ss + [step])[..|ss|] == ss;
  }

  /** A create that no other call interrupts and no fault hits does what the service's operation does. */
  lemma UninterruptedIsCreate(ss: seq<Step>, c: nat, cmd: CreateCommand) returns (tt: seq<Step>)
    requires Feasible(ss) && c !in State(ss).calls && NewRow(State(ss).txs, cmd, State(ss).now).Some?
    ensures Feasible(tt)
    ensures var s, s', op := State(ss), State(tt), CreateTx(cmd);
            var t := Tables(s.txs, map[], []);
            && s'.txs == PlainTables(t, s.now, op).txs
            && s'.events == s.events + PlainEvents(t, s.now, op)
            && c in s'.calls && s'.calls[c].progress.Returned?
            && Created(s'.calls[c].progress.rec) == PlainAnswer(t, s.now, op)
  {
    var row := |State(ss).txs|;
    Extend(ss, Begin(c, cmd));
    tt := ss + [Begin(c, cmd)];
    Extend(tt, Proceed(c, Done));
    tt := tt + [Proceed(c, Done)];
    assert State(tt).calls[c].progress == Invalidating(row) && |State(tt).txs| == row + 1;
    Extend(tt, Proceed(c, Done));
    tt := tt + [Proceed(c, Done)];
    Extend(tt, Proceed(c, Done));
    tt := tt + [Proceed(c, Done)];
  }

  /** CreateTransactionDto: what the gateway lets through. */
  predicate GatewayAccepts(cmd: CreateCommand)
  {
    1 <= |cmd.symbol| <= 10 && cmd.qty >= 0.0000001 && cmd.price >= 0.0000001
  }

  /** TransactionCreateCommandSchema: what the portfolio service lets through. */
  predicate RpcAccepts(cmd: CreateCommand)
  {
    1 <= |cmd.symbol| <= 10 && cmd.qty > 0.0 && cmd.price > 0.0
  }

  lemma FloorFrom(x: real)
    ensures x.Floor >= 1 <==> x >= 1.0
  {
  }

  /** A number survives the column as a positive number exactly from half a unit on. */
  lemma RoundsToPositive(q: real)
    requires ToDecimal(q).Some?
    ensures FromDecimal(ToDecimal(q).value) > 0.0 <==> q >= 0.000000005
  {
    FloorFrom(q * UNITS + 0.5);
    var units := ToDecimal(q).value;
    assert FromDecimal(units) > 0.0 <==> units >= 1;
  }

  /** A row makes an event the consumer accepts exactly when the symbol has one to ten characters and neither
      number is below half a unit of the column: the RPC schema alone does not see to the latter. */
  lemma EventValidExactlyWhen(txs: seq<TxRow>, cmd: CreateCommand, now: int)
    requires NewRow(txs, cmd, now).Some?
    ensures ValidBody(EventOf(NewRow(txs, cmd, now).value).body)
        <==> 1 <= |cmd.symbol| <= 10 && cmd.qty >= 0.000000005 && cmd.price >= 0.000000005
  {
    RoundsToPositive(cmd.qty);
    RoundsToPositive(cmd.price);
  }

  /** A command the RPC schema accepts whose event the consumer drops as invalid. */
  lemma TinyAmountsAreDropped()
    ensures var cmd := CreateCommand("u", "AAPL", Buy, 0.000000001, 1.0);
            RpcAccepts(cmd) && NewRow([], cmd, 0).Some? && !ValidBody(EventOf(NewRow([], cmd, 0).value).body)
  {
    var x := 0.000000001 * UNITS + 0.5;
    assert x == 0.6;
    assert x.Floor == 0;
  }

  lemma GatewayRowIsValid(s: Shop, row: nat)
    requires RowsOk(s) && row < |s.txs| && s.owner[row] in s.calls && GatewayAccepts(s.calls[s.owner[row]].cmd)
    ensures ValidBody(EventOf(s.txs[row]).body)
  {
    assert RowOk(s, row);
    RoundsToPositive(s.calls[s.owner[row]].cmd.qty);
    RoundsToPositive(s.calls[s.owner[row]].cmd.price);
  }

  /** When every call came through the gateway, every event, in every run, passes the consumer's schema: no
      transaction created through the gateway is dropped as invalid. */
  lemma GatewayEventsAreValid(ss: seq<Step>)
    requires Feasible(ss) && forall c <- State(ss).calls :: GatewayAccepts(State(ss).calls[c].cmd)
    ensures forall m <- State(ss).events :: ValidBody(m.body)
  {
    RunInv(ss);
    var s := State(ss);
    forall m | m in s.events ensures ValidBody(m.body) {
      var i :| 0 <= i < |s.events| && s.events[i] == m;
      assert RowOk(s, m.id);
      GatewayRowIsValid(s, m.id);
    }
  }
}
