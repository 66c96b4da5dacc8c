/** The consumer's method and the system of interleaved handlers meet here: an uninterrupted handler of the
    system does what the method does. With it, the bound on duplicates is shown to be exact. */
module RetryRefinement {
  import opened Wrappers
  import opened Contracts
  import opened Messaging
  import opened HandlerSteps
  import opened Consumer
  import opened Lifecycle
  import opened Logs
  import opened RetrySystem
  import opened Isolation
  import opened RetryRuns
  import opened RetryTheorems

  lemma {:induction false} Extend(ss: seq<Step>, s: Step)
    requires Feasible(ss) && Enabled(State(ss), s)
    ensures Feasible(ss + [s]) && State(ss + [s]) == Next(State(ss), s)
  {
    assert (ss + [s])[..|ss|] == ss;
  }

  function PositionOf(w: World, i: nat): Position
    requires i < |w.inflight|
  {
    Position(w.inflight[i].pc, w.inflight[i].row, w.ledger.store)
  }

  /** Nothing changed but the handler `i` and what handlers write. */
  ghost predicate OnlyHandler(w: World, w': World, i: nat)
  {
    && w'.main == w.main && w'.retry == w.retry && w'.settled == w.settled && w'.published == w.published
    && |w'.inflight| == |w.inflight| && i < |w.inflight| && w'.inflight[i].msg == w.inflight[i].msg
    && (forall j :: 0 <= j < |w.inflight| && j != i ==> w'.inflight[j] == w.inflight[j])
    && w'.ledger.crashes == w.ledger.crashes
  }

  lemma {:induction false} HandlerSound(ss: seq<Step>, i: nat)
    requires Feasible(ss) && i < |State(ss).inflight|
    ensures Sound(PositionOf(State(ss), i), State(ss).inflight[i].msg.body)
  {
    HandledLife(ss, i);
    OnlyValidGoesOn(LifeOf(State(ss), HandlerToken(State(ss).inflight[i])));
    HandlerHasRow(ss, i);
  }

  lemma OnlyValidGoesOn(l: Life)
    requires LifeInv(l) && l.token.place.Handling?
    ensures Rank(l.token.place.pc) > 0 && !l.token.place.pc.Received? ==> ValidBody(l.token.body)
  {
    assert Routed(l);
  }

  lemma {:induction false} HandlerHasRow(ss: seq<Step>, i: nat)
    requires Feasible(ss) && i < |State(ss).inflight|
    ensures HasRow(State(ss).inflight[i].pc) ==> State(ss).inflight[i].row < |State(ss).ledger.store.rows|
  {
    RunInv(ss);
    var w := State(ss);
    assert OwnsRow(w.ledger.store.rows, w.inflight[i].msg.id, w.inflight[i].pc, w.inflight[i].row);
  }

  lemma PassIsPass(w: World, i: nat, a: Answer)
    requires Enabled(w, Pass(i, a)) && Sound(PositionOf(w, i), w.inflight[i].msg.body)
    ensures var w', m := Next(w, Pass(i, a)), w.inflight[i].msg;
            && OnlyHandler(w, w', i)
            && PositionOf(w', i) == PassAwait(PositionOf(w, i), m.id, m.body, RetryCount(m), a)
            && (!a.Stored? || a.call.Done? ==> w'.ledger.lost == w.ledger.lost && w'.ledger.throws == w.ledger.throws)
  {
  }

  lemma OnlyHandlerStill(w: World, w': World, w'': World, i: nat)
    requires OnlyHandler(w, w', i) && OnlyHandler(w', w'', i)
    ensures OnlyHandler(w, w'', i)
  {
  }

  predicate AllDone(env: Env)
  {
    env.createRow.Done? && env.markSent.Done? && env.markFailed.Done? && env.parkRow.Done? && env.parkPublish.Done?
  }

  lemma DoneAnswer(pc: Pc, env: Env)
    requires Rank(pc) > 0 && AllDone(env)
    ensures AnswerAt(pc, env).Stored? ==> AnswerAt(pc, env).call.Done?
  {
  }

  lemma {:induction false} OnePass(ss: seq<Step>, i: nat, env: Env) returns (tt: seq<Step>)
    requires Feasible(ss) && i < |State(ss).inflight| && Rank(State(ss).inflight[i].pc) > 0
    requires Sound(PositionOf(State(ss), i), State(ss).inflight[i].msg.body)
    ensures Feasible(tt) && OnlyHandler(State(ss), State(tt), i)
    ensures var p, m := PositionOf(State(ss), i), State(ss).inflight[i].msg;
            PositionOf(State(tt), i) == PassAwait(p, m.id, m.body, RetryCount(m), AnswerAt(p.pc, env))
    ensures AllDone(env) ==>
      State(tt).ledger.lost == State(ss).ledger.lost && State(tt).ledger.throws == State(ss).ledger.throws
  {
    var a := AnswerAt(State(ss).inflight[i].pc, env);
    if AllDone(env) {
      DoneAnswer(State(ss).inflight[i].pc, env);
    }
    Extend(ss, Pass(i, a));
    PassIsPass(State(ss), i, a);
    tt := ss + [Pass(i, a)];
  }

  /** Whatever run led to a handler's position, letting that handler go on alone, with the awaits answered
      as in `env`, is again a run, and ends with the rows, the terminal queue and the verdict of `Drive`. */
  lemma {:induction false} DriveIsARun(ss: seq<Step>, i: nat, env: Env) returns (tt: seq<Step>)
    requires Feasible(ss) && i < |State(ss).inflight|
    ensures Feasible(tt) && OnlyHandler(State(ss), State(tt), i)
    ensures var m := State(ss).inflight[i].msg;
            Sound(PositionOf(State(ss), i), m.body)
            && PositionOf(State(tt), i) == Drive(PositionOf(State(ss), i), m.id, m.body, RetryCount(m), env)
    ensures AllDone(env) ==>
      State(tt).ledger.lost == State(ss).ledger.lost && State(tt).ledger.throws == State(ss).ledger.throws
    decreases Rank(State(ss).inflight[i].pc)
  {
    HandlerSound(ss, i);
    if Rank(State(ss).inflight[i].pc) == 0 {
      tt := ss;
    } else {
      var next := OnePass(ss, i, env);
      tt := DriveIsARun(next, i, env);
      OnlyHandlerStill(State(ss), State(next), State(tt), i);
    }
  }

  /** The answers of a day on which everything works. */
  function GoodDay(u: UserId): Env
  {
    Env(Some(Preference(u, Email, true)), Some(Rule(0, u, TradeExecuted, true)), 0, 0,
        Done, None, 0, Done, Done, Done, Done)
  }

  lemma GoodDaySends(st: Store, id: nat, body: Body)
    requires ValidBody(body)
    ensures var end := Drive(Position(Received, 0, st), id, body, 0, GoodDay(body.event.userId));
            && end.pc == Returning(Notified)
            && end.store == st.(rows := st.rows + [MarkedSent(PendingRow(id, body.event, Email, 0))])
  {
    var env := GoodDay(body.event.userId);
    var created := st.(rows := st.rows + [PendingRow(id, body.event, Email, 0)]);
    DriveToDelivery(st, id, body, 0, env);
    DriveOn(Position(Delivering, |st.rows|, created), id, body, 0, env);
    DriveOn(Position(MarkingSent, |st.rows|, created), id, body, 0, env);
    assert created.rows[|st.rows| := MarkedSent(PendingRow(id, body.event, Email, 0))]
        == st.rows + [MarkedSent(PendingRow(id, body.event, Email, 0))];
  }

  ghost predicate Resting(w: World, m: Message, crashes: nat, sent: nat)
  {
    && w.main == [m] && w.inflight == []
    && w.ledger.crashes[m.id] == crashes && w.ledger.lost == multiset{}
    && CountOf(RowsFor(w, m.id), Sent) == sent
  }

  /** From a waiting event, a delivery on a good day up to the moment before its acknowledgement. */
  lemma {:induction false} NotifyOnce(ss: seq<Step>, m: Message, crashes: nat, sent: nat) returns (tt: seq<Step>)
    requires Feasible(ss) && Resting(State(ss), m, crashes, sent) && ValidBody(m.body) && RetryCount(m) == 0
    ensures Feasible(tt)
    ensures var w := State(tt);
            && w.main == [] && |w.inflight| == 1 && w.inflight[0].msg == m && w.inflight[0].pc == Returning(Notified)
            && w.ledger.crashes[m.id] == crashes && w.ledger.lost == multiset{}
            && CountOf(RowsFor(w, m.id), Sent) == sent + 1
  {
    var v := TakeIt(ss, m, crashes, sent);
    tt := DriveIsARun(v, 0, GoodDay(m.body.event.userId));
    var st := State(ss).ledger.store;
    GoodDaySends(st, m.id, m.body);
    var r := MarkedSent(PendingRow(m.id, m.body.event, Email, 0));
    OneMoreSent(st.rows, m.id, r);
  }

  lemma OneMoreSent(rows: seq<Row>, e: nat, r: Row)
    requires r.tx == e && r.status == Sent
    ensures CountOf(Of(rows + [r], RowTx, e), Sent) == CountOf(Of(rows, RowTx, e), Sent) + 1
  {
    OfAppend(rows, RowTx, e, r);
    CountAppend(Of(rows, RowTx, e), r, Sent);
  }

  lemma {:induction false} TakeIt(ss: seq<Step>, m: Message, crashes: nat, sent: nat) returns (tt: seq<Step>)
    requires Feasible(ss) && Resting(State(ss), m, crashes, sent)
    ensures Feasible(tt)
    ensures var w := State(tt);
            && w.main == [] && w.inflight == [Handler(m, Received, 0)] && w.ledger.store == State(ss).ledger.store
            && w.ledger.crashes[m.id] == crashes && w.ledger.lost == multiset{}
  {
    Extend(ss, Deliver(0));
    tt := ss + [Deliver(0)];
  }

  /** Every crash can cost a duplicate: after a crash between marking and acknowledging, the event waits
      again with one more SENT row. */
  lemma {:induction false} CrashesDuplicate(m: Message, crashes: nat) returns (ss: seq<Step>)
    requires ValidBody(m.body) && m.deaths == []
    ensures Feasible(ss) && Resting(State(ss), m, crashes, crashes)
  {
    if crashes == 0 {
      Extend([], Publish(m.id, m.body));
      ss := [] + [Publish(m.id, m.body)];
      PublishedGoesToMain(START.(ledger := Ticked(EMPTY, m.id), published := [m]), m);
      assert Message(m.id, m.body, []) == m && [] + [m] == [m];
    } else {
      var before := CrashesDuplicate(m, crashes - 1);
      var tt := NotifyOnce(before, m, crashes - 1, crashes - 1);
      Extend(tt, CrashOf(0));
      ss := tt + [CrashOf(0)];
    }
  }

  /** The bound of `DuplicatesBounded` is exact: for every number of crashes there is a run with that many
      crashes of one event and one SENT row more. */
  lemma DuplicateBoundIsTight(m: Message, crashes: nat) returns (ss: seq<Step>)
    requires ValidBody(m.body) && m.deaths == []
    ensures Feasible(ss)
    ensures State(ss).ledger.crashes[m.id] == crashes && State(ss).ledger.lost[m.id] == 0
    ensures CountOf(RowsFor(State(ss), m.id), Sent) == 1 + crashes
  {
    var before := CrashesDuplicate(m, crashes);
    ss := NotifyOnce(before, m, crashes, crashes);
  }
}
