/** Where each row of the notification table comes from: the lookup that its own handler made before it
    created the row. */
module RowOrigins {
  import opened Messaging
  import opened HandlerSteps
  import opened Lifecycle
  import opened Logs
  import opened RetrySystem
  import opened Isolation
  import opened RetryRuns

  /** For each row, the position among all lookups of the one that was its event's newest when the table
      grew by the row. */
  function Origins(ss: seq<Step>): seq<nat>
    requires Feasible(ss)
    decreases |ss|
  {
    if ss == [] then [] else
      var before := ss[..|ss| - 1];
      Grown(Origins(before), State(before).ledger.lookups, State(ss).ledger.store.rows)
  }

  function Grown(origins: seq<nat>, lookups: seq<Lookup>, rows: seq<Row>): seq<nat>
  {
    if |rows| <= |origins| then origins
    else origins + [Newest(lookups, LookupTx, rows[|rows| - 1].tx)]
  }

  /** The lookup is about the row's event and user, and found both enabled, with the row's channel. */
  predicate Allows(l: Lookup, r: Row)
  {
    l.tx == r.tx && l.userId == r.userId && Backs(l, r.channel)
  }

  /** Every row that is not DEAD has its own lookup that allows it. */
  predicate Linked(rows: seq<Row>, lookups: seq<Lookup>, origins: seq<nat>)
  {
    && |origins| == |rows|
    && (forall j :: 0 <= j < |rows| && rows[j].status != Dead ==>
          origins[j] < |lookups| && Allows(lookups[origins[j]], rows[j]))
    && (forall i, j :: 0 <= i < j < |rows| && rows[i].status != Dead && rows[j].status != Dead ==>
          origins[i] != origins[j])
  }

  /** No row has been created from lookup `n`. */
  predicate Unspent(rows: seq<Row>, origins: seq<nat>, n: nat)
    requires |origins| == |rows|
  {
    forall j :: 0 <= j < |rows| && rows[j].status != Dead ==> origins[j] != n
  }

  /** The lookups that handlers are about to create a row from have not been used before. */
  ghost predicate HandlersUnspent(hs: seq<Handler>, rows: seq<Row>, lookups: seq<Lookup>, origins: seq<nat>)
    requires |origins| == |rows|
  {
    forall i :: 0 <= i < |hs| && hs[i].pc.Creating? ==>
      Unspent(rows, origins, Newest(lookups, LookupTx, hs[i].msg.id))
  }

  ghost predicate Good(hs: seq<Handler>, rows: seq<Row>, lookups: seq<Lookup>, origins: seq<nat>)
  {
    Linked(rows, lookups, origins) && HandlersUnspent(hs, rows, lookups, origins)
  }

  /** What a step does to the table: nothing; one row more; or one row marked, which was not DEAD before. */
  predicate Marked(rows: seq<Row>, rows': seq<Row>)
  {
    |rows'| == |rows| && forall j :: 0 <= j < |rows| && rows'[j].status != Dead ==>
      && rows[j].status != Dead && rows'[j].tx == rows[j].tx
      && rows'[j].userId == rows[j].userId && rows'[j].channel == rows[j].channel
  }

  lemma MarkedKeepsLinked(rows: seq<Row>, rows': seq<Row>, lookups: seq<Lookup>, more: seq<Lookup>, origins: seq<nat>)
    requires Linked(rows, lookups, origins) && Marked(rows, rows')
    ensures Linked(rows', lookups + more, origins)
    ensures forall n: nat :: Unspent(rows, origins, n) ==> Unspent(rows', origins, n)
    ensures forall n: nat :: n >= |lookups| ==> Unspent(rows', origins, n)
  {
  }

  lemma InsertKeepsLinked(rows: seq<Row>, r: Row, lookups: seq<Lookup>, origins: seq<nat>, n: nat)
    requires Linked(rows, lookups, origins)
    requires r.status != Dead ==> n < |lookups| && Allows(lookups[n], r) && Unspent(rows, origins, n)
    ensures Linked(rows + [r], lookups, origins + [n])
    ensures forall m: nat :: Unspent(rows, origins, m) && (r.status == Dead || m != n)
              ==> Unspent(rows + [r], origins + [n], m)
  {
  }

  /** The newest lookup of a handler about to create a row is about its event, and allows the row. */
  lemma CreatingIsAllowed(w: World, h: Handler)
    requires LifeInv(LifeOf(w, HandlerToken(h))) && h.pc.Creating?
    ensures var n := Newest(w.ledger.lookups, LookupTx, h.msg.id);
            && LastOf(w.ledger.lookups, LookupTx, h.msg.id, n) && h.msg.body.Fields?
            && Allows(w.ledger.lookups[n], PendingRow(h.msg.id, h.msg.body.event, h.pc.channel, RetryCount(h.msg)))
  {
    var l := LifeOf(w, HandlerToken(h));
    assert Consented(l) && Described(l);
    NewestIsLast(w.ledger.lookups, LookupTx, h.msg.id);
  }

  lemma HandlerAlive(w: World, i: nat)
    requires Inv(w) && i < |w.inflight|
    ensures LifeInv(LifeOf(w, HandlerToken(w.inflight[i])))
  {
    BagAt(w.inflight, HandlerToken, i);
    assert HandlerToken(w.inflight[i]) in Tokens(w);
  }

  /** The row a handler marks is not a DEAD one. */
  lemma MarkedIsNotDead(w: World, h: Handler)
    requires LifeInv(LifeOf(w, HandlerToken(h))) && HasRow(h.pc)
    requires OwnsRow(w.ledger.store.rows, h.msg.id, h.pc, h.row)
    ensures h.row < |w.ledger.store.rows| && w.ledger.store.rows[h.row].status != Dead
  {
    assert WorksOnItsRow(LifeOf(w, HandlerToken(h)));
    OfUpdateLast(w.ledger.store.rows, RowTx, h.msg.id, h.row, w.ledger.store.rows[h.row]);
  }

  lemma WriteMarks(h: Handler, k: nat, st: Store, a: Answer)
    requires Fits(h.pc, a) && !h.pc.Creating? && !h.pc.ParkingRow?
    requires HasRow(h.pc) ==> h.row < |st.rows| && st.rows[h.row].status != Dead
    ensures Marked(st.rows, Write(h.pc, h.msg.id, h.msg.body, k, h.row, st, a).rows)
  {
  }

  /** The row a handler is about to insert. */
  function InsertedRow(h: Handler): Row
    requires h.msg.body.Fields? && (h.pc.Creating? || h.pc.ParkingRow?)
  {
    if h.pc.Creating? then PendingRow(h.msg.id, h.msg.body.event, h.pc.channel, RetryCount(h.msg))
    else DeadRow(h.msg.id, h.msg.body.event, RetryCount(h.msg))
  }

  lemma WriteInserts(h: Handler, k: nat, st: Store, a: Answer)
    requires Fits(h.pc, a) && (h.pc.Creating? || h.pc.ParkingRow?) && k == RetryCount(h.msg)
    ensures var rows' := Write(h.pc, h.msg.id, h.msg.body, k, h.row, st, a).rows;
            rows' == st.rows || (h.msg.body.Fields? && rows' == st.rows + [InsertedRow(h)])
  {
  }

  /** The other handlers work on other events. */
  ghost predicate Apart(hs: seq<Handler>, i: nat)
  {
    i < |hs| && forall j :: 0 <= j < |hs| && j != i ==> hs[j].msg.id != hs[i].msg.id
  }

  /** Every handler about to create a row has a newest lookup. */
  ghost predicate HaveLookups(hs: seq<Handler>, lookups: seq<Lookup>)
  {
    forall j :: 0 <= j < |hs| && hs[j].pc.Creating? ==>
      LastOf(lookups, LookupTx, hs[j].msg.id, Newest(lookups, LookupTx, hs[j].msg.id))
  }

  lemma InsertKeepsGood(hs: seq<Handler>, i: nat, h': Handler, rows: seq<Row>, r: Row,
                        lookups: seq<Lookup>, origins: seq<nat>)
    requires Good(hs, rows, lookups, origins) && Apart(hs, i) && HaveLookups(hs, lookups)
    requires !h'.pc.Creating? && r.tx == hs[i].msg.id
    requires r.status != Dead ==> hs[i].pc.Creating? && Allows(lookups[Newest(lookups, LookupTx, r.tx)], r)
    ensures Good(hs[i := h'], rows + [r], lookups, origins + [Newest(lookups, LookupTx, r.tx)])
  {
    InsertKeepsLinked(rows, r, lookups, origins, Newest(lookups, LookupTx, r.tx));
  }

  lemma MarkKeepsGood(hs: seq<Handler>, i: nat, h': Handler, rows: seq<Row>, rows': seq<Row>,
                      lookups: seq<Lookup>, more: seq<Lookup>, origins: seq<nat>)
    requires Good(hs, rows, lookups, origins) && Apart(hs, i) && Marked(rows, rows')
    requires more == [] || (|more| == 1 && more[0].tx == hs[i].msg.id)
    requires h'.msg == hs[i].msg && (h'.pc.Creating? ==> more != [])
    ensures Good(hs[i := h'], rows', lookups + more, origins)
  {
    MarkedKeepsLinked(rows, rows', lookups, more, origins);
    var hs' := hs[i := h'];
    forall j | 0 <= j < |hs'| && hs'[j].pc.Creating?
      ensures Unspent(rows', origins, Newest(lookups + more, LookupTx, hs'[j].msg.id))
    {
      if more == [] {
        assert lookups + more == lookups;
      } else {
        assert more == [more[0]];
        NewestAppend(lookups, LookupTx, hs'[j].msg.id, more[0]);
      }
    }
  }

  lemma ApartIn(w: World, i: nat)
    requires Inv(w) && i < |w.inflight|
    ensures Apart(w.inflight, i)
  {
    forall j: nat | j < |w.inflight| && j != i ensures w.inflight[j].msg.id != w.inflight[i].msg.id {
      DistinctHandlers(w, i, j);
    }
  }

  lemma HaveLookupsIn(w: World)
    requires Inv(w)
    ensures HaveLookups(w.inflight, w.ledger.lookups)
  {
    forall j: nat | j < |w.inflight| && w.inflight[j].pc.Creating?
      ensures LastOf(w.ledger.lookups, LookupTx, w.inflight[j].msg.id,
                     Newest(w.ledger.lookups, LookupTx, w.inflight[j].msg.id))
    {
      HandlerAlive(w, j);
      CreatingIsAllowed(w, w.inflight[j]);
    }
  }

  lemma LookingUpIsValid(l: Life)
    requires LifeInv(l) && l.token.place.Handling? && l.token.place.pc.LookingUp?
    ensures l.token.body.Fields?
  {
    assert Routed(l);
  }

  /** What the invariant of the runs gives a handler that is about to pass an await. */
  ghost predicate Ready(hs: seq<Handler>, i: nat, rows: seq<Row>, lookups: seq<Lookup>)
  {
    && Apart(hs, i) && HaveLookups(hs, lookups)
    && var h := hs[i];
       && (h.pc.LookingUp? || h.pc.Creating? ==> h.msg.body.Fields?)
       && (h.pc.Creating? ==> Allows(lookups[Newest(lookups, LookupTx, h.msg.id)], InsertedRow(h)))
       && (HasRow(h.pc) ==> h.row < |rows| && rows[h.row].status != Dead)
  }

  lemma ReadyIn(w: World, i: nat)
    requires i < |w.inflight| && Inv(w)
    ensures Ready(w.inflight, i, w.ledger.store.rows, w.ledger.lookups)
  {
    var h := w.inflight[i];
    ApartIn(w, i);
    HaveLookupsIn(w);
    HandlerAlive(w, i);
    assert OwnsRow(w.ledger.store.rows, h.msg.id, h.pc, h.row);
    if h.pc.LookingUp? {
      LookingUpIsValid(LifeOf(w, HandlerToken(h)));
    } else if h.pc.Creating? {
      CreatingIsAllowed(w, h);
    } else if HasRow(h.pc) {
      MarkedIsNotDead(w, h);
    }
  }

  lemma PassKeepsGood(hs: seq<Handler>, i: nat, a: Answer, h': Handler, g: Ledger, origins: seq<nat>)
    requires Ready(hs, i, g.store.rows, g.lookups) && Good(hs, g.store.rows, g.lookups, origins)
    requires Fits(hs[i].pc, a) && h'.msg == hs[i].msg
    requires h'.pc == Goto(hs[i].pc, hs[i].msg.body, RetryCount(hs[i].msg), a)
    ensures var h := hs[i];
            var rows' := Write(h.pc, h.msg.id, h.msg.body, RetryCount(h.msg), h.row, g.store, a).rows;
            Good(hs[i := h'], rows', g.lookups + LookupMade(h.msg.id, h.msg.body, a), Grown(origins, g.lookups, rows'))
  {
    var h, rows, more := hs[i], g.store.rows, LookupMade(hs[i].msg.id, hs[i].msg.body, a);
    var rows' := Write(h.pc, h.msg.id, h.msg.body, RetryCount(h.msg), h.row, g.store, a).rows;
    if h.pc.Creating? || h.pc.ParkingRow? {
      WriteInserts(h, RetryCount(h.msg), g.store, a);
      assert g.lookups + [] == g.lookups;
      if rows' != rows {
        InsertKeepsGood(hs, i, h', rows, InsertedRow(h), g.lookups, origins);
      } else {
        MarkKeepsGood(hs, i, h', rows, rows, g.lookups, more, origins);
      }
    } else {
      WriteMarks(h, RetryCount(h.msg), g.store, a);
      MarkKeepsGood(hs, i, h', rows, rows', g.lookups, more, origins);
    }
  }

  ghost predicate GoodIn(w: World, origins: seq<nat>)
  {
    Good(w.inflight, w.ledger.store.rows, w.ledger.lookups, origins)
  }

  lemma FewerKeepGood(hs: seq<Handler>, rows: seq<Row>, lookups: seq<Lookup>, origins: seq<nat>, i: nat, m: Message)
    requires Good(hs, rows, lookups, origins)
    ensures i < |hs| ==> Good(Drop(hs, i), rows, lookups, origins)
    ensures Good(hs + [Handler(m, Received, 0)], rows, lookups, origins)
  {
  }

  lemma StepKeepsGood(w: World, s: Step, origins: seq<nat>)
    requires Inv(w) && GoodIn(w, origins) && Enabled(w, s)
    ensures GoodIn(Next(w, s), Grown(origins, w.ledger.lookups, Next(w, s).ledger.store.rows))
  {
    RowsAfter(w, s);
    LookupsAfter(w, s);
    InflightAfter(w, s);
    var hs, rows, lookups := w.inflight, w.ledger.store.rows, w.ledger.lookups;
    match s
    case Pass(i, a) =>
      ReadyIn(w, i);
      PassKeepsGood(hs, i, a, HandlerAfter(w, hs[i], a), w.ledger, origins);
    case Deliver(i) => FewerKeepGood(hs, rows, lookups, origins, i, w.main[i]);
    case AckOf(i) => FewerKeepGood(hs, rows, lookups, origins, i, hs[i].msg);
    case NackOf(i) => FewerKeepGood(hs, rows, lookups, origins, i, hs[i].msg);
    case CrashOf(i) => FewerKeepGood(hs, rows, lookups, origins, i, hs[i].msg);
    case _ =>
  }

  lemma LookupsAfter(w: World, s: Step)
    requires Enabled(w, s)
    ensures Next(w, s).ledger.lookups ==
            if s.Pass? then w.ledger.lookups + LookupMade(w.inflight[s.i].msg.id, w.inflight[s.i].msg.body, s.answer)
            else w.ledger.lookups
  {
    LedgerAfter(w, s);
  }

  lemma {:induction false} RunKeepsGood(ss: seq<Step>)
    requires Feasible(ss)
    ensures GoodIn(State(ss), Origins(ss))
    decreases |ss|
  {
    if ss != [] {
      RunKeepsGood(ss[..|ss| - 1]);
      RunInv(ss[..|ss| - 1]);
      StepKeepsGood(State(ss[..|ss| - 1]), ss[|ss| - 1], Origins(ss[..|ss| - 1]));
    }
  }

  function OriginOf(ss: seq<Step>, j: nat): Lookup
    requires Feasible(ss) && j < |Origins(ss)| && Origins(ss)[j] < |State(ss).ledger.lookups|
  {
    State(ss).ledger.lookups[Origins(ss)[j]]
  }

  /** In every run, every row that is not DEAD was created from a lookup of its own: one for its event and
      user that found the preference enabled with the row's channel and the rule enabled. No two rows share
      their lookup, not even two attempts for the same event. */
  lemma {:induction false} EveryRowHasItsLookup(ss: seq<Step>)
    requires Feasible(ss)
    ensures var rows, origins := State(ss).ledger.store.rows, Origins(ss);
            && |origins| == |rows|
            && (forall j :: 0 <= j < |rows| && rows[j].status != Dead ==>
                  origins[j] < |State(ss).ledger.lookups| && Allows(OriginOf(ss, j), rows[j]))
            && (forall i, j :: 0 <= i < j < |rows| && rows[i].status != Dead && rows[j].status != Dead ==>
                  origins[i] != origins[j])
  {
    RunKeepsGood(ss);
  }

  /** The table after a step, with its origins: nothing was inserted and the origins are as before; or one row
      was, and if it is not DEAD its origin is the newest lookup of its event, which allows it. */
  ghost predicate TakesTheNewest(lookups: seq<Lookup>, origins: seq<nat>, rows': seq<Row>, origins': seq<nat>)
  {
    var n := |origins|;
    |origins'| == |rows'| && if |rows'| == n then origins' == origins else
      && |rows'| == n + 1 && origins'[..n] == origins
      && (rows'[n].status != Dead ==>
            LastOf(lookups, LookupTx, rows'[n].tx, origins'[n]) && Allows(lookups[origins'[n]], rows'[n]))
  }

  lemma PassTakesTheNewest(hs: seq<Handler>, i: nat, a: Answer, g: Ledger, origins: seq<nat>)
    requires Ready(hs, i, g.store.rows, g.lookups) && Fits(hs[i].pc, a) && |origins| == |g.store.rows|
    ensures var h := hs[i];
            var rows' := Write(h.pc, h.msg.id, h.msg.body, RetryCount(h.msg), h.row, g.store, a).rows;
            TakesTheNewest(g.lookups, origins, rows', Grown(origins, g.lookups, rows'))
  {
    if hs[i].pc.Creating? || hs[i].pc.ParkingRow? {
      WriteInserts(hs[i], RetryCount(hs[i].msg), g.store, a);
    }
  }

  lemma StepTakesTheNewest(w: World, s: Step, origins: seq<nat>)
    requires Enabled(w, s) && |origins| == |w.ledger.store.rows| && Inv(w)
    ensures var rows' := Next(w, s).ledger.store.rows;
            TakesTheNewest(w.ledger.lookups, origins, rows', Grown(origins, w.ledger.lookups, rows'))
  {
    RowsAfter(w, s);
    if s.Pass? {
      ReadyIn(w, s.i);
      PassTakesTheNewest(w.inflight, s.i, s.answer, w.ledger, origins);
    }
  }

  /** The step that inserts such a row takes the newest lookup of its event for it: there is no later one that
      might have answered otherwise. And no step ever changes the origin of a row that is already there. */
  lemma {:induction false} InsertedFromTheNewest(ss: seq<Step>, s: Step)
    requires Feasible(ss) && Enabled(State(ss), s) && Feasible(ss + [s])
    ensures TakesTheNewest(State(ss).ledger.lookups, Origins(ss), State(ss + [s]).ledger.store.rows, Origins(ss + [s]))
  {
    assert (ss + [s])[..|ss|] == ss;
    RunInv(ss);
    RunKeepsGood(ss);
    StepTakesTheNewest(State(ss), s, Origins(ss));
  }
}
