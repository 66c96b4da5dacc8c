/** Interleaved handlers do not interfere: each step of the system is one step of one event's life, and
    leaves the ledger of every other event as it was. */
module Isolation {
  import opened Contracts
  import opened Messaging
  import opened HandlerSteps
  import opened Lifecycle
  import opened Logs
  import opened RetrySystem

  function RowTx(r: Row): nat { r.tx }
  function MsgId(m: Message): nat { m.id }
  function CallTx(c: DeliverCall): nat { c.tx }
  function LookupTx(l: Lookup): nat { l.tx }

  function Only(m: multiset<nat>, e: nat): multiset<nat>
  {
    multiset{}[e := m[e]]
  }

  function OwnStore(st: Store, e: nat): Store
  {
    Store(Of(st.rows, RowTx, e), Of(st.dlq, MsgId, e))
  }

  /** The part of a ledger that is about event `e`. */
  function Own(g: Ledger, e: nat): Ledger
  {
    Ledger(OwnStore(g.store, e),
           Of(g.calls, CallTx, e), Of(g.lookups, LookupTx, e),
           Only(g.steps, e), Only(g.throws, e), Only(g.lost, e), Only(g.crashes, e))
  }

  lemma OnlyAdd(m: multiset<nat>, id: nat, e: nat)
    ensures Only(m + multiset{id}, e) == if e == id then Only(m, e) + multiset{id} else Only(m, e)
  {
    assert (m + multiset{id})[e] == m[e] + if e == id then 1 else 0;
  }

  lemma OwnTicked(g: Ledger, id: nat, e: nat)
    ensures Own(Ticked(g, id), e) == if e == id then Ticked(Own(g, e), id) else Own(g, e)
  {
    OnlyAdd(g.steps, id, e);
  }

  lemma OwnCrashed(g: Ledger, id: nat, e: nat)
    ensures Own(Crashed(g, id), e) == if e == id then Crashed(Own(g, e), id) else Own(g, e)
  {
    OnlyAdd(g.crashes, id, e);
  }

  /** The row a handler marks is the newest of its event. */
  ghost predicate OwnsRow(rows: seq<Row>, id: nat, pc: Pc, row: nat)
  {
    HasRow(pc) ==> LastOf(rows, RowTx, id, row)
  }

  /** What is written about an event is written to its own part of the store, in the same way. */
  lemma WriteIsOwn(st: Store, id: nat, body: Body, k: nat, pc: Pc, row: nat, a: Answer)
    requires Fits(pc, a)
    requires HasRow(pc) ==> LastOf(st.rows, RowTx, id, row)
    ensures var own := OwnStore(st, id);
            && (HasRow(pc) ==> own.rows != [])
            && OwnStore(Write(pc, id, body, k, row, st, a), id) == Write(pc, id, body, k, NewestRow(own), own, a)
  {
    if HasRow(pc) {
      OfUpdateLast(st.rows, RowTx, id, row, st.rows[row]);
    }
    if a.Stored? && !a.call.Throws? && body.Fields? {
      match pc {
        case Creating(channel) => OfAppend(st.rows, RowTx, id, PendingRow(id, body.event, channel, k));
        case ParkingRow => OfAppend(st.rows, RowTx, id, DeadRow(id, body.event, k));
        case MarkingSent => UpdateIsOwn(st.rows, id, row, MarkedSent(st.rows[row]), id);
        case MarkingFailed(err) => UpdateIsOwn(st.rows, id, row, MarkedFailed(st.rows[row], err), id);
        case ParkingPublish =>
          OneCopy(id, body);
          OfAppend(st.dlq, MsgId, id, Republished(id, body));
      }
    }
  }

  /** And nothing is written to any other event's part. */
  lemma WriteIsNoOthers(st: Store, id: nat, body: Body, k: nat, pc: Pc, row: nat, a: Answer, e: nat)
    requires Fits(pc, a) && e != id
    requires HasRow(pc) ==> LastOf(st.rows, RowTx, id, row)
    ensures OwnStore(Write(pc, id, body, k, row, st, a), e) == OwnStore(st, e)
  {
    if a.Stored? && !a.call.Throws? && body.Fields? {
      match pc {
        case Creating(channel) => OfAppend(st.rows, RowTx, e, PendingRow(id, body.event, channel, k));
        case ParkingRow => OfAppend(st.rows, RowTx, e, DeadRow(id, body.event, k));
        case MarkingSent => UpdateIsOwn(st.rows, id, row, MarkedSent(st.rows[row]), e);
        case MarkingFailed(err) => UpdateIsOwn(st.rows, id, row, MarkedFailed(st.rows[row], err), e);
        case ParkingPublish =>
          OneCopy(id, body);
          OfAppend(st.dlq, MsgId, e, Republished(id, body));
      }
    }
  }

  lemma UpdateIsOwn(rows: seq<Row>, id: nat, row: nat, r: Row, e: nat)
    requires LastOf(rows, RowTx, id, row) && r.tx == id
    ensures var own := Of(rows, RowTx, e);
            if e != id then Of(rows[row := r], RowTx, e) == own
            else own != [] && own[|own| - 1] == rows[row] && Of(rows[row := r], RowTx, e) == own[|own| - 1 := r]
  {
    if e == id {
      OfUpdateLast(rows, RowTx, id, row, r);
    } else {
      OfUpdateOther(rows, RowTx, e, row, r);
    }
  }

  /** Adding what event `id` did to a ledger adds it to that event's part, and to no other. */
  lemma AddedIsOwn(g: Ledger, st: Store, id: nat, calls: seq<DeliverCall>, lookups: seq<Lookup>,
                   threw: bool, lost: bool, e: nat)
    requires |calls| <= 1 && forall i :: 0 <= i < |calls| ==> calls[i].tx == id
    requires |lookups| <= 1 && forall i :: 0 <= i < |lookups| ==> lookups[i].tx == id
    ensures var own := Own(g, e);
            Own(Added(g, st, id, calls, lookups, threw, lost), e)
            == if e == id then Added(own, OwnStore(st, e), id, calls, lookups, threw, lost)
               else own.(store := OwnStore(st, e))
  {
    OnlyAdd(g.throws, id, e);
    OnlyAdd(g.lost, id, e);
    AddIsOwn(g.calls, CallTx, id, calls, e);
    AddIsOwn(g.lookups, LookupTx, id, lookups, e);
  }

  lemma EnteredIsOthers(g: Ledger, id: nat, body: Body, k: nat, pc: Pc, row: nat, a: Answer, e: nat)
    requires Fits(pc, a) && OwnsRow(g.store.rows, id, pc, row) && e != id
    ensures Own(Entered(g, id, body, k, pc, row, a), e) == Own(g, e)
  {
    WriteIsNoOthers(g.store, id, body, k, pc, row, a, e);
    AddedIsOwn(g, Write(pc, id, body, k, row, g.store, a), id, CallMade(id, body, a), LookupMade(id, body, a),
               Threw(a), WasLost(a), e);
  }

  lemma EnteredIsOwn(g: Ledger, id: nat, body: Body, k: nat, pc: Pc, row: nat, a: Answer)
    requires Fits(pc, a) && OwnsRow(g.store.rows, id, pc, row)
    ensures HasRow(pc) ==> Own(g, id).store.rows != []
    ensures Own(Entered(g, id, body, k, pc, row, a), id)
         == Entered(Own(g, id), id, body, k, pc, NewestRow(Own(g, id).store), a)
  {
    WriteIsOwn(g.store, id, body, k, pc, row, a);
    AddedIsOwn(g, Write(pc, id, body, k, row, g.store, a), id, CallMade(id, body, a), LookupMade(id, body, a),
               Threw(a), WasLost(a), id);
    SameEntry(Own(g, id), OwnStore(Write(pc, id, body, k, row, g.store, a), id), id, body, k, pc, a);
  }

  lemma SameEntry(own: Ledger, st: Store, id: nat, body: Body, k: nat, pc: Pc, a: Answer)
    requires Fits(pc, a) && (HasRow(pc) ==> own.store.rows != [])
    requires st == Write(pc, id, body, k, NewestRow(own.store), own.store, a)
    ensures Added(own, st, id, CallMade(id, body, a), LookupMade(id, body, a), Threw(a), WasLost(a))
         == Entered(own, id, body, k, pc, NewestRow(own.store), a)
  {
  }

  lemma AddIsOwn<T>(s: seq<T>, key: T -> nat, id: nat, x: seq<T>, e: nat)
    requires |x| <= 1 && forall i :: 0 <= i < |x| ==> key(x[i]) == id
    ensures Of(s + x, key, e) == if e == id then Of(s, key, e) + x else Of(s, key, e)
  {
    if x != [] {
      assert x == [x[0]];
      OfAppend(s, key, e, x[0]);
    } else {
      assert s + x == s;
    }
  }

  function WaitingToken(m: Message): Token { Token(m.id, m.body, Waiting(RetryCount(m))) }
  function CoolingToken(m: Message): Token { Token(m.id, m.body, Cooling(RetryCount(m))) }
  function HandlerToken(h: Handler): Token { Token(h.msg.id, h.msg.body, Handling(RetryCount(h.msg), h.pc)) }
  function SettledToken(s: Settlement): Token { Token(s.msg.id, s.msg.body, Settled(RetryCount(s.msg), s.outcome)) }

  function Tokens(w: World): multiset<Token>
  {
    Everything(w, WaitingToken, CoolingToken, HandlerToken, SettledToken)
  }

  function LifeOf(w: World, t: Token): Life
  {
    Life(t, Own(w.ledger, t.id))
  }

  function MoveOf(s: Step): Move
    requires !s.Publish?
  {
    match s
    case Deliver(_) => Take
    case Pass(_, a) => Await(a)
    case AckOf(_) => Ack
    case NackOf(_) => Nack
    case CrashOf(_) => Crash
    case ExpireOf(_) => Expire
  }

  function SourceToken(w: World, s: Step): Token
    requires Enabled(w, s) && !s.Publish?
  {
    Source(w, s, WaitingToken, CoolingToken, HandlerToken)
  }

  function TargetToken(w: World, s: Step): Token
    requires Enabled(w, s) && !s.Publish?
  {
    Target(w, s, WaitingToken, CoolingToken, HandlerToken, SettledToken)
  }

  ghost predicate RowsOwned(hs: seq<Handler>, rows: seq<Row>)
  {
    forall i :: 0 <= i < |hs| ==> OwnsRow(rows, hs[i].msg.id, hs[i].pc, hs[i].row)
  }

  lemma LedgerAfter(w: World, s: Step)
    requires Enabled(w, s)
    ensures Next(w, s).ledger == match s
              case Pass(i, a) =>
                var h := w.inflight[i];
                Entered(Ticked(w.ledger, h.msg.id), h.msg.id, h.msg.body, RetryCount(h.msg), h.pc, h.row, a)
              case CrashOf(i) => Crashed(Ticked(w.ledger, w.inflight[i].msg.id), w.inflight[i].msg.id)
              case _ => Ticked(w.ledger, Subject(w, s))
  {
    var v := w.(ledger := Ticked(w.ledger, Subject(w, s)));
    match s
    case Publish(id, body) =>
      var m := Message(id, body, []);
      PublishedGoesToMain(v.(published := v.published + [m]), m);
    case NackOf(i) => RejectedGoesToRetry(v.(inflight := Drop(v.inflight, i)), v.inflight[i].msg);
    case ExpireOf(i) => ExpiredGoesToMain(v.(retry := Drop(v.retry, i)), v.retry[i]);
    case _ =>
  }

  /** A step is invisible to every other event. */
  lemma OthersUntouched(w: World, s: Step, e: nat)
    requires Enabled(w, s) && RowsOwned(w.inflight, w.ledger.store.rows) && e != Subject(w, s)
    ensures Own(Next(w, s).ledger, e) == Own(w.ledger, e)
  {
    LedgerAfter(w, s);
    OwnTicked(w.ledger, Subject(w, s), e);
    if s.Pass? {
      var h := w.inflight[s.i];
      EnteredIsOthers(Ticked(w.ledger, h.msg.id), h.msg.id, h.msg.body, RetryCount(h.msg), h.pc, h.row, s.answer, e);
    } else if s.CrashOf? {
      OwnCrashed(Ticked(w.ledger, Subject(w, s)), Subject(w, s), e);
    }
  }

  /** To its own event, a step of the system is a step of that event's life, wherever the rows of other
      events lie in between. */
  lemma StepIsOneMove(w: World, s: Step)
    requires Enabled(w, s) && !s.Publish? && RowsOwned(w.inflight, w.ledger.store.rows)
    ensures var t, t' := SourceToken(w, s), TargetToken(w, s);
            && t.id == t'.id == Subject(w, s)
            && Can(LifeOf(w, t), MoveOf(s))
            && After(LifeOf(w, t), MoveOf(s)) == LifeOf(Next(w, s), t')
  {
    var id := Subject(w, s);
    LedgerAfter(w, s);
    OwnTicked(w.ledger, id, id);
    match s
    case Deliver(_) =>
    case AckOf(_) =>
    case Pass(i, a) =>
      var h := w.inflight[i];
      EnteredIsOwn(Ticked(w.ledger, id), id, h.msg.body, RetryCount(h.msg), h.pc, h.row, a);
    case CrashOf(i) => OwnCrashed(Ticked(w.ledger, id), id, id);
    case NackOf(i) => RejectedGoesToRetry(w, w.inflight[i].msg);
    case ExpireOf(i) => ExpiredGoesToMain(w, w.retry[i]);
  }
}
