/** Every run of the retry protocol keeps the invariant of every event's life. */
module RetryRuns {
  import opened Messaging
  import opened HandlerSteps
  import opened Lifecycle
  import opened Logs
  import opened RetrySystem
  import opened Isolation

  predicate PublishedIn(pub: seq<Message>, e: nat)
  {
    exists m <- pub :: m.id == e
  }

  ghost predicate HasToken(ts: multiset<Token>, e: nat)
  {
    exists t :: t in ts && t.id == e
  }

  /** No event is in two places, or twice in one. */
  ghost predicate Unique(ts: multiset<Token>)
  {
    && (forall t :: t in ts ==> ts[t] == 1)
    && (forall t, u :: t in ts && u in ts && t.id == u.id ==> t == u)
  }

  ghost predicate Alive(ts: multiset<Token>, g: Ledger)
  {
    forall t :: t in ts ==> LifeInv(Life(t, Own(g, t.id)))
  }

  /** The events that are somewhere are the published ones, and nothing was done for any other. */
  ghost predicate Accounted(ts: multiset<Token>, pub: seq<Message>, g: Ledger)
  {
    && (forall t :: t in ts ==> PublishedIn(pub, t.id))
    && (forall m :: m in pub ==> HasToken(ts, m.id))
    && (forall e: nat :: !PublishedIn(pub, e) ==> Own(g, e) == EMPTY)
  }

  ghost predicate Inv(w: World)
  {
    && Unique(Tokens(w)) && Alive(Tokens(w), w.ledger)
    && Accounted(Tokens(w), w.published, w.ledger)
    && RowsOwned(w.inflight, w.ledger.store.rows)
    && |w.inflight| <= PREFETCH
  }

  lemma StartInv()
    ensures Inv(START)
  {
    forall e: nat ensures Own(EMPTY, e) == EMPTY {
      assert Only(multiset{}, e) == multiset{};
    }
  }

  lemma DistinctHandlers(w: World, i: nat, j: nat)
    requires Unique(Tokens(w)) && i < |w.inflight| && j < |w.inflight| && i != j
    ensures w.inflight[i].msg.id != w.inflight[j].msg.id
  {
    var t, u := HandlerToken(w.inflight[i]), HandlerToken(w.inflight[j]);
    var rest := Drop(w.inflight, i);
    assert rest[if j < i then j else j - 1] == w.inflight[j];
    BagIn(rest, HandlerToken, u);
    BagAt(w.inflight, HandlerToken, i);
    assert t in Tokens(w) && u in Tokens(w);
    assert t == u ==> Tokens(w)[t] >= 2;
  }

  /** Writing for one handler leaves every other handler's row the newest of its event. */
  lemma WriteKeepsRowsOwned(h: Handler, o: Handler, st: Store, a: Answer)
    requires Fits(h.pc, a) && OwnsRow(st.rows, h.msg.id, h.pc, h.row)
    requires OwnsRow(st.rows, o.msg.id, o.pc, o.row) && o.msg.id != h.msg.id
    ensures OwnsRow(Write(h.pc, h.msg.id, h.msg.body, RetryCount(h.msg), h.row, st, a).rows, o.msg.id, o.pc, o.row)
  {
  }

  function Written(w: World, i: nat, a: Answer): Store
    requires Enabled(w, Pass(i, a))
  {
    var h := w.inflight[i];
    Write(h.pc, h.msg.id, h.msg.body, RetryCount(h.msg), h.row, w.ledger.store, a)
  }

  lemma WriteOwnsRow(w: World, h: Handler, a: Answer)
    requires Fits(h.pc, a) && OwnsRow(w.ledger.store.rows, h.msg.id, h.pc, h.row)
    requires Routed(LifeOf(w, HandlerToken(h)))
    ensures var h' := HandlerAfter(w, h, a);
            var st' := Write(h.pc, h.msg.id, h.msg.body, RetryCount(h.msg), h.row, w.ledger.store, a);
            OwnsRow(st'.rows, h'.msg.id, h'.pc, h'.row)
  {
  }

  lemma PassKeepsRowsOwned(w: World, i: nat, a: Answer)
    requires Enabled(w, Pass(i, a)) && Inv(w)
    ensures RowsOwned(w.inflight[i := HandlerAfter(w, w.inflight[i], a)], Written(w, i, a).rows)
  {
    var h := w.inflight[i];
    var st' := Written(w, i, a);
    var hs' := w.inflight[i := HandlerAfter(w, h, a)];
    assert HandlerToken(h) in Tokens(w) by {
      BagAt(w.inflight, HandlerToken, i);
    }
    forall j: nat | j < |hs'| ensures OwnsRow(st'.rows, hs'[j].msg.id, hs'[j].pc, hs'[j].row) {
      if j == i {
        WriteOwnsRow(w, h, a);
      } else {
        DistinctHandlers(w, i, j);
        WriteKeepsRowsOwned(h, w.inflight[j], w.ledger.store, a);
      }
    }
  }

  lemma RowsAfter(w: World, s: Step)
    requires Enabled(w, s)
    ensures Next(w, s).ledger.store.rows ==
            if s.Pass? then Written(w, s.i, s.answer).rows else w.ledger.store.rows
  {
    LedgerAfter(w, s);
  }

  /** Ending a delivery or starting one gives no handler a row it does not own. */
  lemma FewerRowsOwned(hs: seq<Handler>, rows: seq<Row>, i: nat, m: Message)
    requires RowsOwned(hs, rows)
    ensures i < |hs| ==> RowsOwned(Drop(hs, i), rows)
    ensures RowsOwned(hs + [Handler(m, Received, 0)], rows)
  {
  }

  lemma KeepsRowsOwned(w: World, s: Step)
    requires Enabled(w, s) && Inv(w)
    ensures RowsOwned(Next(w, s).inflight, Next(w, s).ledger.store.rows)
  {
    RowsAfter(w, s);
    InflightAfter(w, s);
    var hs, rows := w.inflight, w.ledger.store.rows;
    match s
    case Pass(i, a) => PassKeepsRowsOwned(w, i, a);
    case Deliver(i) => FewerRowsOwned(hs, rows, i, w.main[i]);
    case AckOf(i) => FewerRowsOwned(hs, rows, i, hs[i].msg);
    case NackOf(i) => FewerRowsOwned(hs, rows, i, hs[i].msg);
    case CrashOf(i) => FewerRowsOwned(hs, rows, i, hs[i].msg);
    case _ =>
  }

  lemma InflightAfter(w: World, s: Step)
    requires Enabled(w, s)
    ensures Next(w, s).inflight == match s
              case Publish(_, _) => w.inflight
              case ExpireOf(_) => w.inflight
              case Deliver(i) => w.inflight + [Handler(w.main[i], Received, 0)]
              case Pass(i, a) => w.inflight[i := HandlerAfter(w, w.inflight[i], a)]
              case AckOf(i) => Drop(w.inflight, i)
              case NackOf(i) => Drop(w.inflight, i)
              case CrashOf(i) => Drop(w.inflight, i)
    ensures Next(w, s).published == if s.Publish? then w.published + [Message(s.id, s.body, [])] else w.published
  {
    var v := w.(ledger := Ticked(w.ledger, Subject(w, s)));
    match s
    case Publish(id, body) =>
      PublishedGoesToMain(v.(published := v.published + [Message(id, body, [])]), Message(id, body, []));
    case NackOf(i) => RejectedGoesToRetry(v.(inflight := Drop(w.inflight, i)), w.inflight[i].msg);
    case ExpireOf(i) => ExpiredGoesToMain(v.(retry := Drop(w.retry, i)), w.retry[i]);
    case _ =>
  }

  /** What moved is still unique, and what did not move belongs to other events. */
  lemma MovedUnique(ts: multiset<Token>, t: Token, t': Token)
    requires Unique(ts) && t in ts && t.id == t'.id
    ensures Unique(ts - multiset{t} + multiset{t'})
    ensures forall u :: u in ts - multiset{t} + multiset{t'} ==> u == t' || (u in ts && u.id != t.id)
  {
  }

  lemma MovedAlive(ts: multiset<Token>, t: Token, t': Token, g: Ledger, g': Ledger)
    requires Unique(ts) && t in ts && t.id == t'.id && Alive(ts, g)
    requires LifeInv(Life(t', Own(g', t.id)))
    requires forall e: nat :: e != t.id ==> Own(g', e) == Own(g, e)
    ensures Alive(ts - multiset{t} + multiset{t'}, g')
  {
    MovedUnique(ts, t, t');
  }

  lemma MovedAccounted(ts: multiset<Token>, t: Token, t': Token, pub: seq<Message>, g: Ledger, g': Ledger)
    requires Accounted(ts, pub, g) && t in ts && t.id == t'.id
    requires forall e: nat :: e != t.id ==> Own(g', e) == Own(g, e)
    ensures Accounted(ts - multiset{t} + multiset{t'}, pub, g')
  {
    var ts' := ts - multiset{t} + multiset{t'};
    forall m | m in pub ensures HasToken(ts', m.id) {
      var u :| u in ts && u.id == m.id;
      assert (if u == t then t' else u) in ts';
    }
  }

  lemma InvMoved(w: World, w': World, t: Token, t': Token)
    requires Inv(w) && t in Tokens(w) && t.id == t'.id
    requires Tokens(w') == Tokens(w) - multiset{t} + multiset{t'} && w'.published == w.published
    requires LifeInv(LifeOf(w', t'))
    requires forall e: nat :: e != t.id ==> Own(w'.ledger, e) == Own(w.ledger, e)
    requires RowsOwned(w'.inflight, w'.ledger.store.rows) && |w'.inflight| <= PREFETCH
    ensures Inv(w')
  {
    MovedUnique(Tokens(w), t, t');
    MovedAlive(Tokens(w), t, t', w.ledger, w'.ledger);
    MovedAccounted(Tokens(w), t, t', w.published, w.ledger, w'.ledger);
  }

  /** The event a step is about goes on with its invariant. */
  lemma SubjectAlive(w: World, s: Step)
    requires Enabled(w, s) && !s.Publish? && Inv(w) && SourceToken(w, s) in Tokens(w)
    ensures LifeInv(LifeOf(Next(w, s), TargetToken(w, s)))
  {
    StepIsOneMove(w, s);
    EveryMoveKeepsLifeInv(LifeOf(w, SourceToken(w, s)), MoveOf(s));
  }

  lemma OthersAsBefore(w: World, s: Step)
    requires Enabled(w, s) && RowsOwned(w.inflight, w.ledger.store.rows)
    ensures forall e: nat :: e != Subject(w, s) ==> Own(Next(w, s).ledger, e) == Own(w.ledger, e)
  {
    forall e: nat | e != Subject(w, s) ensures Own(Next(w, s).ledger, e) == Own(w.ledger, e) {
      OthersUntouched(w, s, e);
    }
  }

  lemma KeepsPrefetch(w: World, s: Step)
    requires Enabled(w, s) && !s.Publish? && |w.inflight| <= PREFETCH
    ensures |Next(w, s).inflight| <= PREFETCH && Next(w, s).published == w.published
  {
    InflightAfter(w, s);
  }

  lemma MoveKeepsInv(w: World, s: Step)
    requires Enabled(w, s) && !s.Publish? && Inv(w)
    ensures Inv(Next(w, s))
  {
    StepMovesOne(w, s, WaitingToken, CoolingToken, HandlerToken, SettledToken);
    SubjectAlive(w, s);
    OthersAsBefore(w, s);
    KeepsRowsOwned(w, s);
    KeepsPrefetch(w, s);
    SubjectOf(w, s);
    InvMoved(w, Next(w, s), SourceToken(w, s), TargetToken(w, s));
  }

  lemma SubjectOf(w: World, s: Step)
    requires Enabled(w, s) && !s.Publish?
    ensures SourceToken(w, s).id == TargetToken(w, s).id == Subject(w, s)
  {
  }

  lemma AddedAccounted(ts: multiset<Token>, m: Message, pub: seq<Message>, g: Ledger)
    requires Accounted(ts, pub, g)
    ensures Accounted(ts + multiset{WaitingToken(m)}, pub + [m], Ticked(g, m.id))
  {
    var ts', pub' := ts + multiset{WaitingToken(m)}, pub + [m];
    assert m in pub' && forall n :: n in pub ==> n in pub';
    forall t | t in ts' ensures PublishedIn(pub', t.id) {
      if t in ts {
        var n :| n in pub && n.id == t.id;
        assert n in pub';
      }
    }
    forall n | n in pub' ensures HasToken(ts', n.id) {
      if n in pub {
        var u :| u in ts && u.id == n.id;
        assert u in ts';
      } else {
        assert WaitingToken(m) in ts';
      }
    }
    forall e: nat | !PublishedIn(pub', e) ensures Own(Ticked(g, m.id), e) == EMPTY {
      OwnTicked(g, m.id, e);
    }
  }

  lemma BornAlive(m: Message, g: Ledger)
    requires m.deaths == [] && Own(g, m.id) == EMPTY
    ensures LifeInv(Life(WaitingToken(m), Own(Ticked(g, m.id), m.id)))
  {
    OwnTicked(g, m.id, m.id);
    BornInv(m.id, m.body);
  }

  lemma AddedUnique(ts: multiset<Token>, m: Message, pub: seq<Message>, g: Ledger)
    requires Unique(ts) && Accounted(ts, pub, g) && !PublishedIn(pub, m.id)
    ensures Unique(ts + multiset{WaitingToken(m)})
    ensures forall t :: t in ts ==> t.id != m.id
  {
  }

  lemma AddedAlive(ts: multiset<Token>, m: Message, g: Ledger)
    requires Alive(ts, g) && Own(g, m.id) == EMPTY && m.deaths == []
    requires forall t :: t in ts ==> t.id != m.id
    ensures Alive(ts + multiset{WaitingToken(m)}, Ticked(g, m.id))
  {
    var g', ts' := Ticked(g, m.id), ts + multiset{WaitingToken(m)};
    forall t | t in ts' ensures LifeInv(Life(t, Own(g', t.id))) {
      if t in ts {
        OwnTicked(g, m.id, t.id);
      } else {
        assert t == WaitingToken(m);
        BornAlive(m, g);
      }
    }
  }

  lemma PublishKeepsInv(w: World, s: Step)
    requires Enabled(w, s) && s.Publish? && Inv(w)
    ensures Inv(Next(w, s))
  {
    var m := Message(s.id, s.body, []);
    PublishAddsOne(w, s, WaitingToken, CoolingToken, HandlerToken, SettledToken);
    AddedAccounted(Tokens(w), m, w.published, w.ledger);
    AddedUnique(Tokens(w), m, w.published, w.ledger);
    AddedAlive(Tokens(w), m, w.ledger);
    KeepsRowsOwned(w, s);
  }

  /** The runs of the protocol: sequences of steps, each enabled where it is taken. */
  predicate Feasible(ss: seq<Step>)
    decreases |ss|, 0
  {
    ss == [] || (Feasible(ss[..|ss| - 1]) && Enabled(State(ss[..|ss| - 1]), ss[|ss| - 1]))
  }

  function State(ss: seq<Step>): World
    requires Feasible(ss)
    decreases |ss|, 1
  {
    if ss == [] then START else Next(State(ss[..|ss| - 1]), ss[|ss| - 1])
  }

  lemma {:induction false} RunInv(ss: seq<Step>)
    requires Feasible(ss)
    ensures Inv(State(ss))
    decreases |ss|
  {
    if ss == [] {
      StartInv();
    } else {
      var before, s := ss[..|ss| - 1], ss[|ss| - 1];
      RunInv(before);
      if s.Publish? {
        PublishKeepsInv(State(before), s);
      } else {
        MoveKeepsInv(State(before), s);
      }
    }
  }
}
