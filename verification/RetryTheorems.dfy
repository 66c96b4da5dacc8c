/** What holds in every run of the retry protocol: any number of events, any interleaving, any faults. */
module RetryTheorems {
  import opened Contracts
  import opened Messaging
  import opened HandlerSteps
  import opened Lifecycle
  import opened Logs
  import opened RetrySystem
  import opened Isolation
  import opened RetryRuns

  /** A message without its headers: what was published. */
  function Bare(m: Message): Message { Republished(m.id, m.body) }
  function BareOfHandler(h: Handler): Message { Bare(h.msg) }
  function BareOfSettled(s: Settlement): Message { Bare(s.msg) }

  /** The messages found on the main queue, on the retry queue, in handlers and acknowledged. */
  function Places(w: World): multiset<Message>
  {
    Everything(w, Bare, Bare, BareOfHandler, BareOfSettled)
  }

  /** Publications have distinct ids and no headers. */
  ghost predicate Distinct(pub: seq<Message>)
  {
    && (forall i, j :: 0 <= i < j < |pub| ==> pub[i].id != pub[j].id)
    && (forall i :: 0 <= i < |pub| ==> pub[i] == Bare(pub[i]))
  }

  lemma {:induction false} PublicationsDistinct(ss: seq<Step>)
    requires Feasible(ss)
    ensures Distinct(State(ss).published)
    decreases |ss|
  {
    if ss != [] {
      PublicationsDistinct(ss[..|ss| - 1]);
      InflightAfter(State(ss[..|ss| - 1]), ss[|ss| - 1]);
    }
  }

  lemma SameMessage(w: World, s: Step)
    requires Enabled(w, s) && !s.Publish?
    ensures Source(w, s, Bare, Bare, BareOfHandler) == Target(w, s, Bare, Bare, BareOfHandler, BareOfSettled)
  {
  }

  lemma PutBack(all: multiset<Message>, all': multiset<Message>, x: Message, pub: seq<Message>, pub': seq<Message>)
    requires all == Bag(pub, Bare)
    requires (x in all && all' == all - multiset{x} + multiset{x} && pub' == pub)
          || (all' == all + multiset{Bare(x)} && pub' == pub + [x])
    ensures all' == Bag(pub', Bare)
  {
    BagAppend(pub, Bare, x);
  }

  lemma StepConserves(w: World, s: Step)
    requires Enabled(w, s) && Places(w) == Bag(w.published, Bare)
    ensures Places(Next(w, s)) == Bag(Next(w, s).published, Bare)
  {
    InflightAfter(w, s);
    var x: Message;
    if s.Publish? {
      x := Message(s.id, s.body, []);
      PublishAddsOne(w, s, Bare, Bare, BareOfHandler, BareOfSettled);
    } else {
      x := Source(w, s, Bare, Bare, BareOfHandler);
      StepMovesOne(w, s, Bare, Bare, BareOfHandler, BareOfSettled);
      SameMessage(w, s);
    }
    PutBack(Places(w), Places(Next(w, s)), x, w.published, Next(w, s).published);
  }

  /** Conservation: what is in the places is what was published. */
  lemma {:induction false} PlacesConserved(ss: seq<Step>)
    requires Feasible(ss)
    ensures Places(State(ss)) == Bag(State(ss).published, Bare)
    decreases |ss|
  {
    if ss != [] {
      PlacesConserved(ss[..|ss| - 1]);
      StepConserves(State(ss[..|ss| - 1]), ss[|ss| - 1]);
    }
  }

  lemma {:induction false} OneOfEach(pub: seq<Message>, m: Message)
    requires Distinct(pub)
    ensures Bag(pub, Bare)[m] == if m in pub then 1 else 0
  {
    if pub != [] {
      OneOfEach(pub[1..], m);
      assert m in pub <==> m == pub[0] || m in pub[1..];
    }
  }

  /** Nothing is lost and nothing is duplicated, whatever fails or crashes: a published event is always in
      exactly one of the main queue, the retry queue, a handler and the acknowledged deliveries, with the
      payload it was published with; and nothing else ever is. */
  lemma {:induction false} ExactlyOnePlace(ss: seq<Step>, m: Message)
    requires Feasible(ss)
    ensures var w := State(ss);
            Bag(w.main, Bare)[m] + Bag(w.retry, Bare)[m]
            + Bag(w.inflight, BareOfHandler)[m] + Bag(w.settled, BareOfSettled)[m]
            == if m in w.published then 1 else 0
  {
    PlacesConserved(ss);
    PublicationsDistinct(ss);
    OneOfEach(State(ss).published, m);
  }

  /** Never more unacknowledged deliveries than the prefetch, each of another event: two handlers never
      work on the same event. */
  lemma {:induction false} HandlersAreFewAndDistinct(ss: seq<Step>)
    requires Feasible(ss)
    ensures |State(ss).inflight| <= 10
    ensures forall i, j :: 0 <= i < j < |State(ss).inflight| ==>
      State(ss).inflight[i].msg.id != State(ss).inflight[j].msg.id
  {
    RunInv(ss);
    forall i: nat, j: nat | i < j < |State(ss).inflight|
      ensures State(ss).inflight[i].msg.id != State(ss).inflight[j].msg.id
    {
      DistinctHandlers(State(ss), i, j);
    }
  }

  /** The life of a published event, as the run left it. */
  lemma {:induction false} LifeAt(ss: seq<Step>, e: nat) returns (t: Token)
    requires Feasible(ss) && PublishedIn(State(ss).published, e)
    ensures t.id == e && t in Tokens(State(ss)) && LifeInv(LifeOf(State(ss), t))
  {
    RunInv(ss);
    t :| t in Tokens(State(ss)) && t.id == e;
  }

  lemma {:induction false} SettledLife(ss: seq<Step>, i: nat)
    requires Feasible(ss) && i < |State(ss).settled|
    ensures LifeInv(LifeOf(State(ss), SettledToken(State(ss).settled[i])))
  {
    RunInv(ss);
    BagIn(State(ss).settled, SettledToken, SettledToken(State(ss).settled[i]));
    assert SettledToken(State(ss).settled[i]) in Tokens(State(ss));
  }

  function RowsFor(w: World, e: nat): seq<Row>
  {
    Of(w.ledger.store.rows, RowTx, e)
  }

  function CopiesFor(w: World, e: nat): seq<Message>
  {
    Of(w.ledger.store.dlq, MsgId, e)
  }

  function CallsFor(w: World, e: nat): seq<DeliverCall>
  {
    Of(w.ledger.calls, CallTx, e)
  }

  lemma SettledOnce(l: Life)
    requires LifeInv(l) && Repeats(l) == 0 && l.token.place.Settled?
    ensures var p, rows, copies := l.token.place, l.ledger.store.rows, l.ledger.store.dlq;
            && (p.outcome.Invalid? <==> !ValidBody(l.token.body))
            && CountOf(rows, Sent) == (if p.outcome.Notified? then 1 else 0)
            && |copies| == (if p.outcome.Parked? then 1 else 0)
            && (p.outcome.Parked? <==> CountOf(rows, Dead) > 0)
            && (p.outcome.Parked? ==> copies == [Republished(l.token.id, l.token.body)] && p.k >= MAX_RETRIES)
            && (p.outcome.Invalid? ==> rows == [])
  {
    if l.token.place.outcome.Parked? {
      assert l.ledger.store.dlq[0] == Republished(l.token.id, l.token.body);
    }
  }

  /** Settlement is exactly once for an event that met no crash and no lost reply, however often its
      database calls and its publication threw and whatever happened to other events: a notified event
      has one SENT row, a skipped or invalid one none, and a parked one has its one copy on the terminal
      queue with a DEAD row behind it. */
  lemma {:induction false} SettledExactlyOnce(ss: seq<Step>, i: nat)
    requires Feasible(ss) && i < |State(ss).settled|
    requires var e := State(ss).settled[i].msg.id;
             State(ss).ledger.crashes[e] == 0 && State(ss).ledger.lost[e] == 0
    ensures var w := State(ss);
            var s := w.settled[i];
            var rows, copies := RowsFor(w, s.msg.id), CopiesFor(w, s.msg.id);
            && (s.outcome.Invalid? <==> !ValidBody(s.msg.body))
            && CountOf(rows, Sent) == (if s.outcome.Notified? then 1 else 0)
            && |copies| == (if s.outcome.Parked? then 1 else 0)
            && (s.outcome.Parked? <==> CountOf(rows, Dead) > 0)
            && (s.outcome.Parked? ==> copies == [Message(s.msg.id, s.msg.body, [])] && RetryCount(s.msg) >= 3)
            && (s.outcome.Invalid? ==> rows == [])
  {
    SettledLife(ss, i);
    SettledOnce(LifeOf(State(ss), SettledToken(State(ss).settled[i])));
  }

  lemma CopiesOfLife(l: Life)
    requires LifeInv(l) && Repeats(l) == 0
    ensures |l.ledger.store.dlq| <= 1 && (l.ledger.store.dlq != [] ==> Ends(l.token.place, Parked))
  {
    assert ParkedBounded(l);
  }

  /** A copy on the terminal queue is there only for a parked event, unless a crash or a lost reply
      repeated the parking. */
  lemma {:induction false} CopyMeansParked(ss: seq<Step>, e: nat)
    requires Feasible(ss) && State(ss).ledger.crashes[e] == 0 && State(ss).ledger.lost[e] == 0
    ensures var w := State(ss);
            |CopiesFor(w, e)| <= 1
            && (CopiesFor(w, e) != [] ==> exists t :: t in Tokens(w) && t.id == e && Ends(t.place, Parked))
  {
    var w := State(ss);
    RunInv(ss);
    if PublishedIn(w.published, e) {
      var t := LifeAt(ss, e);
      CopiesOfLife(LifeOf(w, t));
    } else {
      assert Own(w.ledger, e) == EMPTY;
    }
  }

  lemma FewCalls(l: Life)
    requires LifeInv(l)
    ensures |l.ledger.calls| <= MAX_RETRIES + l.ledger.crashes[l.token.id]
  {
    assert DeliveriesBounded(l);
  }

  /** Deliveries of one event never exceed the retry limit plus its crash requeues, in runs with every
      kind of fault, even when its writes or its parking fail and its retry count passes the limit. */
  lemma {:induction false} DeliveryBound(ss: seq<Step>, e: nat)
    requires Feasible(ss)
    ensures |CallsFor(State(ss), e)| <= MAX_RETRIES + State(ss).ledger.crashes[e]
  {
    RunInv(ss);
    if PublishedIn(State(ss).published, e) {
      var t := LifeAt(ss, e);
      FewCalls(LifeOf(State(ss), t));
    } else {
      assert Own(State(ss).ledger, e) == EMPTY;
    }
  }

  /** Duplicates are bounded: every crash requeue or lost reply allows at most one more SENT row and one more
      copy on the terminal queue; each copy has a DEAD row. */
  lemma {:induction false} DuplicatesBounded(ss: seq<Step>, e: nat)
    requires Feasible(ss)
    ensures var w := State(ss);
            var allowed := 1 + w.ledger.crashes[e] + w.ledger.lost[e];
            && CountOf(RowsFor(w, e), Sent) <= allowed
            && |CopiesFor(w, e)| <= allowed
            && |CopiesFor(w, e)| <= CountOf(RowsFor(w, e), Dead)
  {
    RunInv(ss);
    if PublishedIn(State(ss).published, e) {
      var t := LifeAt(ss, e);
      var l := LifeOf(State(ss), t);
      assert SentBounded(l) && ParkedBounded(l);
    } else {
      assert Own(State(ss).ledger, e) == EMPTY;
    }
  }

  /** At least once, with every kind of fault: an event settled as notified has a SENT row, and one settled as
      parked has a copy on the terminal queue and a DEAD row. */
  lemma {:induction false} AtLeastOnce(ss: seq<Step>, i: nat)
    requires Feasible(ss) && i < |State(ss).settled|
    ensures var w, s := State(ss), State(ss).settled[i];
            && (s.outcome.Notified? ==> CountOf(RowsFor(w, s.msg.id), Sent) >= 1)
            && (s.outcome.Parked? ==> |CopiesFor(w, s.msg.id)| >= 1 && CountOf(RowsFor(w, s.msg.id), Dead) >= 1)
  {
    SettledLife(ss, i);
    OnceInLife(LifeOf(State(ss), SettledToken(State(ss).settled[i])));
  }

  lemma OnceInLife(l: Life)
    requires LifeInv(l)
    ensures Ends(l.token.place, Notified) ==> CountOf(l.ledger.store.rows, Sent) >= 1
    ensures Ends(l.token.place, Parked) ==> |l.ledger.store.dlq| >= 1 && CountOf(l.ledger.store.rows, Dead) >= 1
  {
    assert SentBounded(l) && ParkedBounded(l);
  }

  /** With every kind of fault: the newest row of a notified event is its SENT row, and of a parked one its DEAD
      row, with one attempt more than, and exactly, the retry count of the settled message. */
  lemma {:induction false} NewestRowTells(ss: seq<Step>, i: nat)
    requires Feasible(ss) && i < |State(ss).settled|
    ensures var s := State(ss).settled[i];
            var rows, k := RowsFor(State(ss), s.msg.id), RetryCount(s.msg);
            && (s.outcome.Notified? ==>
                  rows != [] && rows[|rows| - 1].status == Sent && rows[|rows| - 1].attempts == k + 1 && k < 3)
            && (s.outcome.Parked? ==>
                  rows != [] && rows[|rows| - 1].status == Dead && rows[|rows| - 1].attempts == k && k >= 3)
  {
    SettledLife(ss, i);
    NewestOfLife(LifeOf(State(ss), SettledToken(State(ss).settled[i])));
  }

  lemma NewestOfLife(l: Life)
    requires LifeInv(l)
    ensures var p, rows := l.token.place, l.ledger.store.rows;
            && (Ends(p, Notified) ==> EndsWith(rows, Sent, p.k + 1) && p.k < 3)
            && (Ends(p, Parked) ==> EndsWith(rows, Dead, p.k) && p.k >= 3)
  {
    assert WorksOnItsRow(l) && Routed(l);
  }

  predicate NoFaults(w: World, e: nat)
  {
    w.ledger.crashes[e] == 0 && w.ledger.lost[e] == 0 && w.ledger.throws[e] == 0
  }

  lemma NumberedLife(l: Life)
    requires LifeInv(l) && Unharmed(l)
    ensures Routed(l) && (ValidBody(l.token.body) ==> Numbered(l))
  {
  }

  lemma {:induction false} HandledLife(ss: seq<Step>, i: nat)
    requires Feasible(ss) && i < |State(ss).inflight|
    ensures LifeInv(LifeOf(State(ss), HandlerToken(State(ss).inflight[i])))
  {
    RunInv(ss);
    BagIn(State(ss).inflight, HandlerToken, HandlerToken(State(ss).inflight[i]));
    assert HandlerToken(State(ss).inflight[i]) in Tokens(State(ss));
  }

  /** A handler that has written nothing yet, for an event none of whose database calls failed, finds
      exactly the FAILED rows its retry count says. */
  lemma {:induction false} RowsBeforeHandling(ss: seq<Step>, i: nat)
    requires Feasible(ss) && i < |State(ss).inflight| && NoFaults(State(ss), State(ss).inflight[i].msg.id)
    requires var pc := State(ss).inflight[i].pc; pc.LookingUp? || pc.Creating? || pc.ParkingRow?
    ensures var w := State(ss);
            var k, rows := RetryCount(w.inflight[i].msg), RowsFor(w, w.inflight[i].msg.id);
            k <= MAX_RETRIES && |rows| == k && FailedUpTo(rows, CallsFor(w, w.inflight[i].msg.id), k)
  {
    HandledLife(ss, i);
    NumberedLife(LifeOf(State(ss), HandlerToken(State(ss).inflight[i])));
  }

  lemma NumberedEnd(l: Life)
    requires LifeInv(l) && Unharmed(l) && l.token.place.Settled?
    ensures var k, o, g := l.token.place.k, l.token.place.outcome, l.ledger;
            if o.Invalid? then g.store.rows == [] && k == 0
            else
              && ValidBody(l.token.body) && FailedUpTo(g.store.rows, g.calls, k)
              && |g.calls| == k + (if o.Notified? then 1 else 0)
              && (o.Parked? ==> k == MAX_RETRIES && ThenRow(g, k, Dead, k))
              && (o.Notified? ==> k < MAX_RETRIES && ThenRow(g, k, Sent, k + 1))
              && (o.Skipped? ==> k < MAX_RETRIES && |g.store.rows| == k)
  {
    NumberedLife(l);
  }

  /** How such an event ends: SENT with one attempt more than it has FAILED rows; nothing more when
      skipped; or FAILED 1, 2, 3 and one DEAD row with attempts 3. Never more than four rows. */
  lemma {:induction false} RowsAtTheEnd(ss: seq<Step>, i: nat)
    requires Feasible(ss) && i < |State(ss).settled| && NoFaults(State(ss), State(ss).settled[i].msg.id)
    ensures var w := State(ss);
            var s := w.settled[i];
            var k, rows := RetryCount(s.msg), RowsFor(w, s.msg.id);
            && |rows| <= MAX_RETRIES + 1
            && (if s.outcome.Invalid? then rows == [] && k == 0
                else
                  && FailedUpTo(rows, CallsFor(w, s.msg.id), k)
                  && |CallsFor(w, s.msg.id)| == k + (if s.outcome.Notified? then 1 else 0))
            && (s.outcome.Skipped? ==> k < MAX_RETRIES && |rows| == k)
            && (s.outcome.Notified? ==>
                  k < MAX_RETRIES && |rows| == k + 1 && rows[k].status == Sent && rows[k].attempts == k + 1)
            && (s.outcome.Parked? ==> k == 3 && |rows| == 4 && rows[3].status == Dead && rows[3].attempts == 3)
  {
    SettledLife(ss, i);
    NumberedEnd(LifeOf(State(ss), SettledToken(State(ss).settled[i])));
  }

  lemma {:induction false} BagBare<T>(s: seq<T>, token: T -> Token, bare: T -> Message, t: Token)
    requires forall x :: bare(x) == Republished(token(x).id, token(x).body)
    requires t in Bag(s, token)
    ensures Republished(t.id, t.body) in Bag(s, bare)
  {
    if t != token(s[0]) {
      BagBare(s[1..], token, bare, t);
    }
  }

  /** A message keeps the payload it was published with. */
  lemma {:induction false} TokenWasPublished(ss: seq<Step>, t: Token)
    requires Feasible(ss) && t in Tokens(State(ss))
    ensures Republished(t.id, t.body) in State(ss).published
  {
    var w := State(ss);
    if t in Bag(w.main, WaitingToken) {
      BagBare(w.main, WaitingToken, Bare, t);
    } else if t in Bag(w.retry, CoolingToken) {
      BagBare(w.retry, CoolingToken, Bare, t);
    } else if t in Bag(w.inflight, HandlerToken) {
      BagBare(w.inflight, HandlerToken, BareOfHandler, t);
    } else {
      BagBare(w.settled, SettledToken, BareOfSettled, t);
    }
    PlacesConserved(ss);
    PublicationsDistinct(ss);
    OneOfEach(w.published, Republished(t.id, t.body));
  }

  /** Everything the consumer writes about an event carries that event's user, symbol and type, and only
      events that pass the schema get rows; the DEAD ones are on the EMAIL channel. */
  lemma {:induction false} RowsDescribeTheirEvent(ss: seq<Step>, r: Row)
    requires Feasible(ss) && r in State(ss).ledger.store.rows
    ensures exists m <- State(ss).published :: m.id == r.tx && ValidBody(m.body)
              && m.body.event.userId == r.userId && m.body.event.symbol == r.symbol && m.body.event.txType == r.txType
    ensures TellsError(r) && (r.status == Dead ==> r.channel == Email)
  {
    var w := State(ss);
    OfIn(w.ledger.store.rows, RowTx, r.tx);
    HasRowsMeansPublished(ss, r.tx);
    var t := LifeAt(ss, r.tx);
    LifeDescribes(LifeOf(w, t), r);
    TokenWasPublished(ss, t);
  }

  lemma {:induction false} HasRowsMeansPublished(ss: seq<Step>, e: nat)
    requires Feasible(ss) && RowsFor(State(ss), e) != []
    ensures PublishedIn(State(ss).published, e)
  {
    RunInv(ss);
    assert Own(State(ss).ledger, e).store.rows != EMPTY.store.rows;
  }

  lemma LifeDescribes(l: Life, r: Row)
    requires LifeInv(l) && r in l.ledger.store.rows
    ensures ValidBody(l.token.body) && RowDescribes(r, l.token)
  {
    assert Routed(l) && Described(l);
  }
}
