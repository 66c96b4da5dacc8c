/** The retry protocol with any number of events and interleaved handlers.
    The broker may deliver, expire and requeue in any order, which includes its first-in first-out order. */
module RetrySystem {
  import opened Contracts
  import opened Messaging
  import opened HandlerSteps
  import opened Lifecycle
  import opened Logs

  /** An unacknowledged delivery: its message, where its handler is, and the row that handler created. */
  datatype Handler = Handler(msg: Message, pc: Pc, row: nat)
  datatype Settlement = Settlement(msg: Message, outcome: Outcome)

  datatype World = World(main: seq<Message>, retry: seq<Message>, inflight: seq<Handler>,
                         settled: seq<Settlement>, published: seq<Message>, ledger: Ledger)

  const START: World := World([], [], [], [], [], EMPTY)

  /** The broker routes a message to the queues bound to it. */
  function Send(w: World, ex: Exchange, key: RoutingKey, m: Message): World
  {
    var g := w.ledger;
    w.(main := w.main + Arrivals(BINDINGS, TxCreated, ex, key, m),
       retry := w.retry + Arrivals(BINDINGS, TxCreatedRetry, ex, key, m),
       ledger := g.(store := g.store.(dlq := g.store.dlq + Arrivals(BINDINGS, TxCreatedDlqFinal, ex, key, m))))
  }

  /** The broker dead-letters `m` out of queue `q`. */
  function DeadLetter(w: World, q: Queue, m: Message, r: Reason): World
  {
    match DeadLetterOf(q)
    case None => w
    case Some(to) => Send(w, to.exchange, to.key, m.(deaths := Stamp(m.deaths, q, r)))
  }

  datatype Step = Publish(id: nat, body: Body)
                | Deliver(i: nat)
                | Pass(i: nat, answer: Answer)
                | AckOf(i: nat)
                | NackOf(i: nat)
                | CrashOf(i: nat)
                | ExpireOf(i: nat)

  predicate Enabled(w: World, s: Step)
  {
    match s
    case Publish(id, _) => forall m <- w.published :: m.id != id
    case Deliver(i) => i < |w.main| && |w.inflight| < PREFETCH
    case Pass(i, a) =>
      && i < |w.inflight| && Fits(w.inflight[i].pc, a)
      && (HasRow(w.inflight[i].pc) ==> w.inflight[i].row < |w.ledger.store.rows|)
    case AckOf(i) => i < |w.inflight| && w.inflight[i].pc.Returning?
    case NackOf(i) => i < |w.inflight| && w.inflight[i].pc.Rejecting?
    case CrashOf(i) => i < |w.inflight|
    case ExpireOf(i) => i < |w.retry|
  }

  function HandlerAfter(w: World, h: Handler, a: Answer): Handler
    requires Fits(h.pc, a)
  {
    Handler(h.msg, Goto(h.pc, h.msg.body, RetryCount(h.msg), a), RowAfter(h.pc, h.row, w.ledger.store))
  }

  function Subject(w: World, s: Step): nat
    requires Enabled(w, s)
  {
    match s
    case Publish(id, _) => id
    case Deliver(i) => w.main[i].id
    case ExpireOf(i) => w.retry[i].id
    case _ => w.inflight[s.i].msg.id
  }

  function Next(w: World, s: Step): World
    requires Enabled(w, s)
  {
    var v := w.(ledger := Ticked(w.ledger, Subject(w, s)));
    match s
    case Publish(id, body) =>
      var m := Message(id, body, []);
      Send(v.(published := v.published + [m]), PortfolioEvents, CreatedKey, m)
    case Deliver(i) =>
      v.(main := Drop(v.main, i), inflight := v.inflight + [Handler(v.main[i], Received, 0)])
    case Pass(i, a) =>
      var h := v.inflight[i];
      v.(inflight := v.inflight[i := HandlerAfter(w, h, a)],
         ledger := Entered(v.ledger, h.msg.id, h.msg.body, RetryCount(h.msg), h.pc, h.row, a))
    case AckOf(i) =>
      var h := v.inflight[i];
      v.(inflight := Drop(v.inflight, i), settled := v.settled + [Settlement(h.msg, h.pc.outcome)])
    case NackOf(i) =>
      DeadLetter(v.(inflight := Drop(v.inflight, i)), TxCreated, v.inflight[i].msg, Rejected)
    case CrashOf(i) =>
      var m := v.inflight[i].msg;
      v.(inflight := Drop(v.inflight, i), main := [m] + v.main, ledger := Crashed(v.ledger, m.id))
    case ExpireOf(i) =>
      DeadLetter(v.(retry := Drop(v.retry, i)), TxCreatedRetry, v.retry[i], Expired)
  }

  /** Dead-lettering out of the main queue adds one message to the retry queue, its retry count one up. */
  lemma RejectedGoesToRetry(w: World, m: Message)
    ensures var m' := m.(deaths := Stamp(m.deaths, TxCreated, Rejected));
            && DeadLetter(w, TxCreated, m, Rejected) == w.(retry := w.retry + [m'])
            && RetryCount(m') == RetryCount(m) + 1
  {
    var m' := m.(deaths := Stamp(m.deaths, TxCreated, Rejected));
    EachLegHasOneQueue(TxCreated, m');
    EachLegHasOneQueue(TxCreatedRetry, m');
    EachLegHasOneQueue(TxCreatedDlqFinal, m');
    StampCounts(m.deaths, TxCreated, Rejected, TxCreated);
  }

  /** A message whose retry delay ends is back on the main queue with the same retry count. */
  lemma ExpiredGoesToMain(w: World, m: Message)
    ensures var m' := m.(deaths := Stamp(m.deaths, TxCreatedRetry, Expired));
            && DeadLetter(w, TxCreatedRetry, m, Expired) == w.(main := w.main + [m'])
            && RetryCount(m') == RetryCount(m)
  {
    var m' := m.(deaths := Stamp(m.deaths, TxCreatedRetry, Expired));
    EachLegHasOneQueue(TxCreated, m');
    EachLegHasOneQueue(TxCreatedRetry, m');
    EachLegHasOneQueue(TxCreatedDlqFinal, m');
    StampCounts(m.deaths, TxCreatedRetry, Expired, TxCreated);
  }

  lemma PublishedGoesToMain(w: World, m: Message)
    ensures Send(w, PortfolioEvents, CreatedKey, m) == w.(main := w.main + [m])
  {
    EachLegHasOneQueue(TxCreated, m);
    EachLegHasOneQueue(TxCreatedRetry, m);
    EachLegHasOneQueue(TxCreatedDlqFinal, m);
  }

  /** All that is on the main queue, on the retry queue, in handlers and acknowledged, each seen through
      its own function. */
  function Everything<K>(w: World, fm: Message -> K, fr: Message -> K, fh: Handler -> K,
                         fs: Settlement -> K): multiset<K>
  {
    Bag(w.main, fm) + Bag(w.retry, fr) + Bag(w.inflight, fh) + Bag(w.settled, fs)
  }

  /** What a step takes away from `Everything`, and what it puts back. */
  function Source<K>(w: World, s: Step, fm: Message -> K, fr: Message -> K, fh: Handler -> K): K
    requires Enabled(w, s) && !s.Publish?
  {
    match s
    case Deliver(i) => fm(w.main[i])
    case ExpireOf(i) => fr(w.retry[i])
    case Pass(i, _) => fh(w.inflight[i])
    case AckOf(i) => fh(w.inflight[i])
    case NackOf(i) => fh(w.inflight[i])
    case CrashOf(i) => fh(w.inflight[i])
  }

  function Target<K>(w: World, s: Step, fm: Message -> K, fr: Message -> K, fh: Handler -> K, fs: Settlement -> K): K
    requires Enabled(w, s) && !s.Publish?
  {
    match s
    case Deliver(i) => fh(Handler(w.main[i], Received, 0))
    case Pass(i, a) => fh(HandlerAfter(w, w.inflight[i], a))
    case AckOf(i) => fs(Settlement(w.inflight[i].msg, w.inflight[i].pc.outcome))
    case NackOf(i) => fr(w.inflight[i].msg.(deaths := Stamp(w.inflight[i].msg.deaths, TxCreated, Rejected)))
    case CrashOf(i) => fm(w.inflight[i].msg)
    case ExpireOf(i) => fm(w.retry[i].(deaths := Stamp(w.retry[i].deaths, TxCreatedRetry, Expired)))
  }

  ghost predicate MovesOne<K>(w: World, s: Step, fm: Message -> K, fr: Message -> K, fh: Handler -> K,
                              fs: Settlement -> K)
    requires Enabled(w, s) && !s.Publish?
  {
    var all, x := Everything(w, fm, fr, fh, fs), Source(w, s, fm, fr, fh);
    x in all && Everything(Next(w, s), fm, fr, fh, fs) == all - multiset{x} + multiset{Target(w, s, fm, fr, fh, fs)}
  }

  lemma DeliverMovesOne<K>(w: World, i: nat, fm: Message -> K, fr: Message -> K, fh: Handler -> K, fs: Settlement -> K)
    requires Enabled(w, Deliver(i))
    ensures MovesOne(w, Deliver(i), fm, fr, fh, fs)
  {
    BagAt(w.main, fm, i);
    BagAppend(w.inflight, fh, Handler(w.main[i], Received, 0));
  }

  lemma ExpiryMovesOne<K>(w: World, i: nat, fm: Message -> K, fr: Message -> K, fh: Handler -> K, fs: Settlement -> K)
    requires Enabled(w, ExpireOf(i))
    ensures MovesOne(w, ExpireOf(i), fm, fr, fh, fs)
  {
    var m := w.retry[i];
    BagAt(w.retry, fr, i);
    ExpiredGoesToMain(w.(ledger := Ticked(w.ledger, m.id), retry := Drop(w.retry, i)), m);
    BagAppend(w.main, fm, m.(deaths := Stamp(m.deaths, TxCreatedRetry, Expired)));
  }

  lemma PassMovesOne<K>(w: World, i: nat, a: Answer, fm: Message -> K, fr: Message -> K, fh: Handler -> K,
                        fs: Settlement -> K)
    requires Enabled(w, Pass(i, a))
    ensures MovesOne(w, Pass(i, a), fm, fr, fh, fs)
  {
    BagAt(w.inflight, fh, i);
    BagUpdate(w.inflight, fh, i, HandlerAfter(w, w.inflight[i], a));
  }

  lemma AckMovesOne<K>(w: World, i: nat, fm: Message -> K, fr: Message -> K, fh: Handler -> K, fs: Settlement -> K)
    requires Enabled(w, AckOf(i))
    ensures MovesOne(w, AckOf(i), fm, fr, fh, fs)
  {
    BagAt(w.inflight, fh, i);
    BagAppend(w.settled, fs, Settlement(w.inflight[i].msg, w.inflight[i].pc.outcome));
  }

  /** What leaves the handlers may join any of the two queues: the sum only exchanges `x` for `y`. */
  lemma Exchanged<K>(m: multiset<K>, r: multiset<K>, h: multiset<K>, s: multiset<K>, x: K, y: K)
    ensures var all := m + r + (h + multiset{x}) + s - multiset{x} + multiset{y};
            (m + multiset{y}) + r + h + s == all && m + (r + multiset{y}) + h + s == all
  {
  }

  lemma NackMovesOne<K>(w: World, i: nat, fm: Message -> K, fr: Message -> K, fh: Handler -> K, fs: Settlement -> K)
    requires Enabled(w, NackOf(i))
    ensures MovesOne(w, NackOf(i), fm, fr, fh, fs)
  {
    var m := w.inflight[i].msg;
    BagAt(w.inflight, fh, i);
    var m' := m.(deaths := Stamp(m.deaths, TxCreated, Rejected));
    RejectedGoesToRetry(w.(ledger := Ticked(w.ledger, m.id), inflight := Drop(w.inflight, i)), m);
    BagAppend(w.retry, fr, m');
    Exchanged(Bag(w.main, fm), Bag(w.retry, fr), Bag(Drop(w.inflight, i), fh), Bag(w.settled, fs),
              fh(w.inflight[i]), fr(m'));
  }

  lemma CrashMovesOne<K>(w: World, i: nat, fm: Message -> K, fr: Message -> K, fh: Handler -> K, fs: Settlement -> K)
    requires Enabled(w, CrashOf(i))
    ensures MovesOne(w, CrashOf(i), fm, fr, fh, fs)
  {
    var m := w.inflight[i].msg;
    BagAt(w.inflight, fh, i);
    BagAt([m] + w.main, fm, 0);
    assert Drop([m] + w.main, 0) == w.main;
    Exchanged(Bag(w.main, fm), Bag(w.retry, fr), Bag(Drop(w.inflight, i), fh), Bag(w.settled, fs),
              fh(w.inflight[i]), fm(m));
  }

  /** Every step but a publication moves exactly one of the things in `Everything`. */
  lemma StepMovesOne<K>(w: World, s: Step, fm: Message -> K, fr: Message -> K, fh: Handler -> K, fs: Settlement -> K)
    requires Enabled(w, s) && !s.Publish?
    ensures MovesOne(w, s, fm, fr, fh, fs)
  {
    match s
    case Deliver(i) => DeliverMovesOne(w, i, fm, fr, fh, fs);
    case ExpireOf(i) => ExpiryMovesOne(w, i, fm, fr, fh, fs);
    case Pass(i, a) => PassMovesOne(w, i, a, fm, fr, fh, fs);
    case AckOf(i) => AckMovesOne(w, i, fm, fr, fh, fs);
    case NackOf(i) => NackMovesOne(w, i, fm, fr, fh, fs);
    case CrashOf(i) => CrashMovesOne(w, i, fm, fr, fh, fs);
  }

  lemma PublishAddsOne<K>(w: World, s: Step, fm: Message -> K, fr: Message -> K, fh: Handler -> K, fs: Settlement -> K)
    requires Enabled(w, s) && s.Publish?
    ensures Everything(Next(w, s), fm, fr, fh, fs)
         == Everything(w, fm, fr, fh, fs) + multiset{fm(Message(s.id, s.body, []))}
    ensures Next(w, s).published == w.published + [Message(s.id, s.body, [])]
    ensures Next(w, s).ledger == Ticked(w.ledger, s.id) && Next(w, s).inflight == w.inflight
  {
    var m := Message(s.id, s.body, []);
    PublishedGoesToMain(w.(ledger := Ticked(w.ledger, s.id), published := w.published + [m]), m);
    BagAppend(w.main, fm, m);
  }
}
