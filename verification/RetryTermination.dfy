/** Every run stops within an explicit bound, and what is left when it stops adds up. */
module RetryTermination {
  import opened Wrappers
  import opened Messaging
  import opened HandlerSteps
  import opened Lifecycle
  import opened Logs
  import opened RetrySystem
  import opened Isolation
  import opened RetryRuns
  import opened RetryTheorems

  lemma StepsCounted(w: World, s: Step)
    requires Enabled(w, s)
    ensures |Next(w, s).ledger.steps| == |w.ledger.steps| + 1
    ensures |Next(w, s).published| == |w.published| + if s.Publish? then 1 else 0
  {
    LedgerAfter(w, s);
    InflightAfter(w, s);
  }

  lemma {:induction false} StepsOfRun(ss: seq<Step>)
    requires Feasible(ss)
    ensures |State(ss).ledger.steps| == |ss|
    decreases |ss|
  {
    if ss != [] {
      StepsOfRun(ss[..|ss| - 1]);
      StepsCounted(State(ss[..|ss| - 1]), ss[|ss| - 1]);
    }
  }

  /** One event takes at most 33 steps, and 6 more for each of its failing calls and 32 for each of its
      crashes, no matter how many other events there are and how they are scheduled. */
  lemma {:induction false} EventStepBound(ss: seq<Step>, e: nat)
    requires Feasible(ss)
    ensures var g := State(ss).ledger;
            if PublishedIn(State(ss).published, e) then g.steps[e] <= Allowance(g, e)
            else g.steps[e] == g.throws[e] == g.lost[e] == g.crashes[e] == 0
  {
    RunInv(ss);
    var g := State(ss).ledger;
    if PublishedIn(State(ss).published, e) {
      var t := LifeAt(ss, e);
      assert WithinAllowance(LifeOf(State(ss), t));
    } else {
      assert Own(g, e) == EMPTY;
      assert Own(g, e).steps[e] == g.steps[e] && Own(g, e).throws[e] == g.throws[e];
      assert Own(g, e).lost[e] == g.lost[e] && Own(g, e).crashes[e] == g.crashes[e];
    }
  }

  lemma {:induction false} SumOfBounds(steps: multiset<nat>, errors: multiset<nat>, crashes: multiset<nat>,
                                       ids: set<nat>)
    requires forall e: nat ::
      steps[e] <= (if e in ids then STEPS_PER_EVENT else 0) + STEPS_PER_ERROR * errors[e] + STEPS_PER_CRASH * crashes[e]
    ensures |steps| <= STEPS_PER_EVENT * |ids| + STEPS_PER_ERROR * |errors| + STEPS_PER_CRASH * |crashes|
    decreases |steps|
  {
    if |steps| > 0 {
      var e :| e in steps;
      SumOfBounds(steps[e := 0], errors[e := 0], crashes[e := 0], ids - {e});
    }
  }

  function PublishedIds(pub: seq<Message>): set<nat>
  {
    set m <- pub :: m.id
  }

  lemma {:induction false} FewIds(pub: seq<Message>)
    ensures |PublishedIds(pub)| <= |pub|
  {
    if pub != [] {
      FewIds(pub[1..]);
      assert PublishedIds(pub) == PublishedIds(pub[1..]) + {pub[0].id};
    }
  }

  /** Every run, however scheduled, is at most 33 steps per published event, 6 per failing call and 32 per
      crash long: the protocol cannot run on without new events or new faults. */
  lemma {:induction false} RunLengthBound(ss: seq<Step>)
    requires Feasible(ss)
    ensures var w := State(ss);
            |ss| <= STEPS_PER_EVENT * |w.published|
                  + STEPS_PER_ERROR * (|w.ledger.throws| + |w.ledger.lost|)
                  + STEPS_PER_CRASH * |w.ledger.crashes|
  {
    var w := State(ss);
    var ids := PublishedIds(w.published);
    forall e: nat
      ensures w.ledger.steps[e] <= (if e in ids then STEPS_PER_EVENT else 0)
                                 + STEPS_PER_ERROR * (w.ledger.throws + w.ledger.lost)[e]
                                 + STEPS_PER_CRASH * w.ledger.crashes[e]
    {
      EventStepBound(ss, e);
    }
    SumOfBounds(w.ledger.steps, w.ledger.throws + w.ledger.lost, w.ledger.crashes, ids);
    FewIds(w.published);
    StepsOfRun(ss);
  }

  /** Nothing more can happen by itself: only a new publication or a crash is possible. */
  ghost predicate Stuck(w: World)
  {
    forall s: Step :: Enabled(w, s) ==> s.Publish? || s.CrashOf?
  }

  function SomeAnswer(pc: Pc): (a: Answer)
    requires Rank(pc) > 0
    ensures Fits(pc, a)
  {
    match pc
    case Received => Go
    case LookingUp => Looked(None, None, 0, 0)
    case Delivering => Delivered(None, 0)
    case _ => Stored(Done)
  }

  /** As long as anything is queued or handled, something can happen: a handler can go on whatever its
      await answers, a free consumer can be given a message, and a retry delay can end. */
  lemma SomethingCanMove(w: World)
    requires RowsOwned(w.inflight, w.ledger.store.rows)
    requires w.inflight != [] || w.main != [] || w.retry != []
    ensures !Stuck(w)
  {
    var s := if w.inflight == [] then if w.main == [] then ExpireOf(0) else Deliver(0)
             else if w.inflight[0].pc.Returning? then AckOf(0)
             else if w.inflight[0].pc.Rejecting? then NackOf(0)
             else Pass(0, SomeAnswer(w.inflight[0].pc));
    assert w.inflight != [] ==> OwnsRow(w.ledger.store.rows, w.inflight[0].msg.id, w.inflight[0].pc, w.inflight[0].row);
    assert Enabled(w, s);
  }

  /** A run stops only when every published event has been acknowledged, once. */
  lemma {:induction false} StuckMeansSettled(ss: seq<Step>)
    requires Feasible(ss) && Stuck(State(ss))
    ensures var w := State(ss);
            w.main == [] && w.retry == [] && w.inflight == [] && |w.settled| == |w.published|
    ensures forall m :: m in State(ss).published ==> Bag(State(ss).settled, BareOfSettled)[m] == 1
  {
    var w := State(ss);
    RunInv(ss);
    if w.inflight != [] || w.main != [] || w.retry != [] {
      SomethingCanMove(w);
    }
    PlacesConserved(ss);
    BagSize(w.settled, BareOfSettled);
    BagSize(w.published, Bare);
    forall m | m in w.published ensures Bag(w.settled, BareOfSettled)[m] == 1 {
      ExactlyOnePlace(ss, m);
    }
  }

  /** The transactions of the rows with a status, one per row. */
  function WithStatus(rows: seq<Row>, s: Status): multiset<nat>
    decreases |rows|
  {
    if rows == [] then multiset{} else
      var n := |rows| - 1;
      WithStatus(rows[..n], s) + if rows[n].status == s then multiset{rows[n].tx} else multiset{}
  }

  lemma {:induction false} WithStatusPerEvent(rows: seq<Row>, s: Status, e: nat)
    ensures WithStatus(rows, s)[e] == CountOf(Of(rows, RowTx, e), s)
    ensures |WithStatus(rows, s)| == CountOf(rows, s)
    decreases |rows|
  {
    if rows != [] {
      var n := |rows| - 1;
      WithStatusPerEvent(rows[..n], s, e);
      var own := Of(rows[..n], RowTx, e);
      CountAppend(own, rows[n], s);
      assert Of(rows, RowTx, e) == if rows[n].tx == e then own + [rows[n]] else own;
    }
  }

  /** The transactions settled with an outcome. */
  function WithOutcome(settled: seq<Settlement>, o: Outcome): multiset<nat>
  {
    if settled == [] then multiset{} else
      (if settled[0].outcome == o then multiset{settled[0].msg.id} else multiset{}) + WithOutcome(settled[1..], o)
  }

  predicate SettledAs(settled: seq<Settlement>, o: Outcome, e: nat)
  {
    exists s <- settled :: s.msg.id == e && s.outcome == o
  }

  lemma SettledAsFirst(settled: seq<Settlement>, o: Outcome, e: nat)
    requires settled != []
    requires forall i, j :: 0 <= i < j < |settled| ==> settled[i].msg.id != settled[j].msg.id
    ensures settled[0].msg.id == e ==> !SettledAs(settled[1..], o, e)
    ensures SettledAs(settled, o, e)
        <==> (settled[0].msg.id == e && settled[0].outcome == o) || SettledAs(settled[1..], o, e)
  {
    assert forall s :: s in settled <==> s == settled[0] || s in settled[1..];
    if SettledAs(settled[1..], o, e) {
      var s :| s in settled[1..] && s.msg.id == e && s.outcome == o;
      var j :| 0 <= j < |settled[1..]| && settled[1..][j] == s;
      assert settled[j + 1] == s;
    }
  }

  lemma {:induction false} WithOutcomePerEvent(settled: seq<Settlement>, o: Outcome, e: nat)
    requires forall i, j :: 0 <= i < j < |settled| ==> settled[i].msg.id != settled[j].msg.id
    ensures WithOutcome(settled, o)[e] == if SettledAs(settled, o, e) then 1 else 0
  {
    if settled != [] {
      WithOutcomePerEvent(settled[1..], o, e);
      SettledAsFirst(settled, o, e);
    }
  }

  lemma {:induction false} OutcomesAddUp(settled: seq<Settlement>)
    ensures |WithOutcome(settled, Notified)| + |WithOutcome(settled, Skipped)|
          + |WithOutcome(settled, Parked)| + |WithOutcome(settled, Invalid)| == |settled|
  {
    if settled != [] {
      OutcomesAddUp(settled[1..]);
    }
  }

  lemma DistinctSettled(w: World, i: nat, j: nat)
    requires Unique(Tokens(w)) && i < |w.settled| && j < |w.settled| && i != j
    ensures w.settled[i].msg.id != w.settled[j].msg.id
  {
    var t, u := SettledToken(w.settled[i]), SettledToken(w.settled[j]);
    var rest := Drop(w.settled, i);
    assert rest[if j < i then j else j - 1] == w.settled[j];
    BagIn(rest, SettledToken, u);
    BagAt(w.settled, SettledToken, i);
    assert t in Tokens(w) && u in Tokens(w);
    assert t == u ==> Tokens(w)[t] >= 2;
  }

  /** In a stopped run the rows, the copies and the settlements of one event agree. */
  lemma {:induction false} EventAddsUp(ss: seq<Step>, e: nat)
    requires Feasible(ss) && Stuck(State(ss))
    requires State(ss).ledger.crashes == multiset{} && State(ss).ledger.lost == multiset{}
    ensures var w := State(ss);
            && CountOf(RowsFor(w, e), Sent) == WithOutcome(w.settled, Notified)[e]
            && |CopiesFor(w, e)| == WithOutcome(w.settled, Parked)[e]
  {
    var w := State(ss);
    SettledDistinct(ss);
    WithOutcomePerEvent(w.settled, Notified, e);
    WithOutcomePerEvent(w.settled, Parked, e);
    if i: nat :| i < |w.settled| && w.settled[i].msg.id == e {
      SettledExactlyOnce(ss, i);
      assert w.settled[i] in w.settled;
    } else {
      NotSettledNotPublished(ss, e);
      NothingForUnpublished(ss, e);
    }
  }

  lemma {:induction false} SettledDistinct(ss: seq<Step>)
    requires Feasible(ss)
    ensures var settled := State(ss).settled;
            && (forall i, j :: 0 <= i < j < |settled| ==> settled[i].msg.id != settled[j].msg.id)
            && (forall s, u :: s in settled && u in settled && s.msg.id == u.msg.id ==> s == u)
  {
    RunInv(ss);
    UniqueSettled(State(ss));
  }

  lemma UniqueSettled(w: World)
    requires Unique(Tokens(w))
    ensures forall i, j :: 0 <= i < j < |w.settled| ==> w.settled[i].msg.id != w.settled[j].msg.id
    ensures forall s, u :: s in w.settled && u in w.settled && s.msg.id == u.msg.id ==> s == u
  {
    forall i: nat, j: nat | i < |w.settled| && j < |w.settled| && i != j
      ensures w.settled[i].msg.id != w.settled[j].msg.id
    {
      DistinctSettled(w, i, j);
    }
  }

  lemma {:induction false} NothingForUnpublished(ss: seq<Step>, e: nat)
    requires Feasible(ss) && !PublishedIn(State(ss).published, e)
    ensures RowsFor(State(ss), e) == [] && CopiesFor(State(ss), e) == []
  {
    RunInv(ss);
    assert Own(State(ss).ledger, e) == EMPTY;
  }

  lemma {:induction false} NotSettledNotPublished(ss: seq<Step>, e: nat)
    requires Feasible(ss) && Stuck(State(ss))
    requires forall i :: 0 <= i < |State(ss).settled| ==> State(ss).settled[i].msg.id != e
    ensures !PublishedIn(State(ss).published, e)
  {
    var w := State(ss);
    StuckMeansSettled(ss);
    if m :| m in w.published && m.id == e {
      BagIn(w.settled, BareOfSettled, m);
    }
  }

  lemma {:induction false} SizeOfBag(ms: seq<Message>, e: nat)
    ensures Bag(ms, MsgId)[e] == |Of(ms, MsgId, e)|
    decreases |ms|
  {
    if ms != [] {
      var n := |ms| - 1;
      SizeOfBag(ms[..n], e);
      BagAppend(ms[..n], MsgId, ms[n]);
      assert ms == ms[..n] + [ms[n]];
    }
  }

  /** The books of a stopped run without crashes or lost replies: one SENT row per notified event, one copy
      on the terminal queue per parked event, and every published event in exactly one outcome. */
  lemma {:induction false} StoppedRunAddsUp(ss: seq<Step>)
    requires Feasible(ss) && Stuck(State(ss))
    requires State(ss).ledger.crashes == multiset{} && State(ss).ledger.lost == multiset{}
    ensures var w := State(ss);
            && CountOf(w.ledger.store.rows, Sent) == |WithOutcome(w.settled, Notified)|
            && |w.ledger.store.dlq| == |WithOutcome(w.settled, Parked)|
            && |WithOutcome(w.settled, Notified)| + |WithOutcome(w.settled, Skipped)|
             + |WithOutcome(w.settled, Parked)| + |WithOutcome(w.settled, Invalid)| == |w.published|
  {
    var w := State(ss);
    forall e: nat
      ensures WithStatus(w.ledger.store.rows, Sent)[e] == WithOutcome(w.settled, Notified)[e]
      ensures Bag(w.ledger.store.dlq, MsgId)[e] == WithOutcome(w.settled, Parked)[e]
    {
      EventAddsUp(ss, e);
      WithStatusPerEvent(w.ledger.store.rows, Sent, e);
      SizeOfBag(w.ledger.store.dlq, e);
    }
    assert WithStatus(w.ledger.store.rows, Sent) == WithOutcome(w.settled, Notified);
    assert Bag(w.ledger.store.dlq, MsgId) == WithOutcome(w.settled, Parked);
    WithStatusPerEvent(w.ledger.store.rows, Sent, 0);
    BagSize(w.ledger.store.dlq, MsgId);
    OutcomesAddUp(w.settled);
    StuckMeansSettled(ss);
  }
}
