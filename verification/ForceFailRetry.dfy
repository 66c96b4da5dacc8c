/** NOTIFICATION_FORCE_FAIL_ONCE seen through the retry protocol: one user, one retry. */
module ForceFailRetry {
  import opened Contracts
  import opened Messaging
  import opened HandlerSteps
  import opened Lifecycle
  import opened Logs
  import opened RetrySystem
  import opened Isolation
  import opened RetryRuns
  import opened RetryTheorems
  import opened RetryTermination
  import opened Delivery
  import opened DeliveryAnswers

  /** The flag is on, each user's deliveries are less than a minute apart and answered as overlapping calls on
      the user's key are, every lookup finds an enabled preference and rule, and nothing but the simulated
      failure goes wrong. */
  ghost predicate OnlySimulatedFailures(w: World)
  {
    && w.ledger.throws == multiset{} && w.ledger.lost == multiset{} && w.ledger.crashes == multiset{}
    && (forall u: UserId :: Simulated(CallsOfUser(w.ledger.calls, u)))
    && (forall l <- w.ledger.lookups :: Wanted(l.pref, l.rule))
  }

  lemma {:induction false} FailedPrefix(own: seq<DeliverCall>, k: nat)
    requires k <= |own| && forall i :: 0 <= i < k ==> own[i].err.Some?
    ensures CountFailed(own) >= k
    ensures (forall i :: k <= i < |own| ==> !own[i].err.Some?) ==> CountFailed(own) == k
    decreases |own|
  {
    if own != [] {
      var before := own[..|own| - 1];
      FailedPrefix(before, if k == |own| then k - 1 else k);
    }
  }

  /** Failures of different events of one user are different failures of that user. */
  lemma {:induction false} FailuresAdd(calls: seq<DeliverCall>, e: nat, f: nat, u: UserId)
    requires e != f && forall c <- calls :: c.tx == e || c.tx == f ==> c.userId == u
    ensures CountFailed(Of(calls, CallTx, e)) + CountFailed(Of(calls, CallTx, f)) <= CountFailed(CallsOfUser(calls, u))
    decreases |calls|
  {
    if calls != [] {
      var n := |calls| - 1;
      FailuresAdd(calls[..n], e, f, u);
      assert calls[n] in calls;
      AppendFailed(Of(calls[..n], CallTx, e), calls[n]);
      AppendFailed(Of(calls[..n], CallTx, f), calls[n]);
      AppendFailed(CallsOfUser(calls[..n], u), calls[n]);
    }
  }

  lemma AppendFailed(own: seq<DeliverCall>, c: DeliverCall)
    ensures CountFailed(own + [c]) == CountFailed(own) + if c.err.Some? then 1 else 0
    ensures own + [] == own
  {
    assert (own + [c])[..|own|] == own;
  }

  function UserOf(b: Body): UserId
    requires b.Fields?
  {
    b.event.userId
  }

  /** The calls of an event are calls for its user. */
  lemma {:induction false} CallsAreUsers(ss: seq<Step>, t: Token)
    requires Feasible(ss) && t in Tokens(State(ss)) && t.body.Fields?
    ensures forall c <- State(ss).ledger.calls :: c.tx == t.id ==> c.userId == UserOf(t.body)
  {
    RunInv(ss);
    var w := State(ss);
    OfIn(w.ledger.calls, CallTx, t.id);
    assert Described(LifeOf(w, t));
    forall c <- w.ledger.calls | c.tx == t.id ensures c.userId == UserOf(t.body) {
      assert c in CallsFor(w, t.id);
      var i :| 0 <= i < |CallsFor(w, t.id)| && CallsFor(w, t.id)[i] == c;
      assert CallDescribes(CallsFor(w, t.id)[i], t);
    }
  }

  lemma RetriesOfLife(l: Life)
    requires LifeInv(l) && Unharmed(l) && ValidBody(l.token.body)
    ensures l.token.place.k <= CountFailed(l.ledger.calls)
    ensures l.token.place.Settled? ==> l.token.place.k == CountFailed(l.ledger.calls)
    ensures l.token.place.Settled? ==> !l.token.place.outcome.Invalid?
  {
    NumberedLife(l);
    FailedPrefix(l.ledger.calls, l.token.place.k);
  }

  /** The retry count of such an event is the number of its failed deliveries. */
  lemma {:induction false} RetriesAreFailures(ss: seq<Step>, t: Token)
    requires Feasible(ss) && OnlySimulatedFailures(State(ss)) && t in Tokens(State(ss)) && ValidBody(t.body)
    ensures t.place.k <= CountFailed(CallsFor(State(ss), t.id))
    ensures t.place.Settled? ==> t.place.k == CountFailed(CallsFor(State(ss), t.id))
    ensures t.place.Settled? ==> t.place.outcome.Notified? || t.place.outcome.Parked?
  {
    RunInv(ss);
    RetriesOfLife(LifeOf(State(ss), t));
    if Ends(t.place, Skipped) {
      SkippedAfterRefusal(State(ss), t);
    }
  }

  /** An event that is skipped had a lookup that did not find both enabled. */
  lemma SkippedAfterRefusal(w: World, t: Token)
    requires LifeInv(LifeOf(w, t)) && Ends(t.place, Skipped)
    ensures exists l <- w.ledger.lookups :: !Wanted(l.pref, l.rule)
  {
    var looked := Of(w.ledger.lookups, LookupTx, t.id);
    SkippedWasRefused(LifeOf(w, t));
    OfIn(w.ledger.lookups, LookupTx, t.id);
    assert looked[|looked| - 1] in looked;
  }

  lemma SkippedWasRefused(l: Life)
    requires LifeInv(l) && Ends(l.token.place, Skipped)
    ensures NewestRefuses(l.ledger.lookups)
  {
    assert Consented(l);
  }

  lemma UserFailsAtMostOnce(w: World, u: UserId)
    requires OnlySimulatedFailures(w)
    ensures CountFailed(CallsOfUser(w.ledger.calls, u)) <= 1
  {
    FailsOnce(CallsOfUser(w.ledger.calls, u));
  }

  /** At every moment, no event has been retried more than once, and two events of one user have not both
      been retried. */
  lemma {:induction false} AtMostOneRetry(ss: seq<Step>, t: Token)
    requires Feasible(ss) && OnlySimulatedFailures(State(ss)) && t in Tokens(State(ss)) && ValidBody(t.body)
    ensures t.place.k <= 1
    ensures forall o :: o in Tokens(State(ss)) && ValidBody(o.body) && UserOf(o.body) == UserOf(t.body) && o.id != t.id
              ==> t.place.k + o.place.k <= 1
  {
    var w := State(ss);
    RetriesAreFailures(ss, t);
    CallsAreUsers(ss, t);
    UserFailsAtMostOnce(w, UserOf(t.body));
    var none := Unused(w.ledger.calls, t.id);
    FailuresAdd(w.ledger.calls, t.id, none, UserOf(t.body));
    forall o | o in Tokens(w) && ValidBody(o.body) && UserOf(o.body) == UserOf(t.body) && o.id != t.id
      ensures t.place.k + o.place.k <= 1
    {
      RetriesAreFailures(ss, o);
      CallsAreUsers(ss, o);
      FailuresAdd(w.ledger.calls, t.id, o.id, UserOf(t.body));
    }
  }

  lemma {:induction false} Unused(calls: seq<DeliverCall>, e: nat) returns (none: nat)
    ensures none != e && forall c <- calls :: c.tx < none
  {
    if calls == [] {
      none := e + 1;
    } else {
      none := Unused(calls[1..], e);
      none := none + calls[0].tx + e + 1;
    }
  }

  /** No event is parked, and each that is settled is invalid or notified: after at most one FAILED row it
      is SENT with attempts 1 or 2. */
  lemma {:induction false} SettledAfterOneRetry(ss: seq<Step>, i: nat)
    requires Feasible(ss) && OnlySimulatedFailures(State(ss)) && i < |State(ss).settled|
    requires ValidBody(State(ss).settled[i].msg.body)
    ensures var w := State(ss);
            var k, rows := RetryCount(w.settled[i].msg), RowsFor(w, w.settled[i].msg.id);
            && w.settled[i].outcome.Notified?
            && k <= 1 && |rows| == k + 1 && FailedUpTo(rows, CallsFor(w, w.settled[i].msg.id), k)
            && rows[k].status == Sent && rows[k].attempts == k + 1
  {
    var w, t := State(ss), SettledToken(State(ss).settled[i]);
    SettledLife(ss, i);
    assert t in Tokens(w) by {
      BagIn(w.settled, SettledToken, t);
    }
    AtMostOneRetry(ss, t);
    RetriesAreFailures(ss, t);
    RowsAtTheEnd(ss, i);
  }

  /** No other settled event of the user was retried. */
  predicate OnlyRetried(settled: seq<Settlement>, i: nat, u: UserId)
  {
    forall j :: 0 <= j < |settled| && j != i && IsOf(settled[j], u) ==> RetryCount(settled[j].msg) == 0
  }

  predicate IsOf(s: Settlement, u: UserId)
  {
    ValidBody(s.msg.body) && UserOf(s.msg.body) == u
  }

  /** Once such a run has stopped and all calls have been answered, every user with any delivery has exactly
      one event that was retried. */
  lemma {:induction false} OneRetryPerUser(ss: seq<Step>, u: UserId)
    requires Feasible(ss) && OnlySimulatedFailures(State(ss)) && Stuck(State(ss))
    requires CallsOfUser(State(ss).ledger.calls, u) != [] && AllSimulated(CallsOfUser(State(ss).ledger.calls, u))
    ensures exists i ::
      0 <= i < |State(ss).settled| && RetriedOf(State(ss).settled[i], u) && OnlyRetried(State(ss).settled, i, u)
  {
    var i := FailureRetried(ss, u);
    OthersNotRetried(ss, i, u);
  }

  lemma {:induction false} AFailure(own: seq<DeliverCall>) returns (c: DeliverCall)
    requires CountFailed(own) > 0
    ensures c in own && c.err.Some?
    decreases |own|
  {
    c := own[|own| - 1];
    if c.err.None? {
      c := AFailure(own[..|own| - 1]);
    }
  }

  lemma SomeCallFailed(calls: seq<DeliverCall>, u: UserId) returns (c: DeliverCall)
    requires CallsOfUser(calls, u) != [] && AllSimulated(CallsOfUser(calls, u))
    ensures c in calls && c.userId == u && c.err.Some?
  {
    FailsOnce(CallsOfUser(calls, u));
    OfIn(calls, CallUser, u);
    c := AFailure(CallsOfUser(calls, u));
  }

  /** One of the user's deliveries failed, and its event was retried once. */
  lemma {:induction false} FailureRetried(ss: seq<Step>, u: UserId) returns (i: nat)
    requires Feasible(ss) && OnlySimulatedFailures(State(ss)) && Stuck(State(ss))
    requires CallsOfUser(State(ss).ledger.calls, u) != [] && AllSimulated(CallsOfUser(State(ss).ledger.calls, u))
    ensures i < |State(ss).settled| && RetriedOf(State(ss).settled[i], u)
  {
    var w := State(ss);
    var c := SomeCallFailed(w.ledger.calls, u);
    i := SettledOfCall(ss, c);
    var t := SettledToken(w.settled[i]);
    InTokens(w, i);
    RetriesAreFailures(ss, t);
    SomeFailure(CallsFor(w, t.id), c);
    CallsAreUsers(ss, t);
    AtMostOneRetry(ss, t);
  }

  lemma {:induction false} OthersNotRetried(ss: seq<Step>, i: nat, u: UserId)
    requires Feasible(ss) && OnlySimulatedFailures(State(ss))
    requires i < |State(ss).settled| && RetriedOf(State(ss).settled[i], u)
    ensures OnlyRetried(State(ss).settled, i, u)
  {
    var w := State(ss);
    InTokens(w, i);
    AtMostOneRetry(ss, SettledToken(w.settled[i]));
    SettledDistinct(ss);
    forall j: nat | j < |w.settled| && j != i && IsOf(w.settled[j], u) ensures RetryCount(w.settled[j].msg) == 0 {
      InTokens(w, j);
      var o := SettledToken(w.settled[j]);
      assert o.id != w.settled[i].msg.id && o.place.k == RetryCount(w.settled[j].msg);
    }
  }

  predicate RetriedOf(s: Settlement, u: UserId)
  {
    IsOf(s, u) && RetryCount(s.msg) == 1
  }

  lemma InTokens(w: World, i: nat)
    requires i < |w.settled|
    ensures SettledToken(w.settled[i]) in Tokens(w)
  {
    BagIn(w.settled, SettledToken, SettledToken(w.settled[i]));
  }

  lemma {:induction false} SomeFailure(own: seq<DeliverCall>, c: DeliverCall)
    requires c in own && c.err.Some?
    ensures CountFailed(own) >= 1
    decreases |own|
  {
    var n := |own| - 1;
    if c != own[n] {
      assert own == own[..n] + [own[n]];
      SomeFailure(own[..n], c);
    }
  }

  /** In a stopped run the event of a call of `deliver` has been settled, and it is a valid one. */
  lemma {:induction false} SettledOfCall(ss: seq<Step>, c: DeliverCall) returns (i: nat)
    requires Feasible(ss) && Stuck(State(ss)) && c in State(ss).ledger.calls
    ensures i < |State(ss).settled| && State(ss).settled[i].msg.id == c.tx && ValidBody(State(ss).settled[i].msg.body)
    ensures c in CallsFor(State(ss), c.tx)
  {
    var w := State(ss);
    OfIn(w.ledger.calls, CallTx, c.tx);
    CallMeansPublished(ss, c.tx);
    var t := LifeAt(ss, c.tx);
    assert Routed(LifeOf(w, t));
    StuckMeansSettled(ss);
    assert t in Bag(w.settled, SettledToken);
    BagIn(w.settled, SettledToken, t);
    i :| 0 <= i < |w.settled| && SettledToken(w.settled[i]) == t;
  }

  lemma {:induction false} CallMeansPublished(ss: seq<Step>, e: nat)
    requires Feasible(ss) && CallsFor(State(ss), e) != []
    ensures PublishedIn(State(ss).published, e)
  {
    RunInv(ss);
    assert Own(State(ss).ledger, e).calls != EMPTY.calls;
  }
}
