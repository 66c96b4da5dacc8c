/** What the retry protocol sees of one user's force-fail key: the answers of calls of `deliver` that overlap
    as in `DeliveryRaces`, in whatever order they come back. */
module DeliveryAnswers {
  import opened Wrappers
  import opened Lifecycle
  import opened Delivery
  import opened Contracts
  import Races = DeliveryRaces

  /** When each answered call counted, and whether it failed. */
  function Outcomes(own: seq<DeliverCall>): seq<Races.Counted>
    ensures |Outcomes(own)| == |own|
    decreases |own|
  {
    if own == [] then [] else
      var n := |own| - 1;
      Outcomes(own[..n]) + [Races.Counted(own[n].at, own[n].err.Some?)]
  }

  /** The answered calls are among those that counted; the others have yet to set the expiry. */
  predicate AnsweredBy(own: seq<DeliverCall>, k: Races.Key)
  {
    multiset(Outcomes(own)) <= multiset(k.log) && |own| + |k.open| == |k.log|
  }

  /** The answers are those of a run of overlapping calls, each less than a minute after the one before, in
      which no expiry is set late. */
  ghost predicate SimulatedBy(own: seq<DeliverCall>, ss: seq<Races.Step>)
  {
    && Races.Feasible(ss) && Races.NeverLate(ss) && Races.CloseLog(Races.State(ss).log)
    && AnsweredBy(own, Races.State(ss))
  }

  ghost predicate Simulated(own: seq<DeliverCall>)
  {
    exists ss :: SimulatedBy(own, ss)
  }

  /** And no call is still on its way. */
  ghost predicate AllSimulated(own: seq<DeliverCall>)
  {
    exists ss :: SimulatedBy(own, ss) && Races.State(ss).open == map[]
  }

  function FailedIn(log: seq<Races.Counted>): nat
    decreases |log|
  {
    if log == [] then 0 else FailedIn(log[..|log| - 1]) + if log[|log| - 1].failed then 1 else 0
  }

  lemma {:induction false} FailedOutcomes(own: seq<DeliverCall>)
    ensures FailedIn(Outcomes(own)) == CountFailed(own)
    decreases |own|
  {
    if own != [] {
      FailedOutcomes(own[..|own| - 1]);
      assert Outcomes(own)[..|own| - 1] == Outcomes(own[..|own| - 1]);
    }
  }

  lemma {:induction false} FailedWithout(log: seq<Races.Counted>, j: nat)
    requires j < |log|
    ensures FailedIn(log) == FailedIn(log[..j] + log[j + 1..]) + if log[j].failed then 1 else 0
    decreases |log|
  {
    var n := |log| - 1;
    if j == n {
      assert log[..j] + log[j + 1..] == log[..n];
    } else {
      FailedWithout(log[..n], j);
      var rest, shorter := log[..j] + log[j + 1..], log[..n][..j] + log[..n][j + 1..];
      assert |rest| == n && |shorter| == n - 1;
      forall i | 0 <= i < n - 1 ensures rest[i] == shorter[i] {
        assert rest[i] == if i < j then log[i] else log[i + 1];
      }
      assert rest[..n - 1] == shorter && rest[n - 1] == log[n];
    }
  }

  lemma OneLess<T>(x: multiset<T>, y: multiset<T>, e: T, x': multiset<T>, y': multiset<T>)
    requires x' == x + multiset{e} && y' == y + multiset{e} && x' <= y'
    ensures x <= y
  {
    forall t: T ensures x[t] <= y[t] {
      assert x'[t] <= y'[t];
    }
  }

  /** Fewer calls have fewer failures, and the same calls as many, in any order. */
  lemma {:induction false} FewerFail(a: seq<Races.Counted>, b: seq<Races.Counted>)
    requires multiset(a) <= multiset(b)
    ensures FailedIn(a) <= FailedIn(b) && (|a| == |b| ==> FailedIn(a) == FailedIn(b))
    decreases |a|
  {
    if a != [] {
      var n := |a| - 1;
      assert a == a[..n] + [a[n]];
      assert a[n] in multiset(b);
      var j :| 0 <= j < |b| && b[j] == a[n];
      var rest := b[..j] + b[j + 1..];
      assert b == b[..j] + [b[j]] + b[j + 1..];
      assert multiset(b) == multiset(rest) + multiset{a[n]};
      assert multiset(a) == multiset(a[..n]) + multiset{a[n]};
      OneLess(multiset(a[..n]), multiset(rest), a[n], multiset(a), multiset(b));
      FewerFail(a[..n], rest);
      FailedWithout(b, j);
    }
  }

  lemma {:induction false} FirstOnlyCounts(log: seq<Races.Counted>)
    requires Races.FirstOnly(log)
    ensures FailedIn(log) == if log == [] then 0 else 1
    decreases |log|
  {
    if log != [] {
      FirstOnlyCounts(log[..|log| - 1]);
    }
  }

  lemma FailsOnceBy(own: seq<DeliverCall>, ss: seq<Races.Step>)
    requires SimulatedBy(own, ss)
    ensures CountFailed(own) <= 1
    ensures Races.State(ss).open == map[] ==> CountFailed(own) == if own == [] then 0 else 1
  {
    Races.OnlyTheFirstFails(ss);
    FailsOnceOf(own, Races.State(ss));
  }

  lemma FailsOnceOf(own: seq<DeliverCall>, k: Races.Key)
    requires AnsweredBy(own, k)
    requires Races.FirstOnly(k.log)
    ensures CountFailed(own) <= 1
    ensures k.open == map[] ==> CountFailed(own) == if own == [] then 0 else 1
  {
    FailedOutcomes(own);
    FirstOnlyCounts(k.log);
    FewerFail(Outcomes(own), k.log);
  }

  /** Of a user's overlapping calls at most one fails; when all are answered, exactly one. */
  lemma FailsOnce(own: seq<DeliverCall>)
    ensures Simulated(own) ==> CountFailed(own) <= 1
    ensures AllSimulated(own) ==> CountFailed(own) == if own == [] then 0 else 1
  {
    if Simulated(own) {
      var ss :| SimulatedBy(own, ss);
      FailsOnceBy(own, ss);
    }
    if AllSimulated(own) {
      var ss :| SimulatedBy(own, ss) && Races.State(ss).open == map[];
      FailsOnceBy(own, ss);
    }
  }

  predicate InOrder(own: seq<DeliverCall>)
  {
    && (own != [] ==> own[0].at >= 0)
    && forall i :: 0 < i < |own| ==> own[i].at >= own[i - 1].at
  }

  /** The key after calls of which none has overlapped another. */
  predicate Rests(own: seq<DeliverCall>, k: Races.Key)
  {
    && k.log == Outcomes(own) && k.open == map[]
    && if own == [] then k.now == 0 && k.counter.None? else
         && k.now == own[|own| - 1].at
         && k.counter.Some? && k.counter.value.count >= 1
         && k.counter.value.deadline == Some(k.now + FORCE_FAIL_WINDOW)
  }

  lemma Then(ss: seq<Races.Step>, s: Races.Step, k: Races.Key) returns (all: seq<Races.Step>)
    requires Races.Feasible(ss) && Races.NeverLate(ss) && k == Races.State(ss)
    requires Races.Enabled(k, s) && !Races.Late(Races.Next(k, s))
    ensures Races.Feasible(all) && Races.NeverLate(all) && Races.State(all) == Races.Next(k, s)
  {
    all := ss + [s];
    assert all[..|ss|] == ss;
  }

  /** Calls of which none overlaps another, and which follow the rule of `Delivery`, are such a run. */
  lemma {:induction false} UninterruptedRun(own: seq<DeliverCall>) returns (ss: seq<Races.Step>)
    requires FirstOfClusterFails(own) && InOrder(own)
    ensures Races.Feasible(ss) && Races.NeverLate(ss) && Rests(own, Races.State(ss))
    decreases |own|
  {
    if own == [] {
      ss := [];
    } else {
      RulePrefix(own);
      ss := UninterruptedRun(own[..|own| - 1]);
      OneCallRests(own, Races.State(ss));
      ss := OneCall(ss, own[|own| - 1].at, Races.State(ss));
    }
  }

  /** The key after a call at time `at` that nothing interrupts. */
  function Called(k: Races.Key, at: int): Races.Key
    requires at >= k.now && k.open == map[]
  {
    Races.Next(Races.Next(Races.Next(k, Races.Tick(at - k.now)), Races.Incr(0)), Races.Expire(0))
  }

  lemma OneCallRests(own: seq<DeliverCall>, k: Races.Key)
    requires own != [] && FirstOfClusterFails(own) && InOrder(own) && Rests(own[..|own| - 1], k)
    ensures own[|own| - 1].at >= k.now && Rests(own, Called(k, own[|own| - 1].at))
  {
    var n := |own| - 1;
    assert n > 0 ==> own[n].at >= own[n - 1].at;
    assert own[n].err.Some? <==> FailsAt(own[..n], own[n].at);
  }

  lemma OneCall(ss: seq<Races.Step>, at: int, k: Races.Key) returns (all: seq<Races.Step>)
    requires Races.Feasible(ss) && Races.NeverLate(ss) && k == Races.State(ss) && k.open == map[] && at >= k.now
    ensures Races.Feasible(all) && Races.NeverLate(all) && Races.State(all) == Called(k, at)
  {
    NotLate(k, at);
    var ticked := Races.Next(k, Races.Tick(at - k.now));
    var first := Then(ss, Races.Tick(at - k.now), k);
    var second := Then(first, Races.Incr(0), ticked);
    all := Then(second, Races.Expire(0), Races.Next(ticked, Races.Incr(0)));
  }

  lemma NotLate(k: Races.Key, at: int)
    requires at >= k.now && k.open == map[]
    ensures var ticked := Races.Next(k, Races.Tick(at - k.now));
            !Races.Late(ticked) && !Races.Late(Races.Next(ticked, Races.Incr(0))) && !Races.Late(Called(k, at))
  {
    assert Called(k, at).open == map[];
  }

  lemma RulePrefix(own: seq<DeliverCall>)
    requires FirstOfClusterFails(own) && InOrder(own) && own != []
    ensures FirstOfClusterFails(own[..|own| - 1]) && InOrder(own[..|own| - 1])
  {
    var before := own[..|own| - 1];
    forall i | 0 <= i < |before| ensures before[i].err.Some? <==> FailsAt(before[..i], before[i].at) {
      assert before[..i] == own[..i];
    }
  }

  lemma {:induction false} OutcomeAt(own: seq<DeliverCall>, i: nat)
    requires i < |own|
    ensures Outcomes(own)[i] == Races.Counted(own[i].at, own[i].err.Some?)
    decreases |own|
  {
    if i < |own| - 1 {
      OutcomeAt(own[..|own| - 1], i);
    }
  }

  /** So what `Deliver` does, called again and again in order of time, is a special case: each user's calls are
      simulated as soon as they are less than a minute apart. */
  lemma SequentialIsSimulated(calls: seq<DeliverCall>, u: UserId)
    requires Forced(calls) && Close(CallsOfUser(calls, u)) && InOrder(CallsOfUser(calls, u))
    ensures AllSimulated(CallsOfUser(calls, u)) && Simulated(CallsOfUser(calls, u))
  {
    var own := CallsOfUser(calls, u);
    OneFailurePerCluster(calls, u);
    var ss := UninterruptedRun(own);
    var log := Races.State(ss).log;
    forall i | 0 < i < |log| ensures log[i].at - log[i - 1].at < FORCE_FAIL_WINDOW {
      OutcomeAt(own, i);
      OutcomeAt(own, i - 1);
    }
    assert SimulatedBy(own, ss);
  }
}
