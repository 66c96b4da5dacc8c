/** Concurrent calls of `deliver` for one user, with the force-fail flag on: each counts with INCR and sets the
    expiry with EXPIRE at a later await, and other calls, the expiry of the key or a crash may come between. */
module DeliveryRaces {
  import opened Wrappers
  import opened Delivery
  import opened HandlerSteps

  /** A call that has counted: when, and whether it read 1 and so will fail. */
  datatype Counted = Counted(at: int, failed: bool)

  /** The user's key, the calls that have counted, and the time at which each call that has yet to set the
      expiry counted. */
  datatype Key = Key(now: int, counter: Option<Counter>, log: seq<Counted>, open: map<nat, int>)

  /** A call that crashes, or whose EXPIRE throws, is one that never takes its `Expire` step. */
  datatype Step = Tick(ms: nat) | Incr(c: nat) | Expire(c: nat)

  const UNUSED: Key := Key(0, None, [], map[])

  predicate Enabled(k: Key, s: Step)
  {
    match s
    case Tick(_) => true
    case Incr(c) => c !in k.open
    case Expire(c) => c in k.open
  }

  function Next(k: Key, s: Step): Key
    requires Enabled(k, s)
  {
    match s
    case Tick(ms) => k.(now := k.now + ms)
    case Incr(c) =>
      var counter := AfterIncr(k.counter, k.now);
      k.(counter := Some(counter), log := k.log + [Counted(k.now, counter.count == 1)], open := k.open[c := k.now])
    case Expire(c) => k.(counter := AfterExpire(k.counter, FORCE_FAIL_WINDOW, k.now), open := k.open - {c})
  }

  /** A call that no other overlaps: it counts, time passes, and it sets the expiry, as far as Redis works. */
  function Alone(k: Key, c: nat, wait: nat, incr: Call, expire: Call): Key
    requires c !in k.open
  {
    var counted := if incr.Throws? then k else Next(k, Incr(c));
    var waited := Next(counted, Tick(wait));
    if incr.Done? && !expire.Throws? then Next(waited, Expire(c)) else waited
  }

  /** The service's method does to the key what such a call does here, and if Redis works it throws exactly when
      this call counts as failed. */
  lemma DeliverIsAlone(k: Key, c: nat, wait: nat, incr: Call, expire: Call)
    requires c !in k.open
    ensures var k' := Alone(k, c, wait, incr, expire);
            && k'.counter == KeyAfter(k.counter, k.now, k.now + wait, incr, expire)
            && (incr.Done? && expire.Done? ==>
                  |k'.log| == |k.log| + 1
                  && (k'.log[|k.log|].failed <==> ErrorOf(k.counter, k.now, incr, expire).Some?))
  {
  }

  predicate Feasible(ss: seq<Step>)
    decreases |ss|, 0
  {
    ss == [] || (Feasible(ss[..|ss| - 1]) && Enabled(State(ss[..|ss| - 1]), ss[|ss| - 1]))
  }

  function State(ss: seq<Step>): Key
    requires Feasible(ss)
    decreases |ss|, 1
  {
    if ss == [] then UNUSED else Next(State(ss[..|ss| - 1]), ss[|ss| - 1])
  }

  predicate FailuresApart(log: seq<Counted>)
  {
    forall i, j :: 0 <= i < j < |log| && log[i].failed && log[j].failed ==> log[j].at - log[i].at >= FORCE_FAIL_WINDOW
  }

  /** The key outlives the minute after a call at time `at`. */
  predicate Covers(counter: Option<Counter>, at: int)
  {
    counter.Some? && (counter.value.deadline.None? || counter.value.deadline.value >= at + FORCE_FAIL_WINDOW)
  }

  predicate Inv(k: Key)
  {
    && (k.counter.Some? ==> k.counter.value.count >= 1)
    && (forall i :: 0 <= i < |k.log| ==> k.log[i].at <= k.now && (k.log[i].failed ==> Covers(k.counter, k.log[i].at)))
    && (forall c <- k.open :: k.open[c] <= k.now)
    && FailuresApart(k.log)
  }

  lemma StepKeepsInv(k: Key, s: Step)
    requires Inv(k) && Enabled(k, s)
    ensures Inv(Next(k, s))
  {
  }

  /** Under every interleaving, with crashes, and however late the expiry is set: two simulated failures of one
      user are at least a minute apart. */
  lemma {:induction false} FailuresAreApart(ss: seq<Step>)
    requires Feasible(ss)
    ensures Inv(State(ss)) && FailuresApart(State(ss).log)
    decreases |ss|
  {
    if ss != [] {
      FailuresAreApart(ss[..|ss| - 1]);
      StepKeepsInv(State(ss[..|ss| - 1]), ss[|ss| - 1]);
    }
  }

  predicate Recent(k: Key, at: int)
  {
    at > k.now - FORCE_FAIL_WINDOW
  }

  /** A call now would fail although the user had one within the last minute. */
  predicate FailsAgain(k: Key)
  {
    !Alive(k.counter, k.now) && exists i :: 0 <= i < |k.log| && Recent(k, k.log[i].at)
  }

  /** The key is gone while a call of the last minute still has to set its expiry. */
  predicate Late(k: Key)
  {
    !Alive(k.counter, k.now) && exists c <- k.open :: Recent(k, k.open[c])
  }

  /** Every call of the last minute has set the expiry, or has yet to. */
  predicate SetOrOpen(k: Key)
  {
    forall i :: 0 <= i < |k.log| && Recent(k, k.log[i].at) ==>
      Covers(k.counter, k.log[i].at) || IsOpen(k, k.log[i].at)
  }

  predicate IsOpen(k: Key, at: int)
  {
    exists c <- k.open :: k.open[c] == at
  }

  /** Every call that has yet to set the expiry is in the log. */
  predicate OpenLogged(k: Key)
  {
    forall c <- k.open :: exists i :: 0 <= i < |k.log| && k.log[i].at == k.open[c]
  }

  lemma StepKeepsSetOrOpen(k: Key, s: Step)
    requires Inv(k) && SetOrOpen(k) && !Late(k) && Enabled(k, s)
    ensures SetOrOpen(Next(k, s))
  {
    var k' := Next(k, s);
    forall i | 0 <= i < |k'.log| && Recent(k', k'.log[i].at)
      ensures Covers(k'.counter, k'.log[i].at) || IsOpen(k', k'.log[i].at)
    {
      if s.Incr? && i == |k.log| {
        assert k'.open[s.c] == k'.log[i].at;
      } else if IsOpen(k, k.log[i].at) {
        var c :| c in k.open && k.open[c] == k.log[i].at;
        assert s == Expire(c) || (c in k'.open && k'.open[c] == k.log[i].at);
      }
    }
  }

  predicate NeverFailsAgain(ss: seq<Step>)
    requires Feasible(ss)
    decreases |ss|
  {
    !FailsAgain(State(ss)) && (ss != [] ==> NeverFailsAgain(ss[..|ss| - 1]))
  }

  predicate NeverLate(ss: seq<Step>)
    requires Feasible(ss)
    decreases |ss|
  {
    !Late(State(ss)) && (ss != [] ==> NeverLate(ss[..|ss| - 1]))
  }

  lemma LateFailsAgain(k: Key)
    requires OpenLogged(k)
    ensures Late(k) ==> FailsAgain(k)
    ensures SetOrOpen(k) && !Late(k) ==> !FailsAgain(k)
  {
    if Late(k) {
      var c :| c in k.open && Recent(k, k.open[c]);
      var i :| 0 <= i < |k.log| && k.log[i].at == k.open[c];
      assert Recent(k, k.log[i].at);
    }
  }

  lemma {:induction false} FailsAgainOnlyWhenLate(ss: seq<Step>)
    requires Feasible(ss)
    ensures OpenLogged(State(ss))
    ensures (ss == [] || NeverLate(ss[..|ss| - 1])) ==> SetOrOpen(State(ss))
    ensures NeverFailsAgain(ss) <==> NeverLate(ss)
    decreases |ss|
  {
    if ss != [] {
      var before := ss[..|ss| - 1];
      FailsAgainOnlyWhenLate(before);
      FailuresAreApart(before);
      OpenStaysLogged(State(before), ss[|ss| - 1]);
      if NeverLate(before) {
        StepKeepsSetOrOpen(State(before), ss[|ss| - 1]);
      }
    }
    LateFailsAgain(State(ss));
  }

  lemma OpenStaysLogged(k: Key, s: Step)
    requires OpenLogged(k) && Enabled(k, s)
    ensures OpenLogged(Next(k, s))
  {
    var k' := Next(k, s);
    forall c | c in k'.open ensures exists i :: 0 <= i < |k'.log| && k'.log[i].at == k'.open[c] {
      if s == Incr(c) {
        assert k'.log[|k.log|].at == k'.open[c];
      } else {
        var i :| 0 <= i < |k.log| && k.log[i].at == k.open[c];
        assert k'.log[i] == k.log[i];
      }
    }
  }

  /** One failure per group of calls, on its first, in exactly the runs in which the key is never gone while a
      call of the last minute still has to set its expiry: then, and only then, a call can never fail although
      its user had one within the last minute. */
  lemma {:induction false} FirstOnlyExactlyWhenNeverLate(ss: seq<Step>)
    requires Feasible(ss)
    ensures NeverFailsAgain(ss) <==> NeverLate(ss)
  {
    FailsAgainOnlyWhenLate(ss);
  }

  /** Every failed call is at least a minute after every call that counted before it. */
  predicate FailsAfterGap(log: seq<Counted>)
  {
    forall i, j :: 0 <= i < j < |log| && log[j].failed ==> log[j].at - log[i].at >= FORCE_FAIL_WINDOW
  }

  predicate FirstFails(log: seq<Counted>)
  {
    log != [] ==> log[0].failed
  }

  lemma StepFailsAfterGap(k: Key, s: Step)
    requires Inv(k) && FailsAfterGap(k.log) && !FailsAgain(k) && Enabled(k, s)
    ensures FailsAfterGap(Next(k, s).log)
  {
    if s.Incr? && !Alive(k.counter, k.now) {
      assert forall i :: 0 <= i < |k.log| ==> !Recent(k, k.log[i].at);
    }
  }

  /** The same about the calls that were made: in a run that is never late, a call that failed had none of its
      user within the minute before it; and in every run the first call of all fails. */
  lemma {:induction false} FailedCallsHadAGap(ss: seq<Step>)
    requires Feasible(ss)
    ensures FirstFails(State(ss).log) && (State(ss).log == [] ==> State(ss).counter.None?)
    ensures NeverLate(ss) ==> FailsAfterGap(State(ss).log)
    decreases |ss|
  {
    if ss != [] {
      var before, s := ss[..|ss| - 1], ss[|ss| - 1];
      FailedCallsHadAGap(before);
      FailuresAreApart(before);
      if NeverLate(ss) {
        FirstOnlyExactlyWhenNeverLate(before);
        StepFailsAfterGap(State(before), s);
      }
    }
  }

  /** Neighbouring calls counted less than a minute apart. */
  predicate CloseLog(log: seq<Counted>)
  {
    forall i :: 0 < i < |log| ==> log[i].at - log[i - 1].at < FORCE_FAIL_WINDOW
  }

  predicate FirstOnly(log: seq<Counted>)
  {
    forall i :: 0 <= i < |log| ==> (log[i].failed <==> i == 0)
  }

  lemma CloseCallSucceeds(log: seq<Counted>, i: nat)
    requires FailsAfterGap(log) && CloseLog(log) && 0 < i < |log|
    ensures !log[i].failed
  {
    assert log[i].at - log[i - 1].at < FORCE_FAIL_WINDOW;
  }

  /** If calls follow each other within a minute and are never late, exactly the first of them fails, however
      they overlap. */
  lemma {:induction false} OnlyTheFirstFails(ss: seq<Step>)
    requires Feasible(ss) && NeverLate(ss) && CloseLog(State(ss).log)
    ensures FirstOnly(State(ss).log)
  {
    FailedCallsHadAGap(ss);
    var log := State(ss).log;
    forall i | 0 <= i < |log| ensures log[i].failed <==> i == 0 {
      if i > 0 {
        CloseCallSucceeds(log, i);
      }
    }
  }

  /** A call within a minute of another that fails all the same: the second call counts a millisecond before
      the key expires and sets the expiry after. */
  lemma LateExpiryFailsAgain() returns (ss: seq<Step>)
    ensures Feasible(ss)
    ensures State(ss).log == [Counted(0, true), Counted(59_999, false), Counted(60_000, true)]
  {
    ss := [];
    ss := Then(ss, Incr(1), State(ss));
    ss := Then(ss, Expire(1), State(ss));
    ss := Then(ss, Tick(59_999), State(ss));
    ss := Then(ss, Incr(2), State(ss));
    ss := Then(ss, Tick(1), State(ss));
    ss := Then(ss, Expire(2), State(ss));
    ss := Then(ss, Incr(3), State(ss));
  }

  lemma Then(ss: seq<Step>, s: Step, k: Key) returns (all: seq<Step>)
    requires Feasible(ss) && k == State(ss) && Enabled(k, s)
    ensures Feasible(all) && State(all) == Next(k, s)
  {
    all := ss + [s];
    assert all[..|ss|] == ss;
  }

  /** Every call sets the expiry within `delay` of counting, or has not had that long. */
  predicate Prompt(ss: seq<Step>, delay: nat)
    requires Feasible(ss)
    decreases |ss|
  {
    && (forall c <- State(ss).open :: State(ss).open[c] >= State(ss).now - delay)
    && (ss != [] ==> Prompt(ss[..|ss| - 1], delay))
  }

  /** What keeps the key alive is a call: one that has yet to set the expiry, or the one that set it. */
  predicate KeptByACall(k: Key, delay: nat)
  {
    k.counter.Some? ==>
      if k.counter.value.deadline.None? then k.open != map[]
      else exists i :: 0 <= i < |k.log| && k.log[i].at >= k.counter.value.deadline.value - FORCE_FAIL_WINDOW - delay
  }

  lemma StepKeepsKept(k: Key, s: Step, delay: nat)
    requires KeptByACall(k, delay) && OpenLogged(k) && Enabled(k, s)
    requires forall c <- k.open :: k.open[c] >= k.now - delay
    ensures KeptByACall(Next(k, s), delay)
  {
    var k' := Next(k, s);
    if s.Expire? {
      var i :| 0 <= i < |k.log| && k.log[i].at == k.open[s.c];
      assert k'.log[i].at >= k.now - delay;
    } else if s.Incr? {
      assert s.c in k'.open;
      if Alive(k.counter, k.now) && k.counter.value.deadline.Some? {
        var i :| 0 <= i < |k.log| && k.log[i].at >= k.counter.value.deadline.value - FORCE_FAIL_WINDOW - delay;
        assert k'.log[i] == k.log[i];
      }
    }
  }

  lemma {:induction false} PromptIsKept(ss: seq<Step>, delay: nat)
    requires Feasible(ss) && Prompt(ss, delay)
    ensures KeptByACall(State(ss), delay)
    decreases |ss|
  {
    if ss != [] {
      var before := ss[..|ss| - 1];
      PromptIsKept(before, delay);
      FailsAgainOnlyWhenLate(before);
      StepKeepsKept(State(before), ss[|ss| - 1], delay);
    }
  }

  /** The other direction: if every call sets the expiry within `delay`, the next call of a user who had none
      within a minute and the delay fails. */
  lemma {:induction false} QuietUserFails(ss: seq<Step>, delay: nat)
    requires Feasible(ss) && Prompt(ss, delay)
    requires forall i :: 0 <= i < |State(ss).log| ==> State(ss).log[i].at <= State(ss).now - FORCE_FAIL_WINDOW - delay
    ensures AfterIncr(State(ss).counter, State(ss).now).count == 1
  {
    PromptIsKept(ss, delay);
    FailsAgainOnlyWhenLate(ss);
  }
}
