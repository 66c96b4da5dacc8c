/** Monotonic reads through a cached key: that a read begun after an answer is never older than that answer.
    It is false of the services; this module says in exactly which runs it holds. Older and newer are meant
    of versions, that is of commits. */
module MonotonicReads {
  import opened Wrappers
  import opened CacheAside

  predicate NoneNewer<V>(replies: seq<Reply<V>>, version: nat)
  {
    forall i :: 0 <= i < |replies| ==> replies[i].version <= version
  }

  /** The entry a reader would get now is older than an answer already given. */
  predicate CanGoBack<V>(p: Policy<V>, c: Cell<V>)
  {
    Hit(p, c) && !NoneNewer(c.replies, c.cache.value.version)
  }

  /** A reader that sets the cache holds nothing older than an answer already given; one that only answers
      holds nothing newer than the live entry. */
  predicate GoesForward<V>(p: Policy<V>, c: Cell<V>, s: Step<V>)
  {
    match s
    case Fill(r) => r in c.readers && c.readers[r].Holding? && NoneNewer(c.replies, c.readers[r].version)
    case AnswerOnly(r) =>
      r in c.readers && c.readers[r].Holding? && (Hit(p, c) ==> c.readers[r].version <= c.cache.value.version)
    case _ => true
  }

  lemma GoesBackExactly<V>(p: Policy<V>, c: Cell<V>, s: Step<V>)
    requires p.ttl > 0 && Enabled(p, c, s) && !CanGoBack(p, c)
    ensures !CanGoBack(p, Next(p, c, s)) <==> GoesForward(p, c, s)
  {
    if (s.Fill? || s.AnswerOnly?) && s.r in c.readers {
      OneMore(c.replies, ReplyOf(c, s.r), c.readers[s.r].version);
      if c.cache.Some? {
        OneMore(c.replies, ReplyOf(c, s.r), c.cache.value.version);
      }
    }
  }

  lemma OneMore<V>(replies: seq<Reply<V>>, a: Reply<V>, version: nat)
    ensures NoneNewer(replies + [a], version) <==> NoneNewer(replies, version) && a.version <= version
  {
    var all := replies + [a];
    assert all[|replies|] == a && forall i :: 0 <= i < |replies| ==> all[i] == replies[i];
  }

  ghost predicate NeverCanGoBack<V>(p: Policy<V>, v: V, at: int, ss: seq<Step<V>>)
    requires Feasible(p, v, at, ss)
    decreases |ss|
  {
    !CanGoBack(p, State(p, v, at, ss)) && (ss != [] ==> NeverCanGoBack(p, v, at, ss[..|ss| - 1]))
  }

  ghost predicate AlwaysForward<V>(p: Policy<V>, v: V, at: int, ss: seq<Step<V>>)
    requires Feasible(p, v, at, ss)
    decreases |ss|
  {
    ss != [] ==>
      var before, s := ss[..|ss| - 1], ss[|ss| - 1];
      AlwaysForward(p, v, at, before) && GoesForward(p, State(p, v, at, before), s)
  }

  lemma {:induction false} NeverBackExactlyWhenForward<V>(p: Policy<V>, v: V, at: int, ss: seq<Step<V>>)
    requires p.ttl > 0 && Feasible(p, v, at, ss)
    ensures NeverCanGoBack(p, v, at, ss) <==> AlwaysForward(p, v, at, ss)
    decreases |ss|
  {
    if ss != [] {
      var before := ss[..|ss| - 1];
      NeverBackExactlyWhenForward(p, v, at, before);
      if NeverCanGoBack(p, v, at, before) {
        GoesBackExactly(p, State(p, v, at, before), ss[|ss| - 1]);
      }
    }
  }

  /** A read that began after an answer was given is never older than that answer. */
  predicate Monotonic<V>(replies: seq<Reply<V>>)
  {
    forall i, j :: 0 <= i < |replies| && 0 <= j < |replies| && i < replies[j].since
      ==> replies[i].version <= replies[j].version
  }

  /** Nothing older than the first `since` answers. */
  predicate AheadOf<V>(version: nat, replies: seq<Reply<V>>, since: nat)
  {
    since <= |replies| && forall i :: 0 <= i < since ==> replies[i].version <= version
  }

  /** The readers in flight will answer nothing older than what had been answered when they began. */
  predicate ReadersAhead<V>(c: Cell<V>)
  {
    && (forall r <- c.readers :: c.readers[r].since <= |c.replies|)
    && (forall r <- c.readers :: c.readers[r].Holding? ==>
          AheadOf(c.readers[r].version, c.replies, c.readers[r].since))
    && (forall j :: 0 <= j < |c.replies| ==> c.replies[j].since <= j)
  }

  lemma AnswerKeepsMonotonic<V>(replies: seq<Reply<V>>, a: Reply<V>)
    requires Monotonic(replies) && AheadOf(a.version, replies, a.since)
    requires forall j :: 0 <= j < |replies| ==> replies[j].since <= j
    ensures Monotonic(replies + [a])
  {
  }

  lemma StillAhead<V>(version: nat, replies: seq<Reply<V>>, more: seq<Reply<V>>, since: nat)
    requires AheadOf(version, replies, since)
    ensures AheadOf(version, replies + more, since)
  {
  }

  lemma LatestIsAhead<V>(p: Policy<V>, c: Cell<V>, since: nat)
    requires Inv(p, c) && since <= |c.replies|
    ensures AheadOf(Latest(c), c.replies, since)
  {
    forall i: nat | i < since ensures c.replies[i].version <= Latest(c) {
      assert ReplyOk(p, c.history, c.replies[i]);
    }
  }

  lemma StepKeepsReadersAhead<V>(p: Policy<V>, c: Cell<V>, s: Step<V>)
    requires Inv(p, c) && Enabled(p, c, s) && ReadersAhead(c)
    ensures ReadersAhead(Next(p, c, s))
  {
    var c' := Next(p, c, s);
    assert c'.replies == c.replies + c'.replies[|c.replies|..];
    forall r | r in c'.readers && c'.readers[r].Holding?
      ensures AheadOf(c'.readers[r].version, c'.replies, c'.readers[r].since)
    {
      if s == Read(r) {
        LatestIsAhead(p, c, c.readers[r].since);
      } else {
        StillAhead(c.readers[r].version, c.replies, c'.replies[|c.replies|..], c.readers[r].since);
      }
    }
  }

  lemma StepKeepsMonotonic<V>(p: Policy<V>, c: Cell<V>, s: Step<V>)
    requires Inv(p, c) && Enabled(p, c, s) && !CanGoBack(p, c)
    requires Monotonic(c.replies) && ReadersAhead(c)
    ensures Monotonic(Next(p, c, s).replies) && ReadersAhead(Next(p, c, s))
  {
    StepKeepsReadersAhead(p, c, s);
    match s
    case Get(_) =>
      if Hit(p, c) {
        AnswerKeepsMonotonic(c.replies, Next(p, c, s).replies[|c.replies|]);
      }
    case Fill(r) => AnswerKeepsMonotonic(c.replies, ReplyOf(c, r));
    case AnswerOnly(r) => AnswerKeepsMonotonic(c.replies, ReplyOf(c, r));
    case _ =>
  }

  lemma {:induction false} MonotonicWhenNeverBack<V>(p: Policy<V>, v: V, at: int, ss: seq<Step<V>>)
    requires Feasible(p, v, at, ss) && NeverCanGoBack(p, v, at, ss)
    ensures Monotonic(State(p, v, at, ss).replies) && ReadersAhead(State(p, v, at, ss))
    decreases |ss|
  {
    if ss != [] {
      var before := ss[..|ss| - 1];
      MonotonicWhenNeverBack(p, v, at, before);
      RunKeepsInv(p, v, at, before);
      StepKeepsMonotonic(p, State(p, v, at, before), ss[|ss| - 1]);
    }
  }

  lemma {:induction false} UnusedKey<T>(m: map<nat, T>) returns (r: nat)
    ensures forall n <- m :: n < r
    decreases |m|
  {
    if m == map[] {
      r := 0;
    } else {
      var n :| n in m;
      assert |m - {n}| < |m|;
      var rest := UnusedKey(m - {n});
      r := rest + n + 1;
      assert forall k :: k in m ==> k == n || k in m - {n};
    }
  }

  /** Where a read can go back, the next reader's does. */
  lemma BackIsReachable<V>(p: Policy<V>, v: V, at: int, ss: seq<Step<V>>) returns (r: nat)
    requires Feasible(p, v, at, ss) && CanGoBack(p, State(p, v, at, ss))
    ensures Feasible(p, v, at, ss + [Get(r)])
    ensures !Monotonic(State(p, v, at, ss + [Get(r)]).replies)
  {
    var c := State(p, v, at, ss);
    r := UnusedKey(c.readers);
    Extend(p, v, at, ss, Get(r));
    var i :| 0 <= i < |c.replies| && c.replies[i].version > c.cache.value.version;
    var a := Next(p, c, Get(r)).replies;
    assert a[i] == c.replies[i] && a[|c.replies|].version == c.cache.value.version;
  }

  /** Whoever reads next, the answers stay monotonic. */
  ghost predicate NextReadIsMonotonic<V>(p: Policy<V>, c: Cell<V>)
  {
    forall r: nat :: Enabled(p, c, Get(r)) ==> Monotonic(Next(p, c, Get(r)).replies)
  }

  ghost predicate AlwaysMonotonic<V>(p: Policy<V>, v: V, at: int, ss: seq<Step<V>>)
    requires Feasible(p, v, at, ss)
    decreases |ss|
  {
    NextReadIsMonotonic(p, State(p, v, at, ss)) && (ss != [] ==> AlwaysMonotonic(p, v, at, ss[..|ss| - 1]))
  }

  lemma MonotonicNow<V>(p: Policy<V>, v: V, at: int, ss: seq<Step<V>>)
    requires Feasible(p, v, at, ss)
    requires NeverCanGoBack(p, v, at, ss)
    ensures NextReadIsMonotonic(p, State(p, v, at, ss))
  {
    var c := State(p, v, at, ss);
    MonotonicWhenNeverBack(p, v, at, ss);
    RunKeepsInv(p, v, at, ss);
    forall r: nat | Enabled(p, c, Get(r)) ensures Monotonic(Next(p, c, Get(r)).replies) {
      StepKeepsMonotonic(p, c, Get(r));
    }
  }

  lemma {:induction false} MonotonicExactlyWhenNeverBack<V>(p: Policy<V>, v: V, at: int, ss: seq<Step<V>>)
    requires Feasible(p, v, at, ss)
    ensures AlwaysMonotonic(p, v, at, ss) <==> NeverCanGoBack(p, v, at, ss)
    decreases |ss|
  {
    if ss != [] {
      MonotonicExactlyWhenNeverBack(p, v, at, ss[..|ss| - 1]);
    }
    if CanGoBack(p, State(p, v, at, ss)) {
      var r := BackIsReachable(p, v, at, ss);
      Extend(p, v, at, ss, Get(r));
    } else if NeverCanGoBack(p, v, at, ss) {
      MonotonicNow(p, v, at, ss);
    }
  }

  /** Reads are monotonic at every moment of a run, whoever reads next, exactly when at each of its steps a
      reader that sets the cache holds nothing older than an answer already given, and a reader that only
      answers holds nothing newer than the live entry. (Redis refuses an expiry of 0.) */
  lemma MonotonicExactlyWhenForward<V>(p: Policy<V>, v: V, at: int, ss: seq<Step<V>>)
    requires p.ttl > 0 && Feasible(p, v, at, ss)
    ensures AlwaysMonotonic(p, v, at, ss) <==> AlwaysForward(p, v, at, ss)
  {
    MonotonicExactlyWhenNeverBack(p, v, at, ss);
    NeverBackExactlyWhenForward(p, v, at, ss);
  }

  /** Every value a writer can commit is cached by the readers that find it. */
  ghost predicate StoresEveryWrite<V(!new)>(p: Policy<V>)
  {
    forall a: V, b: V :: p.allowed(a, b) ==> p.storable(b)
  }

  /** There was no commit between the table read and the set of any reader that set the cache. */
  ghost predicate Undisturbed<V>(p: Policy<V>, v: V, at: int, ss: seq<Step<V>>)
    requires Feasible(p, v, at, ss)
    decreases |ss|
  {
    ss != [] ==>
      var before, s := ss[..|ss| - 1], ss[|ss| - 1];
      var c := State(p, v, at, before);
      Undisturbed(p, v, at, before)
      && (s.Fill? ==> s.r in c.readers && c.readers[s.r].Holding? && c.readers[s.r].version + 1 == |c.history|)
  }

  lemma WrittenIsStored<V(!new)>(p: Policy<V>, c: Cell<V>, n: nat)
    requires StoresEveryWrite(p) && HistoryOk(p, c) && 0 < n < |c.history|
    ensures p.storable(c.history[n].value)
  {
    assert p.allowed(c.history[n - 1].value, c.history[n - 1 + 1].value);
  }

  lemma UndisturbedStep<V(!new)>(p: Policy<V>, c: Cell<V>, s: Step<V>)
    requires StoresEveryWrite(p) && Inv(p, c) && Enabled(p, c, s)
    requires s.Fill? ==> c.readers[s.r].version == Latest(c)
    ensures GoesForward(p, c, s) && (s.Fill? ==> FreshFill(c, s.r))
  {
    if s.Fill? {
      forall i: nat | i < |c.replies| ensures c.replies[i].version <= Latest(c) {
        assert ReplyOk(p, c.history, c.replies[i]);
      }
    } else if s.AnswerOnly? {
      if c.readers[s.r].version > 0 {
        WrittenIsStored(p, c, c.readers[s.r].version);
      }
    }
  }

  lemma {:induction false} UndisturbedGoesForward<V(!new)>(p: Policy<V>, v: V, at: int, ss: seq<Step<V>>)
    requires StoresEveryWrite(p) && Feasible(p, v, at, ss) && Undisturbed(p, v, at, ss)
    ensures AlwaysForward(p, v, at, ss) && FillsFresh(p, v, at, ss)
    decreases |ss|
  {
    if ss != [] {
      var before := ss[..|ss| - 1];
      UndisturbedGoesForward(p, v, at, before);
      RunKeepsInv(p, v, at, before);
      UndisturbedStep(p, State(p, v, at, before), ss[|ss| - 1]);
    }
  }

  /** A condition on the schedule alone that gives both: if no commit falls between a reader's table read and
      its set, the cache is coherent and reads are monotonic, at every moment. */
  lemma UndisturbedReads<V(!new)>(p: Policy<V>, v: V, at: int, ss: seq<Step<V>>)
    requires p.ttl > 0 && StoresEveryWrite(p) && Feasible(p, v, at, ss) && Undisturbed(p, v, at, ss)
    ensures AlwaysCoherent(p, v, at, ss) && AlwaysMonotonic(p, v, at, ss)
    ensures Monotonic(State(p, v, at, ss).replies)
  {
    UndisturbedGoesForward(p, v, at, ss);
    CoherentExactlyWhenFillsFresh(p, v, at, ss);
    MonotonicExactlyWhenForward(p, v, at, ss);
    MonotonicExactlyWhenNeverBack(p, v, at, ss);
    MonotonicWhenNeverBack(p, v, at, ss);
  }

  /** The run of a slow and a fast reader around a commit, up to the fast reader's answer. */
  function SlowReader<V>(b: V): seq<Step<V>>
  {
    [Get(1), Read(1), Commit(7, b), Del(7), Get(2), Read(2), Fill(2)]
  }

  /** The slow reader has yet to answer; the fast one has answered and set the newer state. */
  function SlowReaderLeft<V>(a: V, b: V): Cell<V>
  {
    Cell(0, [Version(a, 0), Version(b, 0)], Some(Entry(b, 1, 0, 0)), map[1 := Holding(0, 0, 0)], map[],
         [Reply(b, 1, 0, 0, 0)])
  }

  lemma Appended<V>(p: Policy<V>, v: V, at: int, ss: seq<Step<V>>, s: Step<V>, all: seq<Step<V>>, c: Cell<V>)
    requires Feasible(p, v, at, ss) && State(p, v, at, ss) == c && Enabled(p, c, s) && all == ss + [s]
    ensures Feasible(p, v, at, all) && State(p, v, at, all) == Next(p, c, s)
  {
    Extend(p, v, at, ss, s);
  }

  lemma CommittedWhileHeld<V>(p: Policy<V>, a: V, b: V)
    requires p.allowed(a, b)
    ensures Feasible(p, a, 0, SlowReader(b)[..4])
    ensures State(p, a, 0, SlowReader(b)[..4])
         == Cell(0, [Version(a, 0), Version(b, 0)], None, map[1 := Holding(0, 0, 0)], map[], [])
  {
    var ss := SlowReader(b);
    var read := Cell(0, [Version(a, 0)], None, map[1 := Holding(0, 0, 0)], map[], []);
    Appended(p, a, 0, [], Get(1), ss[..1], Start(a, 0));
    Appended(p, a, 0, ss[..1], Read(1), ss[..2], State(p, a, 0, ss[..1]));
    assert State(p, a, 0, ss[..2]) == read;
    Appended(p, a, 0, ss[..2], Commit(7, b), ss[..3], read);
    Appended(p, a, 0, ss[..3], Del(7), ss[..4], Next(p, read, Commit(7, b)));
  }

  lemma AnsweredWhileHeld<V>(p: Policy<V>, a: V, b: V)
    requires p.allowed(a, b) && p.storable(b)
    ensures Feasible(p, a, 0, SlowReader(b)) && State(p, a, 0, SlowReader(b)) == SlowReaderLeft(a, b)
  {
    var ss := SlowReader(b);
    CommittedWhileHeld(p, a, b);
    var c := State(p, a, 0, ss[..4]);
    Appended(p, a, 0, ss[..4], Get(2), ss[..5], c);
    Appended(p, a, 0, ss[..5], Read(2), ss[..6], Next(p, c, Get(2)));
    Appended(p, a, 0, ss[..6], Fill(2), ss[..7], Next(p, Next(p, c, Get(2)), Read(2)));
    assert ss[..7] == ss;
  }

  /** Monotonic reads do not hold: under every policy with a change from one storable value to another, a slow
      reader puts the older one back over the newer one, and a third reader, who began after the newer one
      was answered, gets the older one. */
  lemma ReadsCanGoBack<V>(p: Policy<V>, a: V, b: V) returns (ss: seq<Step<V>>)
    requires p.ttl > 0 && p.allowed(a, b) && p.storable(a) && p.storable(b) && a != b
    ensures Feasible(p, a, 0, ss)
    ensures var answers := State(p, a, 0, ss).replies;
            && |answers| == 3 && answers[0].value == b && answers[2].value == a && answers[2].since == 2
            && !Monotonic(answers) && Current(State(p, a, 0, ss)) == b
    ensures !AlwaysCoherent(p, a, 0, ss)
  {
    AnsweredWhileHeld(p, a, b);
    var c := SlowReaderLeft(a, b);
    var back := SlowReader(b) + [Fill(1)];
    Appended(p, a, 0, SlowReader(b), Fill(1), back, c);
    ss := back + [Get(3)];
    Appended(p, a, 0, back, Get(3), ss, Next(p, c, Fill(1)));
    assert ss[..|ss| - 1] == back;
    assert !Coherent(Next(p, c, Fill(1)));
  }
}
