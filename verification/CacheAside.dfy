/** One cached key over one user's rows, with readers and writers interleaved at every await.
    Readers: cache get, table read, cache set with expiry. Writers: commit, then delete the key.
    A call that throws, or a process that dies, is a reader or writer that takes no further step. */
module CacheAside {
  import opened Wrappers

  /** A committed state of the user's rows and when it was committed. */
  datatype Version<V> = Version(value: V, at: int)

  /** What the cache holds, when it was set, and (for the properties) which version was read when. */
  datatype Entry<V> = Entry(value: V, version: nat, readAt: int, setAt: int)

  /** A reader in flight and an answer given; `since` counts the answers given before that reader began. */
  datatype Reader = Missed(since: nat) | Holding(version: nat, readAt: int, since: nat)
  datatype Reply<V> = Reply(value: V, version: nat, readAt: int, at: int, since: nat)

  datatype Cell<V> = Cell(now: int, history: seq<Version<V>>, cache: Option<Entry<V>>,
                          readers: map<nat, Reader>, dirty: map<nat, nat>, replies: seq<Reply<V>>)

  /** A service's policy: its expiry, how long a reader may take from its table read to its answer, which
      values it caches, and which commits its writers make. */
  datatype Policy<!V> = Policy(ttl: nat, lag: nat, storable: V -> bool, allowed: (V, V) -> bool)

  datatype Step<V> = Tick(ms: nat)
                   | Get(r: nat)
                   | Read(r: nat)
                   | Fill(r: nat)
                   | AnswerOnly(r: nat)
                   | Commit(w: nat, value: V)
                   | Del(w: nat)
                   | Evict

  function Latest<V>(c: Cell<V>): nat
    requires c.history != []
  {
    |c.history| - 1
  }

  function Current<V>(c: Cell<V>): V
    requires c.history != []
  {
    c.history[Latest(c)].value
  }

  predicate Hit<V>(p: Policy<V>, c: Cell<V>)
  {
    c.cache.Some? && c.now < c.cache.value.setAt + p.ttl
  }

  predicate Answering<V>(p: Policy<V>, c: Cell<V>, r: nat)
  {
    r in c.readers && c.readers[r].Holding? && c.readers[r].version < |c.history|
    && c.now - c.readers[r].readAt <= p.lag
  }

  predicate Enabled<V>(p: Policy<V>, c: Cell<V>, s: Step<V>)
  {
    c.history != [] &&
    match s
    case Tick(_) => true
    case Get(r) => r !in c.readers
    case Read(r) => r in c.readers && c.readers[r].Missed?
    case Fill(r) => Answering(p, c, r) && p.storable(c.history[c.readers[r].version].value)
    case AnswerOnly(r) => Answering(p, c, r) && !p.storable(c.history[c.readers[r].version].value)
    case Commit(w, v) => w !in c.dirty && p.allowed(Current(c), v)
    case Del(w) => w in c.dirty
    case Evict => true
  }

  function ReplyOf<V>(c: Cell<V>, r: nat): Reply<V>
    requires r in c.readers && c.readers[r].Holding? && c.readers[r].version < |c.history|
  {
    var held := c.readers[r];
    Reply(c.history[held.version].value, held.version, held.readAt, c.now, held.since)
  }

  function Next<V>(p: Policy<V>, c: Cell<V>, s: Step<V>): Cell<V>
    requires Enabled(p, c, s)
  {
    match s
    case Tick(ms) => c.(now := c.now + ms)
    case Get(r) =>
      if Hit(p, c) then
        var e := c.cache.value;
        c.(replies := c.replies + [Reply(e.value, e.version, e.readAt, c.now, |c.replies|)])
      else c.(readers := c.readers[r := Missed(|c.replies|)])
    case Read(r) => c.(readers := c.readers[r := Holding(Latest(c), c.now, c.readers[r].since)])
    case Fill(r) =>
      var a := ReplyOf(c, r);
      c.(cache := Some(Entry(a.value, a.version, a.readAt, c.now)),
         readers := c.readers - {r}, replies := c.replies + [a])
    case AnswerOnly(r) => c.(readers := c.readers - {r}, replies := c.replies + [ReplyOf(c, r)])
    case Commit(w, v) => c.(history := c.history + [Version(v, c.now)], dirty := c.dirty[w := |c.history|])
    case Del(w) => c.(cache := None, dirty := c.dirty - {w})
    case Evict => c.(cache := None)
  }

  function Start<V>(value: V, at: int): Cell<V>
  {
    Cell(at, [Version(value, at)], None, map[], map[], [])
  }

  /** The runs of a cell. */
  predicate Feasible<V>(p: Policy<V>, v: V, at: int, ss: seq<Step<V>>)
    decreases |ss|, 0
  {
    ss == [] || (Feasible(p, v, at, ss[..|ss| - 1]) && Enabled(p, State(p, v, at, ss[..|ss| - 1]), ss[|ss| - 1]))
  }

  function State<V>(p: Policy<V>, v: V, at: int, ss: seq<Step<V>>): Cell<V>
    requires Feasible(p, v, at, ss)
    decreases |ss|, 1
  {
    if ss == [] then Start(v, at) else Next(p, State(p, v, at, ss[..|ss| - 1]), ss[|ss| - 1])
  }

  lemma Extend<V>(p: Policy<V>, v: V, at: int, ss: seq<Step<V>>, s: Step<V>)
    requires Feasible(p, v, at, ss) && Enabled(p, State(p, v, at, ss), s)
    ensures Feasible(p, v, at, ss + [s]) && State(p, v, at, ss + [s]) == Next(p, State(p, v, at, ss), s)
  {
    assert (ss + [s])[..|ss|] == ss;
  }

  /** Version `i` was the state of the rows at time `t`. */
  predicate CurrentAt<V>(h: seq<Version<V>>, i: nat, t: int)
  {
    i < |h| && h[i].at <= t && (i + 1 < |h| ==> t <= h[i + 1].at)
  }

  predicate HistoryOk<V>(p: Policy<V>, c: Cell<V>)
  {
    && c.history != [] && c.history[|c.history| - 1].at <= c.now
    && (forall i :: 0 <= i < |c.history| ==> i + 1 < |c.history| ==>
          c.history[i].at <= c.history[i + 1].at && p.allowed(c.history[i].value, c.history[i + 1].value))
  }

  predicate ReadersOk<V>(c: Cell<V>)
  {
    forall r <- c.readers :: c.readers[r].Holding? ==>
      CurrentAt(c.history, c.readers[r].version, c.readers[r].readAt) && c.readers[r].readAt <= c.now
  }

  ghost predicate EntryOk<V>(p: Policy<V>, c: Cell<V>)
  {
    c.cache.Some? ==>
      var e := c.cache.value;
      CurrentAt(c.history, e.version, e.readAt) && e.value == c.history[e.version].value
      && e.readAt <= e.setAt <= c.now && e.setAt <= e.readAt + p.lag
  }

  ghost predicate ReplyOk<V>(p: Policy<V>, h: seq<Version<V>>, a: Reply<V>)
  {
    CurrentAt(h, a.version, a.readAt) && a.value == h[a.version].value
    && a.at - p.ttl - p.lag <= a.readAt <= a.at
  }

  ghost predicate Inv<V>(p: Policy<V>, c: Cell<V>)
  {
    && HistoryOk(p, c) && ReadersOk(c) && EntryOk(p, c)
    && (forall i :: 0 <= i < |c.replies| ==> ReplyOk(p, c.history, c.replies[i]) && c.replies[i].at <= c.now)
  }

  lemma CommitKeepsInv<V>(p: Policy<V>, c: Cell<V>, w: nat, v: V)
    requires Inv(p, c) && Enabled(p, c, Commit(w, v))
    ensures Inv(p, Next(p, c, Commit(w, v)))
  {
    var h, h' := c.history, Next(p, c, Commit(w, v)).history;
    forall i: nat, t: int | CurrentAt(h, i, t) && t <= c.now ensures CurrentAt(h', i, t) {
    }
  }

  lemma StepKeepsInv<V>(p: Policy<V>, c: Cell<V>, s: Step<V>)
    requires Inv(p, c) && Enabled(p, c, s)
    ensures Inv(p, Next(p, c, s))
  {
    if s.Commit? {
      CommitKeepsInv(p, c, s.w, s.value);
    }
  }

  lemma {:induction false} RunKeepsInv<V>(p: Policy<V>, v: V, at: int, ss: seq<Step<V>>)
    requires Feasible(p, v, at, ss)
    ensures Inv(p, State(p, v, at, ss))
    decreases |ss|
  {
    if ss != [] {
      RunKeepsInv(p, v, at, ss[..|ss| - 1]);
      StepKeepsInv(p, State(p, v, at, ss[..|ss| - 1]), ss[|ss| - 1]);
    }
  }

  /** The value was the state of the rows at some moment between `lo` and `hi`. */
  ghost predicate WasCurrent<V>(h: seq<Version<V>>, value: V, lo: int, hi: int)
  {
    exists i: nat, t: int :: CurrentAt(h, i, t) && h[i].value == value && lo <= t <= hi
  }

  /** Bounded staleness under every interleaving, with deletions that fail and readers that overwrite newer
      entries with older ones: whatever is returned was the state of the rows at some moment within the
      expiry plus the reader's lag. */
  lemma BoundedStaleness<V>(p: Policy<V>, v: V, at: int, ss: seq<Step<V>>, i: nat)
    requires Feasible(p, v, at, ss) && i < |State(p, v, at, ss).replies|
    ensures var c := State(p, v, at, ss);
            WasCurrent(c.history, c.replies[i].value, c.replies[i].at - p.ttl - p.lag, c.replies[i].at)
  {
    RunKeepsInv(p, v, at, ss);
    var c := State(p, v, at, ss);
    assert ReplyOk(p, c.history, c.replies[i]);
  }

  /** Version `i` is still the state of the rows after time `t`. */
  predicate LastsPast<V>(h: seq<Version<V>>, i: nat, t: int)
    requires i < |h|
  {
    i + 1 < |h| ==> t < h[i + 1].at
  }

  /** From `t` on, every state of the rows fails `good`. */
  predicate NeverAgain<V>(h: seq<Version<V>>, good: V -> bool, t: int)
  {
    forall i :: 0 <= i < |h| && LastsPast(h, i, t) ==> !good(h[i].value)
  }

  /** Once the rows have stopped being `good` for good, so have the replies after the expiry plus the lag. */
  lemma EventuallyGone<V>(p: Policy<V>, v: V, at: int, ss: seq<Step<V>>, i: nat, good: V -> bool, t: int)
    requires Feasible(p, v, at, ss) && i < |State(p, v, at, ss).replies|
    requires NeverAgain(State(p, v, at, ss).history, good, t)
    requires State(p, v, at, ss).replies[i].at > t + p.ttl + p.lag
    ensures !good(State(p, v, at, ss).replies[i].value)
  {
    RunKeepsInv(p, v, at, ss);
    var c := State(p, v, at, ss);
    GoneFrom(p, c.history, c.replies[i], good, t);
  }

  lemma GoneFrom<V>(p: Policy<V>, h: seq<Version<V>>, a: Reply<V>, good: V -> bool, t: int)
    requires ReplyOk(p, h, a) && NeverAgain(h, good, t) && a.at > t + p.ttl + p.lag
    ensures !good(a.value)
  {
    var i := a.version;
    assert CurrentAt(h, i, a.readAt) && t < a.readAt;
    assert LastsPast(h, i, t);
  }

  /** Some writer has committed a version later than this one and has not deleted the key since. */
  ghost predicate Pending(dirty: map<nat, nat>, version: nat)
  {
    exists w :: w in dirty && dirty[w] > version
  }

  /** The entry is the current state of the rows, or a writer that changed them is about to delete it. */
  ghost predicate Coherent<V>(c: Cell<V>)
  {
    c.history != [] &&
    (c.cache.Some? ==> c.cache.value.value == Current(c) || Pending(c.dirty, c.cache.value.version))
  }

  /** What the reader holds is the current state of the rows, or a later commit will still delete the key. */
  ghost predicate FreshFill<V>(c: Cell<V>, r: nat)
  {
    c.history != [] && r in c.readers && c.readers[r].Holding? && c.readers[r].version < |c.history|
    && (c.history[c.readers[r].version].value == Current(c) || Pending(c.dirty, c.readers[r].version))
  }

  lemma CoherentStep<V>(p: Policy<V>, c: Cell<V>, s: Step<V>)
    requires Inv(p, c) && Enabled(p, c, s) && Coherent(c)
    ensures Coherent(Next(p, c, s)) <==> (s.Fill? ==> FreshFill(c, s.r))
  {
    var c' := Next(p, c, s);
    if s.Commit? {
      assert s.w in c'.dirty && c'.dirty[s.w] == Latest(c');
      assert c.cache.Some? ==> c.cache.value.version < Latest(c');
    }
  }

  ghost predicate AlwaysCoherent<V>(p: Policy<V>, v: V, at: int, ss: seq<Step<V>>)
    requires Feasible(p, v, at, ss)
    decreases |ss|
  {
    Coherent(State(p, v, at, ss)) && (ss != [] ==> AlwaysCoherent(p, v, at, ss[..|ss| - 1]))
  }

  ghost predicate FillsFresh<V>(p: Policy<V>, v: V, at: int, ss: seq<Step<V>>)
    requires Feasible(p, v, at, ss)
    decreases |ss|
  {
    ss != [] ==>
      var before, s := ss[..|ss| - 1], ss[|ss| - 1];
      FillsFresh(p, v, at, before) && (s.Fill? ==> FreshFill(State(p, v, at, before), s.r))
  }

  /** Exactly which runs stay coherent throughout: those in which every reader that sets the cache holds the
      current state of the rows, unless the writer of a later state still has to delete the key. */
  lemma {:induction false} CoherentExactlyWhenFillsFresh<V>(p: Policy<V>, v: V, at: int, ss: seq<Step<V>>)
    requires Feasible(p, v, at, ss)
    ensures AlwaysCoherent(p, v, at, ss) <==> FillsFresh(p, v, at, ss)
    decreases |ss|
  {
    if ss != [] {
      var before := ss[..|ss| - 1];
      CoherentExactlyWhenFillsFresh(p, v, at, before);
      if AlwaysCoherent(p, v, at, before) {
        RunKeepsInv(p, v, at, before);
        CoherentStep(p, State(p, v, at, before), ss[|ss| - 1]);
      }
    }
  }

  /** What coherence means for a reader: a hit is the current state, unless a writer that committed a later
      one still has to delete the key. */
  lemma CoherentHit<V>(p: Policy<V>, v: V, at: int, ss: seq<Step<V>>)
    requires Feasible(p, v, at, ss) && FillsFresh(p, v, at, ss)
    requires Hit(p, State(p, v, at, ss))
    ensures var c := State(p, v, at, ss);
            c.cache.value.value == Current(c) || Pending(c.dirty, c.cache.value.version)
  {
    CoherentExactlyWhenFillsFresh(p, v, at, ss);
    RunKeepsInv(p, v, at, ss);
  }
}
