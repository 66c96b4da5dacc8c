/** Interleaved `create` calls, seen from one user's cached list: what they do to the table and to the key is a
    run of the writers of `CacheAside`, so whatever holds of every such run holds of them. */
module CreateCommits {
  import opened Contracts
  import opened PortfolioTables
  import opened Freshness
  import Publisher
  import CacheAside

  /** The cell shows the user's list, and has a deletion left for each of the user's calls that will make one. */
  predicate Shows(s: Publisher.Shop, u: UserId, c: CacheAside.Cell<seq<TxRecord>>)
  {
    && c.history != [] && CacheAside.Current(c) == ListOf(s.txs, u) && c.now == s.now
    && (forall n <- s.calls :: s.calls[n].cmd.userId == u && s.calls[n].progress.Invalidating? ==> n in c.dirty)
    && (forall n <- c.dirty :: n in s.calls && !s.calls[n].progress.Inserting?)
  }

  /** What a step of the creates is for the user's key: a commit, a deletion, time passing, or nothing. */
  function KeySteps(s: Publisher.Shop, step: Publisher.Step, u: UserId): seq<CacheAside.Step<seq<TxRecord>>>
    requires Publisher.Enabled(s, step)
  {
    match step
    case Tick(ms) => [CacheAside.Tick(ms)]
    case Begin(_, _) => []
    case Proceed(n, call) =>
      if call.Throws? || s.calls[n].cmd.userId != u then [] else
        match s.calls[n].progress
        case Inserting => [CacheAside.Commit(n, ListOf(Publisher.Next(s, step).txs, u))]
        case Invalidating(_) => [CacheAside.Del(n)]
        case _ => []
  }

  /** The user's row is inserted, and the key has a deletion left. */
  lemma InsertShown(s: Publisher.Shop, n: nat, p: Publisher.Progress, lag: nat, c: CacheAside.Cell<seq<TxRecord>>)
    requires n in s.calls && s.calls[n].progress.Inserting? && !p.Inserting?
    requires NewRow(s.txs, s.calls[n].cmd, s.now).Some? && Shows(s, s.calls[n].cmd.userId, c)
    ensures var u, s' := s.calls[n].cmd.userId, Publisher.Inserted(s, n, p);
            var commit := CacheAside.Commit(n, ListOf(s'.txs, u));
            && CacheAside.Enabled(TxPolicy(lag), c, commit)
            && Shows(s', u, CacheAside.Next(TxPolicy(lag), c, commit))
  {
    InsertIsAllowed(s.txs, NewRow(s.txs, s.calls[n].cmd, s.now).value, lag);
  }

  /** Another user's row is inserted. */
  lemma OtherInsertShown(s: Publisher.Shop, n: nat, p: Publisher.Progress, u: UserId, c: CacheAside.Cell<seq<TxRecord>>)
    requires n in s.calls && s.calls[n].cmd.userId != u && !p.Inserting?
    requires NewRow(s.txs, s.calls[n].cmd, s.now).Some? && Shows(s, u, c)
    ensures Shows(Publisher.Inserted(s, n, p), u, c)
  {
    ListAfterInsert(s.txs, NewRow(s.txs, s.calls[n].cmd, s.now).value, u);
  }

  lemma DeleteShown(s: Publisher.Shop, n: nat, p: Publisher.Progress, lag: nat, c: CacheAside.Cell<seq<TxRecord>>)
    requires n in s.calls && s.calls[n].progress.Invalidating? && !p.Inserting? && !p.Invalidating?
    requires Shows(s, s.calls[n].cmd.userId, c)
    ensures CacheAside.Enabled(TxPolicy(lag), c, CacheAside.Del(n))
    ensures Shows(Publisher.Moved(s, n, p), s.calls[n].cmd.userId, CacheAside.Next(TxPolicy(lag), c, CacheAside.Del(n)))
  {
  }

  /** The call goes on without touching the table or the user's key. */
  lemma MoveShown(s: Publisher.Shop, s': Publisher.Shop, n: nat, p: Publisher.Progress, u: UserId,
                  c: CacheAside.Cell<seq<TxRecord>>)
    requires n in s.calls && !p.Inserting? && (p.Invalidating? ==> s.calls[n].cmd.userId != u)
    requires s' == s.(events := s'.events, calls := s.calls[n := s.calls[n].(progress := p)]) && Shows(s, u, c)
    ensures Shows(s', u, c)
  {
  }

  /** A step of the creates is at most one step of the user's cell. */
  lemma StepShown(s: Publisher.Shop, step: Publisher.Step, u: UserId, lag: nat, c: CacheAside.Cell<seq<TxRecord>>)
    requires Publisher.Enabled(s, step) && Shows(s, u, c)
    ensures var keySteps := KeySteps(s, step, u);
            && |keySteps| <= 1
            && (keySteps == [] ==> Shows(Publisher.Next(s, step), u, c))
            && (keySteps != [] ==>
                  && CacheAside.Enabled(TxPolicy(lag), c, keySteps[0])
                  && Shows(Publisher.Next(s, step), u, CacheAside.Next(TxPolicy(lag), c, keySteps[0])))
  {
    match step
    case Tick(_) =>
    case Begin(_, _) =>
    case Proceed(n, call) =>
      var s' := Publisher.Next(s, step);
      var p := s'.calls[n].progress;
      if s.calls[n].progress.Inserting? && !call.Throws? {
        if s.calls[n].cmd.userId == u {
          InsertShown(s, n, p, lag, c);
        } else {
          OtherInsertShown(s, n, p, u, c);
        }
      } else if s.calls[n].progress.Invalidating? && !call.Throws? && s.calls[n].cmd.userId == u {
        DeleteShown(s, n, p, lag, c);
      } else {
        MoveShown(s, s', n, p, u, c);
      }
  }

  /** For every run of interleaved creates, with their faults, and every user there is a run of the user's
      cell that commits the user's lists as they come about and deletes the key when the calls do. */
  lemma {:induction false} CreatesAreCommits(ss: seq<Publisher.Step>, u: UserId, lag: nat)
      returns (tt: seq<CacheAside.Step<seq<TxRecord>>>)
    requires Publisher.Feasible(ss)
    ensures CacheAside.Feasible(TxPolicy(lag), [], 0, tt)
    ensures Shows(Publisher.State(ss), u, CacheAside.State(TxPolicy(lag), [], 0, tt))
    decreases |ss|
  {
    if ss == [] {
      tt := [];
    } else {
      var before, step := ss[..|ss| - 1], ss[|ss| - 1];
      tt := CreatesAreCommits(before, u, lag);
      var keySteps := KeySteps(Publisher.State(before), step, u);
      StepShown(Publisher.State(before), step, u, lag, CacheAside.State(TxPolicy(lag), [], 0, tt));
      if keySteps != [] {
        CacheAside.Extend(TxPolicy(lag), [], 0, tt, keySteps[0]);
        tt := tt + [keySteps[0]];
      }
    }
  }
}
