/** The caches of the portfolio service under full interleaving, and what the consumer decides from them. */
module Freshness {
  import opened Wrappers
  import opened Contracts
  import opened HandlerSteps
  import opened Lifecycle
  import opened RetryRuns
  import opened RowOrigins
  import opened PortfolioTables
  import opened PortfolioServices
  import RetrySystem
  import CacheAside
  import MonotonicReads
  import RpcClient

  /** Writers of transactions only insert; every list is cached, also the empty one. */
  function TxPolicy(lag: nat): CacheAside.Policy<seq<TxRecord>>
  {
    CacheAside.Policy(1000 * TX_TTL_SECONDS, lag, (v: seq<TxRecord>) => true,
                      (a: seq<TxRecord>, b: seq<TxRecord>) => b != [] && b[1..] == a)
  }

  /** Writers of preferences upsert; a missing preference is not cached. */
  function PrefPolicy(lag: nat): CacheAside.Policy<Option<Preference>>
  {
    CacheAside.Policy(1000 * PREF_TTL_SECONDS, lag, (v: Option<Preference>) => v.Some?,
                      (a: Option<Preference>, b: Option<Preference>) => b.Some?)
  }

  function RulePolicy(lag: nat): CacheAside.Policy<seq<Rule>>
  {
    CacheAside.Policy(1000 * RULE_TTL_SECONDS, lag, (v: seq<Rule>) => true, (a: seq<Rule>, b: seq<Rule>) => true)
  }

  /** Inserting a user's row is a commit the transaction policy allows. */
  lemma InsertIsAllowed(txs: seq<TxRow>, r: TxRow, lag: nat)
    ensures TxPolicy(lag).allowed(ListOf(txs, r.userId), ListOf(txs + [r], r.userId))
  {
    ListAfterInsert(txs, r, r.userId);
  }

  /** `a` is the older part of the newest-first list `b`. */
  predicate OlderPart(a: seq<TxRecord>, b: seq<TxRecord>)
  {
    |a| <= |b| && b[|b| - |a|..] == a
  }

  lemma {:induction false} ListsGrow(h: seq<CacheAside.Version<seq<TxRecord>>>, i: nat, j: nat, lag: nat)
    requires i <= j < |h|
    requires forall n :: 0 <= n < |h| ==> n + 1 < |h| ==> TxPolicy(lag).allowed(h[n].value, h[n + 1].value)
    ensures OlderPart(h[i].value, h[j].value)
    decreases j - i
  {
    if i < j {
      ListsGrow(h, i, j - 1, lag);
      var a, b, c := h[i].value, h[j - 1].value, h[j].value;
      assert h[j - 1 + 1] == h[j] && c[1..] == b;
      assert c[|c| - |a|..] == b[|b| - |a|..];
    }
  }

  /** A reply is an older part of the current list and contains what was committed before its window. */
  ghost predicate Recent(c: CacheAside.Cell<seq<TxRecord>>, a: CacheAside.Reply<seq<TxRecord>>, lag: nat)
  {
    && c.history != [] && OlderPart(a.value, CacheAside.Current(c))
    && forall n :: 0 <= n < |c.history| && c.history[n].at < a.at - 30_000 - lag ==>
      OlderPart(c.history[n].value, a.value)
  }

  lemma ReplyIsRecent(c: CacheAside.Cell<seq<TxRecord>>, a: CacheAside.Reply<seq<TxRecord>>, lag: nat)
    requires CacheAside.HistoryOk(TxPolicy(lag), c) && CacheAside.ReplyOk(TxPolicy(lag), c.history, a)
    ensures Recent(c, a, lag)
  {
    ListsGrow(c.history, a.version, |c.history| - 1, lag);
    forall n | 0 <= n < |c.history| && c.history[n].at < a.at - 30_000 - lag
      ensures OlderPart(c.history[n].value, a.value) {
      if n > a.version {
        TimesOrdered(c.history, a.version + 1, n);
      }
      ListsGrow(c.history, n, a.version, lag);
    }
  }

  /** A transaction list returned at time t, by any interleaving of `list` and `create`: never a row that is
      not in the table, never a row missing that was committed more than 30 s and the reader's lag before. */
  lemma ListsAreRecent(ss: seq<CacheAside.Step<seq<TxRecord>>>, v: seq<TxRecord>, at: int, lag: nat, i: nat)
    requires CacheAside.Feasible(TxPolicy(lag), v, at, ss) && i < |CacheAside.State(TxPolicy(lag), v, at, ss).replies|
    ensures var c := CacheAside.State(TxPolicy(lag), v, at, ss); Recent(c, c.replies[i], lag)
  {
    CacheAside.RunKeepsInv(TxPolicy(lag), v, at, ss);
    var c := CacheAside.State(TxPolicy(lag), v, at, ss);
    ReplyIsRecent(c, c.replies[i], lag);
  }

  lemma {:induction false} TimesOrdered<V>(h: seq<CacheAside.Version<V>>, i: nat, j: nat)
    requires i <= j < |h|
    requires forall n :: 0 <= n < |h| ==> n + 1 < |h| ==> h[n].at <= h[n + 1].at
    ensures h[i].at <= h[j].at
    decreases j - i
  {
    if i < j {
      TimesOrdered(h, i, j - 1);
      assert h[j - 1].at <= h[j - 1 + 1].at;
    }
  }

  /** The portfolio service as the consumer sees it: for every user, the rows at some start time, a run of
      the preference cache and a run of the rule cache. */
  datatype Caches = Caches(lag: nat, start: int, pref: UserId -> Option<Preference>, rule: UserId -> seq<Rule>,
                           prefs: UserId -> seq<CacheAside.Step<Option<Preference>>>,
                           rules: UserId -> seq<CacheAside.Step<seq<Rule>>>)

  ghost predicate Runs(c: Caches)
  {
    && (forall u: UserId :: CacheAside.Feasible(PrefPolicy(c.lag), c.pref(u), c.start, c.prefs(u)))
    && (forall u: UserId :: CacheAside.Feasible(RulePolicy(c.lag), c.rule(u), c.start, c.rules(u)))
  }

  function PrefCell(c: Caches, u: UserId): CacheAside.Cell<Option<Preference>>
    requires CacheAside.Feasible(PrefPolicy(c.lag), c.pref(u), c.start, c.prefs(u))
  {
    CacheAside.State(PrefPolicy(c.lag), c.pref(u), c.start, c.prefs(u))
  }

  function RuleCell(c: Caches, u: UserId): CacheAside.Cell<seq<Rule>>
    requires CacheAside.Feasible(RulePolicy(c.lag), c.rule(u), c.start, c.rules(u))
  {
    CacheAside.State(RulePolicy(c.lag), c.rule(u), c.start, c.rules(u))
  }

  /** The preference request ended without a value, or with an answer the service gave at time `at`. */
  ghost predicate PrefReplied(c: Caches, u: UserId, p: RpcClient.Reply<Option<Preference>>, at: int)
    requires Runs(c)
  {
    RpcClient.Missing(p) || exists a <- PrefCell(c, u).replies :: a.at == at && p == RpcClient.EnvelopeOk(a.value)
  }

  ghost predicate RuleReplied(c: Caches, u: UserId, r: RpcClient.Reply<RpcClient.RuleData>, at: int)
    requires Runs(c)
  {
    RpcClient.Missing(r)
    || exists a <- RuleCell(c, u).replies :: a.at == at && r == RpcClient.EnvelopeOk(RpcClient.ManyRules(a.value))
  }

  /** The lookup is what the client made of two such replies. */
  ghost predicate Answered(c: Caches, l: Lookup)
    requires Runs(c)
  {
    && (exists p :: PrefReplied(c, l.userId, p, l.prefAt) && RpcClient.GetPreference(p) == l.pref)
    && (exists r :: RuleReplied(c, l.userId, r, l.ruleAt) && RpcClient.GetRule(r) == l.rule)
  }

  /** A lookup that wants a notification had both answers. */
  lemma WantedHadAnswers(c: Caches, l: Lookup)
      returns (p: CacheAside.Reply<Option<Preference>>, r: CacheAside.Reply<seq<Rule>>)
    requires Runs(c) && Answered(c, l) && Wanted(l.pref, l.rule)
    ensures p in PrefCell(c, l.userId).replies && p.at == l.prefAt && p.value == l.pref
    ensures r in RuleCell(c, l.userId).replies && r.at == l.ruleAt && FindRule(r.value, TradeExecuted) == l.rule
  {
    var pref :| PrefReplied(c, l.userId, pref, l.prefAt) && RpcClient.GetPreference(pref) == l.pref;
    var rule :| RuleReplied(c, l.userId, rule, l.ruleAt) && RpcClient.GetRule(rule) == l.rule;
    if RpcClient.Missing(pref) || RpcClient.Missing(rule) {
      RpcClient.FailsClosed(pref, rule);
      assert false;
    }
    p :| p in PrefCell(c, l.userId).replies && p.at == l.prefAt && pref == RpcClient.EnvelopeOk(p.value);
    r :| r in RuleCell(c, l.userId).replies && r.at == l.ruleAt
      && rule == RpcClient.EnvelopeOk(RpcClient.ManyRules(r.value));
  }

  predicate PrefAllows(channel: Channel, v: Option<Preference>)
  {
    v.Some? && v.value.enabled && v.value.channel == channel
  }

  predicate PrefOn(v: Option<Preference>)
  {
    v.Some? && v.value.enabled
  }

  predicate RuleOn(rules: seq<Rule>)
  {
    var found := FindRule(rules, TradeExecuted);
    found.Some? && found.value.enabled
  }

  /** Some state of the rows between `lo` and `hi` satisfied `good`. */
  ghost predicate HeldWithin<V>(h: seq<CacheAside.Version<V>>, good: V -> bool, lo: int, hi: int)
  {
    exists i: nat, t: int :: CacheAside.CurrentAt(h, i, t) && good(h[i].value) && lo <= t <= hi
  }

  /** A lookup that wants a notification saw an enabled preference and an enabled rule that were each in the
      tables at most 60 s and the reader's lag before it was answered. */
  lemma WantedWasTrue(c: Caches, l: Lookup)
    requires Runs(c) && Answered(c, l) && Wanted(l.pref, l.rule)
    ensures HeldWithin(PrefCell(c, l.userId).history, v => PrefAllows(l.pref.value.channel, v),
                       l.prefAt - 60_000 - c.lag, l.prefAt)
    ensures HeldWithin(RuleCell(c, l.userId).history, RuleOn, l.ruleAt - 60_000 - c.lag, l.ruleAt)
  {
    var u := l.userId;
    CacheAside.RunKeepsInv(PrefPolicy(c.lag), c.pref(u), c.start, c.prefs(u));
    CacheAside.RunKeepsInv(RulePolicy(c.lag), c.rule(u), c.start, c.rules(u));
    var p, r := WantedHadAnswers(c, l);
    assert CacheAside.ReplyOk(PrefPolicy(c.lag), PrefCell(c, u).history, p);
    assert CacheAside.ReplyOk(RulePolicy(c.lag), RuleCell(c, u).history, r);
  }

  /** Once the preference or the rule has been disabled for good at time t, no lookup answered more than 60 s
      and the lag later wants a notification. */
  lemma DisabledStaysDisabled(c: Caches, l: Lookup, t: int)
    requires Runs(c) && Answered(c, l)
    requires (CacheAside.NeverAgain(PrefCell(c, l.userId).history, PrefOn, t) && l.prefAt > t + 60_000 + c.lag)
          || (CacheAside.NeverAgain(RuleCell(c, l.userId).history, RuleOn, t) && l.ruleAt > t + 60_000 + c.lag)
    ensures !Wanted(l.pref, l.rule)
  {
    if Wanted(l.pref, l.rule) {
      var u := l.userId;
      var p, r := WantedHadAnswers(c, l);
      if CacheAside.NeverAgain(PrefCell(c, u).history, PrefOn, t) && l.prefAt > t + 60_000 + c.lag {
        var i :| 0 <= i < |PrefCell(c, u).replies| && PrefCell(c, u).replies[i] == p;
        CacheAside.EventuallyGone(PrefPolicy(c.lag), c.pref(u), c.start, c.prefs(u), i, PrefOn, t);
      } else {
        var i :| 0 <= i < |RuleCell(c, u).replies| && RuleCell(c, u).replies[i] == r;
        CacheAside.EventuallyGone(RulePolicy(c.lag), c.rule(u), c.start, c.rules(u), i, RuleOn, t);
      }
    }
  }

  /** The consumer's run `ss` against the caches' runs `c`, and one of its rows that is not DEAD. */
  ghost predicate Notification(ss: seq<RetrySystem.Step>, c: Caches, j: nat)
  {
    && Feasible(ss) && Runs(c) && (forall l <- State(ss).ledger.lookups :: Answered(c, l))
    && j < |State(ss).ledger.store.rows| && State(ss).ledger.store.rows[j].status != Dead
  }

  /** The lookup that row `j` was created from. */
  function LookupOf(ss: seq<RetrySystem.Step>, c: Caches, j: nat): (l: Lookup)
    requires Notification(ss, c, j)
    ensures l in State(ss).ledger.lookups && Allows(l, State(ss).ledger.store.rows[j])
  {
    EveryRowHasItsLookup(ss);
    OriginOf(ss, j)
  }

  /** End to end: in every run of the consumer against every run of the caches, a notification that is not a
      parking record was created from a lookup of its own (see `RowOrigins`), and its user's preference was
      enabled with the row's channel, and their TRADE_EXECUTED rule was enabled, each at most 60 s and the lag
      before that very lookup was answered. */
  lemma {:induction false} NotificationsAreConsented(ss: seq<RetrySystem.Step>, c: Caches, j: nat)
    requires Notification(ss, c, j)
    ensures var r, l := State(ss).ledger.store.rows[j], LookupOf(ss, c, j);
            && HeldWithin(PrefCell(c, r.userId).history, v => PrefAllows(r.channel, v),
                          l.prefAt - 60_000 - c.lag, l.prefAt)
            && HeldWithin(RuleCell(c, r.userId).history, RuleOn, l.ruleAt - 60_000 - c.lag, l.ruleAt)
  {
    var r, l := State(ss).ledger.store.rows[j], LookupOf(ss, c, j);
    WantedWasTrue(c, l);
    var h := PrefCell(c, r.userId).history;
    var i: nat, t: int :| CacheAside.CurrentAt(h, i, t) && PrefAllows(l.pref.value.channel, h[i].value)
                       && l.prefAt - 60_000 - c.lag <= t <= l.prefAt;
    assert (v => PrefAllows(r.channel, v))(h[i].value);
  }

  /** Opting out works: once a user's preference, or their rule, has been disabled for good at time t, every
      notification of theirs was created from a lookup answered within 60 s and the lag of t, retries included;
      no later lookup yields a row. */
  lemma {:induction false} NoNotificationAfterOptingOut(ss: seq<RetrySystem.Step>, c: Caches, j: nat, t: int)
    requires Notification(ss, c, j)
    ensures var u, l := State(ss).ledger.store.rows[j].userId, LookupOf(ss, c, j);
            && (CacheAside.NeverAgain(PrefCell(c, u).history, PrefOn, t) ==> l.prefAt <= t + 60_000 + c.lag)
            && (CacheAside.NeverAgain(RuleCell(c, u).history, RuleOn, t) ==> l.ruleAt <= t + 60_000 + c.lag)
  {
    var u, l := State(ss).ledger.store.rows[j].userId, LookupOf(ss, c, j);
    if CacheAside.NeverAgain(PrefCell(c, u).history, PrefOn, t) && l.prefAt > t + 60_000 + c.lag {
      DisabledStaysDisabled(c, l, t);
      assert false;
    }
    if CacheAside.NeverAgain(RuleCell(c, u).history, RuleOn, t) && l.ruleAt > t + 60_000 + c.lag {
      DisabledStaysDisabled(c, l, t);
      assert false;
    }
  }

  /** All three services cache whatever their writers can commit. So for each of them, in runs without a commit
      between a reader's table read and its set, the cache is coherent and reads are monotonic. */
  lemma UndisturbedServices(lag: nat, tx: seq<TxRecord>, txs: seq<CacheAside.Step<seq<TxRecord>>>,
                            pref: Option<Preference>, prefs: seq<CacheAside.Step<Option<Preference>>>,
                            rule: seq<Rule>, rules: seq<CacheAside.Step<seq<Rule>>>, at: int)
    requires CacheAside.Feasible(TxPolicy(lag), tx, at, txs) && MonotonicReads.Undisturbed(TxPolicy(lag), tx, at, txs)
    requires CacheAside.Feasible(PrefPolicy(lag), pref, at, prefs)
    requires MonotonicReads.Undisturbed(PrefPolicy(lag), pref, at, prefs)
    requires CacheAside.Feasible(RulePolicy(lag), rule, at, rules)
    requires MonotonicReads.Undisturbed(RulePolicy(lag), rule, at, rules)
    ensures CacheAside.AlwaysCoherent(TxPolicy(lag), tx, at, txs)
         && MonotonicReads.AlwaysMonotonic(TxPolicy(lag), tx, at, txs)
    ensures CacheAside.AlwaysCoherent(PrefPolicy(lag), pref, at, prefs)
         && MonotonicReads.AlwaysMonotonic(PrefPolicy(lag), pref, at, prefs)
    ensures CacheAside.AlwaysCoherent(RulePolicy(lag), rule, at, rules)
         && MonotonicReads.AlwaysMonotonic(RulePolicy(lag), rule, at, rules)
  {
    MonotonicReads.UndisturbedReads(TxPolicy(lag), tx, at, txs);
    MonotonicReads.UndisturbedReads(PrefPolicy(lag), pref, at, prefs);
    MonotonicReads.UndisturbedReads(RulePolicy(lag), rule, at, rules);
  }

  /** A user who opts out and is read as opted out can then be read as opted in again. */
  lemma OptingOutCanBeUnread(u: UserId, channel: Channel, lag: nat)
    returns (ss: seq<CacheAside.Step<Option<Preference>>>)
    ensures var optedIn, optedOut := Some(Preference(u, channel, true)), Some(Preference(u, channel, false));
            && CacheAside.Feasible(PrefPolicy(lag), optedIn, 0, ss)
            && var c := CacheAside.State(PrefPolicy(lag), optedIn, 0, ss);
               && |c.replies| == 3 && c.replies[0].value == optedOut == CacheAside.Current(c)
               && c.replies[2].value == optedIn && c.replies[2].since == 2
  {
    var optedIn, optedOut := Some(Preference(u, channel, true)), Some(Preference(u, channel, false));
    ss := MonotonicReads.ReadsCanGoBack(PrefPolicy(lag), optedIn, optedOut);
  }
}
