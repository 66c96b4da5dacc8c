/** What the portfolio's operations answer, said from the history of operations and answers alone: no table is
    mentioned here except in the proofs. */
module PortfolioHistory {
  import opened Wrappers
  import opened Contracts
  import opened Messaging
  import opened PortfolioTables

  /** The time that has passed. */
  function Elapsed(ops: seq<Op>): int
    decreases |ops|
  {
    if ops == [] then 0 else
      var n := |ops| - 1;
      Elapsed(ops[..n]) + match ops[n] { case Wait(ms) => ms case _ => 0 }
  }

  /** The records that the user's creates were answered with, newest first. */
  function CreatedFor(ops: seq<Op>, answers: seq<Answer>, u: UserId): seq<TxRecord>
    requires |ops| == |answers|
    decreases |ops|
  {
    if ops == [] then [] else
      var n := |ops| - 1;
      (if ops[n].CreateTx? && ops[n].cmd.userId == u && answers[n].Created? then [answers[n].rec] else [])
      + CreatedFor(ops[..n], answers[..n], u)
  }

  /** The preference last set for the user. */
  function LastPref(ops: seq<Op>, u: UserId): Option<Preference>
    decreases |ops|
  {
    if ops == [] then None else
      var n := |ops| - 1;
      if ops[n].SetPref? && ops[n].pref.userId == u then Some(ops[n].pref) else LastPref(ops[..n], u)
  }

  /** What the last setting of a rule was answered with. */
  function LastRule(ops: seq<Op>, answers: seq<Answer>, u: UserId, e: EventType): Option<Rule>
    requires |ops| == |answers|
    decreases |ops|
  {
    if ops == [] then None else
      var n := |ops| - 1;
      if ops[n].SetRule? && ops[n].u == u && ops[n].eventType == e && answers[n].RuleSet? then answers[n].rule
      else LastRule(ops[..n], answers[..n], u, e)
  }

  /** One event per answered create, in order, saying what its record says. */
  function EventsOf(answers: seq<Answer>): seq<Message>
    decreases |answers|
  {
    if answers == [] then [] else
      var n := |answers| - 1;
      EventsOf(answers[..n]) + match answers[n] {
        case Created(rec) =>
          [Message(rec.id, Fields(TxEvent(rec.userId, rec.symbol, rec.txType, rec.qty, rec.price, rec.createdAt)), [])]
        case _ => [] }
  }

  predicate WithinHalfUnit(stored: real, given: real)
  {
    -0.000000005 <= stored - given <= 0.000000005
  }

  /** The record says what the command says, up to the precision of the columns. */
  predicate Says(rec: TxRecord, cmd: CreateCommand)
  {
    && rec.userId == cmd.userId && rec.symbol == cmd.symbol && rec.txType == cmd.txType
    && WithinHalfUnit(rec.qty, cmd.qty) && WithinHalfUnit(rec.price, cmd.price)
  }

  /** The numbers that round to twelve digits before the point. */
  predicate FitsColumn(q: real)
  {
    -999_999_999_999.999999995 <= q < 999_999_999_999.999999995
  }

  /** The answer to `op` after the history `ops` with its `answers`. */
  ghost predicate RightAnswer(ops: seq<Op>, answers: seq<Answer>, op: Op, answer: Answer)
    requires |ops| == |answers|
  {
    match op
    case CreateTx(cmd) =>
      if FitsColumn(cmd.qty) && FitsColumn(cmd.price) then
        && answer.Created? && Says(answer.rec, cmd) && answer.rec.createdAt == Elapsed(ops)
        && forall a <- answers :: a.Created? ==> a.rec.id != answer.rec.id
      else answer == Thrown
    case ListTx(u) => answer == Listed(CreatedFor(ops, answers, u))
    case SetPref(pref) => answer == PrefSet(pref)
    case GetPref(u) => answer == PrefIs(LastPref(ops, u))
    case SetRule(u, e, enabled) =>
      && answer.RuleSet? && answer.rule.Some?
      && var before, r := LastRule(ops, answers, u, e), answer.rule.value;
         && r == Rule(r.id, u, e, enabled)
         && if before.Some? then r.id == before.value.id
            else forall a <- answers :: a.RuleSet? && a.rule.Some? ==> a.rule.value.id != r.id
    case ListRules(u) =>
      && answer.RulesAre?
      && forall r: Rule :: multiset(answer.rules)[r]
           == if r.userId == u && LastRule(ops, answers, u, r.eventType) == Some(r) then 1 else 0
    case Wait(_) => answer == Waited
  }

  /** Every answer is right, given the operations and answers before it. */
  ghost predicate AllRight(ops: seq<Op>, answers: seq<Answer>)
    decreases |ops|
  {
    |ops| == |answers| &&
    (ops != [] ==>
      var n := |ops| - 1;
      AllRight(ops[..n], answers[..n]) && RightAnswer(ops[..n], answers[..n], ops[n], answers[n]))
  }

  const NO_TABLES: Tables := Tables([], map[], [])

  function TimeAfter(now: int, ops: seq<Op>): int
    decreases |ops|
  {
    if ops == [] then now else TimeAfter(PlainNow(now, ops[0]), ops[1..])
  }

  /** One operation more. */
  lemma {:induction false} OneMore(t: Tables, now: int, ops: seq<Op>, op: Op)
    ensures var t', now' := TablesAfter(t, now, ops), TimeAfter(now, ops);
            && |PlainAnswers(t, now, ops)| == |ops|
            && PlainAnswers(t, now, ops + [op]) == PlainAnswers(t, now, ops) + [PlainAnswer(t', now', op)]
            && TablesAfter(t, now, ops + [op]) == PlainTables(t', now', op)
            && TimeAfter(now, ops + [op]) == PlainNow(now', op)
            && AllEvents(t, now, ops + [op]) == AllEvents(t, now, ops) + PlainEvents(t', now', op)
    decreases |ops|
  {
    if ops == [] {
      assert ([] + [op])[1..] == [];
    } else {
      assert (ops + [op])[1..] == ops[1..] + [op];
      OneMore(PlainTables(t, now, ops[0]), PlainNow(now, ops[0]), ops[1..], op);
    }
  }

  /** Rounding to the column loses at most half a unit. */
  lemma RoundsToNearest(q: real)
    ensures ToDecimal(q).Some? <==> FitsColumn(q)
    ensures ToDecimal(q).Some? ==> WithinHalfUnit(FromDecimal(ToDecimal(q).value), q)
  {
    var x := q * UNITS + 0.5;
    assert x.Floor as real <= x < x.Floor as real + 1.0;
  }

  /** The user's rules, each as often as the table has it, and no others. */
  lemma {:induction false} RulesOfCounts(rules: seq<Rule>, u: UserId, r: Rule)
    ensures multiset(RulesOf(rules, u))[r] == if r.userId == u then multiset(rules)[r] else 0
  {
    if rules != [] {
      RulesOfCounts(rules[1..], u, r);
      assert rules == [rules[0]] + rules[1..];
      assert multiset(rules) == multiset{rules[0]} + multiset(rules[1..]);
      var first := if rules[0].userId == u then [rules[0]] else [];
      assert multiset(RulesOf(rules, u)) == multiset(first) + multiset(RulesOf(rules[1..], u));
    }
  }

  /** With the unique index the table has a rule once, if looking its key up gives it. */
  lemma {:induction false} RuleForCounts(rules: seq<Rule>, r: Rule)
    requires UniqueRules(rules)
    ensures multiset(rules)[r] == if RuleFor(rules, r.userId, r.eventType) == Some(r) then 1 else 0
  {
    if rules != [] {
      var first, rest := rules[0], rules[1..];
      RuleForCounts(rest, r);
      assert rules == [first] + rest;
      assert multiset(rules) == multiset{first} + multiset(rest);
    }
  }

  /** The tables hold what the history says. */
  ghost predicate ListsTold(t: Tables, ops: seq<Op>, answers: seq<Answer>)
    requires |ops| == |answers|
  {
    forall u: UserId :: ListOf(t.txs, u) == CreatedFor(ops, answers, u)
  }

  ghost predicate PrefsTold(t: Tables, ops: seq<Op>)
  {
    forall u: UserId :: LastPref(ops, u) == if u in t.prefs then Some(t.prefs[u]) else None
  }

  ghost predicate RulesTold(t: Tables, ops: seq<Op>, answers: seq<Answer>)
    requires |ops| == |answers|
  {
    UniqueRules(t.rules) && forall u: UserId, e: EventType :: RuleFor(t.rules, u, e) == LastRule(ops, answers, u, e)
  }

  ghost predicate IdsTold(t: Tables, answers: seq<Answer>)
  {
    forall a <- answers ::
      && (a.Created? ==> a.rec.id < |t.txs|)
      && (a.RuleSet? && a.rule.Some? ==> a.rule.value.id < |t.rules|)
  }

  ghost predicate Told(t: Tables, ops: seq<Op>, answers: seq<Answer>)
    requires |ops| == |answers|
  {
    ListsTold(t, ops, answers) && PrefsTold(t, ops) && RulesTold(t, ops, answers) && IdsTold(t, answers)
  }

  lemma KeepsListsTold(t: Tables, ops: seq<Op>, answers: seq<Answer>, now: int, op: Op)
    requires |ops| == |answers| && ListsTold(t, ops, answers)
    ensures ListsTold(PlainTables(t, now, op), ops + [op], answers + [PlainAnswer(t, now, op)])
  {
    var t', answers' := PlainTables(t, now, op), answers + [PlainAnswer(t, now, op)];
    forall u: UserId ensures ListOf(t'.txs, u) == CreatedFor(ops + [op], answers', u) {
      assert (ops + [op])[..|ops|] == ops && answers'[..|ops|] == answers;
      if op.CreateTx? && NewRow(t.txs, op.cmd, now).Some? {
        ListAfterInsert(t.txs, NewRow(t.txs, op.cmd, now).value, u);
      }
    }
  }

  lemma KeepsPrefsTold(t: Tables, ops: seq<Op>, now: int, op: Op)
    requires PrefsTold(t, ops)
    ensures PrefsTold(PlainTables(t, now, op), ops + [op])
  {
    forall u: UserId
      ensures LastPref(ops + [op], u)
           == var prefs := PlainTables(t, now, op).prefs; if u in prefs then Some(prefs[u]) else None
    {
      assert (ops + [op])[..|ops|] == ops;
    }
  }

  lemma KeepsRulesTold(t: Tables, ops: seq<Op>, answers: seq<Answer>, now: int, op: Op)
    requires |ops| == |answers| && RulesTold(t, ops, answers)
    ensures RulesTold(PlainTables(t, now, op), ops + [op], answers + [PlainAnswer(t, now, op)])
  {
    var t', answers' := PlainTables(t, now, op), answers + [PlainAnswer(t, now, op)];
    if op.SetRule? {
      UpsertKeepsUnique(t.rules, op.u, op.eventType, op.enabled, |t.rules|);
    }
    forall u: UserId, e: EventType ensures RuleFor(t'.rules, u, e) == LastRule(ops + [op], answers', u, e) {
      assert (ops + [op])[..|ops|] == ops && answers'[..|ops|] == answers;
      if op.SetRule? {
        UpsertIsMapUpdate(t.rules, op.u, op.eventType, op.enabled, |t.rules|, u, e);
      }
    }
  }

  /** An upsert adds a row when its key has none, and else none. */
  lemma {:induction false} UpsertLength(rules: seq<Rule>, u: UserId, e: EventType, enabled: bool, id: nat)
    ensures |UpsertRule(rules, u, e, enabled, id)| == |rules| + if RuleFor(rules, u, e).None? then 1 else 0
  {
    if rules != [] {
      UpsertLength(rules[1..], u, e, enabled, id);
    }
  }

  lemma {:induction false} LastRuleAnswered(ops: seq<Op>, answers: seq<Answer>, u: UserId, e: EventType)
    requires |ops| == |answers|
    ensures LastRule(ops, answers, u, e).Some? ==> RuleSet(LastRule(ops, answers, u, e)) in answers
    decreases |ops|
  {
    if ops != [] {
      LastRuleAnswered(ops[..|ops| - 1], answers[..|ops| - 1], u, e);
    }
  }

  lemma KeepsIdsTold(t: Tables, ops: seq<Op>, answers: seq<Answer>, now: int, op: Op)
    requires |ops| == |answers| && RulesTold(t, ops, answers) && IdsTold(t, answers)
    ensures IdsTold(PlainTables(t, now, op), answers + [PlainAnswer(t, now, op)])
  {
    if op.SetRule? {
      UpsertLength(t.rules, op.u, op.eventType, op.enabled, |t.rules|);
      UpsertIsMapUpdate(t.rules, op.u, op.eventType, op.enabled, |t.rules|, op.u, op.eventType);
      LastRuleAnswered(ops, answers, op.u, op.eventType);
    }
  }

  lemma AnswerIsRight(t: Tables, ops: seq<Op>, answers: seq<Answer>, op: Op)
    requires |ops| == |answers| && Told(t, ops, answers)
    ensures RightAnswer(ops, answers, op, PlainAnswer(t, Elapsed(ops), op))
  {
    match op
    case CreateTx(cmd) =>
      RoundsToNearest(cmd.qty);
      RoundsToNearest(cmd.price);
    case SetRule(u, e, enabled) => UpsertIsMapUpdate(t.rules, u, e, enabled, |t.rules|, u, e);
    case ListRules(u) =>
      forall r: Rule
        ensures multiset(RulesOf(t.rules, u))[r]
             == if r.userId == u && LastRule(ops, answers, u, r.eventType) == Some(r) then 1 else 0
      {
        RulesOfCounts(t.rules, u, r);
        RuleForCounts(t.rules, r);
      }
    case _ =>
  }

  lemma EventsAreOf(t: Tables, now: int, op: Op, answers: seq<Answer>)
    ensures EventsOf(answers + [PlainAnswer(t, now, op)]) == EventsOf(answers) + PlainEvents(t, now, op)
  {
    assert (answers + [PlainAnswer(t, now, op)])[..|answers|] == answers;
  }

  /** For every sequence of operations, the plain tables answer right and publish one event per record. */
  lemma {:induction false} PlainIsRight(ops: seq<Op>)
    ensures var answers := PlainAnswers(NO_TABLES, 0, ops);
            && AllRight(ops, answers)
            && EventsOf(answers) == AllEvents(NO_TABLES, 0, ops)
            && Told(TablesAfter(NO_TABLES, 0, ops), ops, answers)
            && TimeAfter(0, ops) == Elapsed(ops)
    decreases |ops|
  {
    if ops != [] {
      var n := |ops| - 1;
      var before, op := ops[..n], ops[n];
      assert ops == before + [op];
      PlainIsRight(before);
      OneMore(NO_TABLES, 0, before, op);
      StepIsRight(TablesAfter(NO_TABLES, 0, before), before, PlainAnswers(NO_TABLES, 0, before), op);
    }
  }

  lemma StepIsRight(t: Tables, ops: seq<Op>, answers: seq<Answer>, op: Op)
    requires |ops| == |answers| && Told(t, ops, answers) && AllRight(ops, answers)
    ensures var now := Elapsed(ops);
            var answers' := answers + [PlainAnswer(t, now, op)];
            && AllRight(ops + [op], answers')
            && Told(PlainTables(t, now, op), ops + [op], answers')
            && EventsOf(answers') == EventsOf(answers) + PlainEvents(t, now, op)
            && Elapsed(ops + [op]) == PlainNow(now, op)
  {
    var now := Elapsed(ops);
    assert (ops + [op])[..|ops|] == ops && (answers + [PlainAnswer(t, now, op)])[..|ops|] == answers;
    AnswerIsRight(t, ops, answers, op);
    KeepsListsTold(t, ops, answers, now, op);
    KeepsPrefsTold(t, ops, now, op);
    KeepsRulesTold(t, ops, answers, now, op);
    KeepsIdsTold(t, ops, answers, now, op);
    EventsAreOf(t, now, op, answers);
  }
}
