/** The portfolio service's tables and what its operations mean without any cache. */
module PortfolioTables {
  import opened Wrappers
  import opened Contracts
  import opened Messaging

  /** Decimal(20, 8): an integer number of units of 1e-8, below 1e20 units in size. */
  const UNITS: real := 100_000_000.0
  const DECIMAL_LIMIT: int := 100_000_000_000_000_000_000

  /** A positive number as the column stores it, rounded half up; None when it does not fit. */
  function ToDecimal(q: real): Option<int>
  {
    var units := (q * UNITS + 0.5).Floor;
    if -DECIMAL_LIMIT < units < DECIMAL_LIMIT then Some(units) else None
  }

  function FromDecimal(units: int): real
  {
    units as real / UNITS
  }

  datatype TxRow = TxRow(id: nat, userId: UserId, symbol: string, txType: TxType, qty: int, price: int, createdAt: int)
  datatype TxRecord =
    TxRecord(id: nat, userId: UserId, symbol: string, txType: TxType, qty: real, price: real, createdAt: int)
  datatype CreateCommand = CreateCommand(userId: UserId, symbol: string, txType: TxType, qty: real, price: real)

  function ToRecord(r: TxRow): TxRecord
  {
    TxRecord(r.id, r.userId, r.symbol, r.txType, FromDecimal(r.qty), FromDecimal(r.price), r.createdAt)
  }

  function ToEvent(r: TxRow): TxEvent
  {
    TxEvent(r.userId, r.symbol, r.txType, FromDecimal(r.qty), FromDecimal(r.price), r.createdAt)
  }

  /** The row an insert adds; its id is its position. None when a number overflows its column. */
  function NewRow(txs: seq<TxRow>, cmd: CreateCommand, now: int): Option<TxRow>
  {
    var qty, price := ToDecimal(cmd.qty), ToDecimal(cmd.price);
    if qty.None? || price.None? then None
    else Some(TxRow(|txs|, cmd.userId, cmd.symbol, cmd.txType, qty.value, price.value, now))
  }

  /** A user's transactions, newest first. */
  function ListOf(txs: seq<TxRow>, u: UserId): seq<TxRecord>
    decreases |txs|
  {
    if txs == [] then [] else
      var n := |txs| - 1;
      (if txs[n].userId == u then [ToRecord(txs[n])] else []) + ListOf(txs[..n], u)
  }

  lemma ListAfterInsert(txs: seq<TxRow>, r: TxRow, u: UserId)
    ensures ListOf(txs + [r], u) == (if r.userId == u then [ToRecord(r)] else []) + ListOf(txs, u)
  {
    assert (txs + [r])[..|txs|] == txs;
  }

  predicate InsertedInOrder(txs: seq<TxRow>)
  {
    forall i, j :: 0 <= i <= j < |txs| ==> txs[i].createdAt <= txs[j].createdAt
  }

  predicate NewestFirst(list: seq<TxRecord>)
  {
    forall i, j :: 0 <= i <= j < |list| ==> list[i].createdAt >= list[j].createdAt
  }

  lemma {:induction false} ListMembers(txs: seq<TxRow>, u: UserId)
    ensures forall rec :: rec in ListOf(txs, u) <==> exists r <- txs :: r.userId == u && rec == ToRecord(r)
    decreases |txs|
  {
    if txs != [] {
      var n := |txs| - 1;
      ListMembers(txs[..n], u);
      assert txs == txs[..n] + [txs[n]];
    }
  }

  lemma NoneIsLater(txs: seq<TxRow>, u: UserId, at: int)
    requires forall i :: 0 <= i < |txs| ==> txs[i].createdAt <= at
    ensures forall i :: 0 <= i < |ListOf(txs, u)| ==> ListOf(txs, u)[i].createdAt <= at
  {
    ListMembers(txs, u);
    forall rec | rec in ListOf(txs, u) ensures rec.createdAt <= at {
      var r :| r in txs && r.userId == u && rec == ToRecord(r);
    }
    assert forall i :: 0 <= i < |ListOf(txs, u)| ==> ListOf(txs, u)[i] in ListOf(txs, u);
  }

  /** The list is what the query asks for: exactly the user's rows, ordered by creation time, newest first. */
  lemma {:induction false} ListIsTheQuery(txs: seq<TxRow>, u: UserId)
    requires InsertedInOrder(txs)
    ensures forall rec :: rec in ListOf(txs, u) <==> exists r <- txs :: r.userId == u && rec == ToRecord(r)
    ensures NewestFirst(ListOf(txs, u))
    decreases |txs|
  {
    ListMembers(txs, u);
    if txs != [] {
      var n := |txs| - 1;
      ListIsTheQuery(txs[..n], u);
      NoneIsLater(txs[..n], u, txs[n].createdAt);
    }
  }

  /** The rules of a user, in table order. */
  function RulesOf(rules: seq<Rule>, u: UserId): seq<Rule>
  {
    if rules == [] then [] else
      (if rules[0].userId == u then [rules[0]] else []) + RulesOf(rules[1..], u)
  }

  /** Upsert on (userId, eventType): update the row if there is one, else insert one with a new id. */
  function UpsertRule(rules: seq<Rule>, u: UserId, e: EventType, enabled: bool, id: nat): seq<Rule>
  {
    if rules == [] then [Rule(id, u, e, enabled)]
    else if rules[0].userId == u && rules[0].eventType == e then [rules[0].(enabled := enabled)] + rules[1..]
    else [rules[0]] + UpsertRule(rules[1..], u, e, enabled, id)
  }

  /** The unique index on (userId, eventType). */
  predicate UniqueRules(rules: seq<Rule>)
  {
    forall i, j :: 0 <= i < j < |rules| ==>
      rules[i].userId != rules[j].userId || rules[i].eventType != rules[j].eventType
  }

  /** The row with the given key, by direct lookup. */
  function RuleFor(rules: seq<Rule>, u: UserId, e: EventType): Option<Rule>
  {
    if rules == [] then None
    else if rules[0].userId == u && rules[0].eventType == e then Some(rules[0])
    else RuleFor(rules[1..], u, e)
  }

  /** `find` by event type over a list of rules. */
  function FindRule(list: seq<Rule>, e: EventType): Option<Rule>
  {
    if list == [] then None else if list[0].eventType == e then Some(list[0]) else FindRule(list[1..], e)
  }

  lemma {:induction false} UpsertKeys(rules: seq<Rule>, u: UserId, e: EventType, enabled: bool, id: nat,
                                      v: UserId, f: EventType)
    ensures (exists r <- UpsertRule(rules, u, e, enabled, id) :: r.userId == v && r.eventType == f)
        <==> (v == u && f == e) || exists r <- rules :: r.userId == v && r.eventType == f
  {
    var after := UpsertRule(rules, u, e, enabled, id);
    if rules == [] {
      assert after[0].userId == u && after[0].eventType == e && after[0] in after;
    } else {
      var rest := rules[1..];
      assert forall r :: r in rules <==> r == rules[0] || r in rest;
      if rules[0].userId == u && rules[0].eventType == e {
        assert forall r :: r in after <==> r == rules[0].(enabled := enabled) || r in rest;
      } else {
        UpsertKeys(rest, u, e, enabled, id, v, f);
        assert forall r :: r in after <==> r == rules[0] || r in UpsertRule(rest, u, e, enabled, id);
      }
    }
  }

  lemma {:induction false} NoKeyNoRule(rules: seq<Rule>, u: UserId, e: EventType)
    ensures RuleFor(rules, u, e).None? <==> !exists r <- rules :: r.userId == u && r.eventType == e
  {
    if rules != [] {
      NoKeyNoRule(rules[1..], u, e);
      assert forall r :: r in rules <==> r == rules[0] || r in rules[1..];
    }
  }

  /** Every upsert keeps at most one rule per user and event type. */
  lemma {:induction false} UpsertKeepsUnique(rules: seq<Rule>, u: UserId, e: EventType, enabled: bool, id: nat)
    requires UniqueRules(rules)
    ensures UniqueRules(UpsertRule(rules, u, e, enabled, id))
  {
    if rules != [] {
      var first, rest := rules[0], rules[1..];
      assert UniqueRules(rest);
      if first.userId != u || first.eventType != e {
        var after := UpsertRule(rest, u, e, enabled, id);
        UpsertKeepsUnique(rest, u, e, enabled, id);
        UpsertKeys(rest, u, e, enabled, id, first.userId, first.eventType);
        forall j | 0 <= j < |after| ensures after[j].userId != first.userId || after[j].eventType != first.eventType {
          assert after[j] in after;
        }
      }
    }
  }

  /** The table of rules is a map from (user, event type) with last-write-wins: an upsert sets its own key,
      and no other. */
  lemma {:induction false} UpsertIsMapUpdate(rules: seq<Rule>, u: UserId, e: EventType, enabled: bool, id: nat,
                                             v: UserId, f: EventType)
    ensures var before, now := RuleFor(rules, v, f), RuleFor(UpsertRule(rules, u, e, enabled, id), v, f);
            if v == u && f == e then
              now == Some(Rule(if before.Some? then before.value.id else id, u, e, enabled))
            else now == before
  {
    if rules != [] {
      UpsertIsMapUpdate(rules[1..], u, e, enabled, id, v, f);
    }
  }

  /** Finding by event type in a user's list is looking the key up in the table. */
  lemma {:induction false} FindIsLookup(rules: seq<Rule>, u: UserId, e: EventType)
    ensures FindRule(RulesOf(rules, u), e) == RuleFor(rules, u, e)
  {
    if rules != [] {
      FindIsLookup(rules[1..], u, e);
      if rules[0].userId == u {
        assert RulesOf(rules, u)[1..] == RulesOf(rules[1..], u);
      } else {
        assert RulesOf(rules, u) == RulesOf(rules[1..], u);
      }
    }
  }

  /** The whole table state, and the operations without caches. */
  datatype Tables = Tables(txs: seq<TxRow>, prefs: map<UserId, Preference>, rules: seq<Rule>)

  datatype Op = CreateTx(cmd: CreateCommand)
              | ListTx(u: UserId)
              | SetPref(pref: Preference)
              | GetPref(u: UserId)
              | SetRule(u: UserId, eventType: EventType, enabled: bool)
              | ListRules(u: UserId)
              | Wait(ms: nat)

  /** What an operation returns; `Thrown` is a create that overflowed its column. */
  datatype Answer = Created(rec: TxRecord) | Listed(list: seq<TxRecord>) | PrefSet(pref: Preference)
                  | PrefIs(found: Option<Preference>) | RuleSet(rule: Option<Rule>) | RulesAre(rules: seq<Rule>)
                  | Waited | Thrown

  function PlainTables(t: Tables, now: int, op: Op): Tables
  {
    match op
    case CreateTx(cmd) =>
      var row := NewRow(t.txs, cmd, now);
      if row.Some? then t.(txs := t.txs + [row.value]) else t
    case SetPref(pref) => t.(prefs := t.prefs[pref.userId := pref])
    case SetRule(u, e, enabled) => t.(rules := UpsertRule(t.rules, u, e, enabled, |t.rules|))
    case _ => t
  }

  function PlainAnswer(t: Tables, now: int, op: Op): Answer
  {
    match op
    case CreateTx(cmd) =>
      var row := NewRow(t.txs, cmd, now);
      if row.Some? then Created(ToRecord(row.value)) else Thrown
    case ListTx(u) => Listed(ListOf(t.txs, u))
    case SetPref(pref) => PrefSet(pref)
    case GetPref(u) => PrefIs(if u in t.prefs then Some(t.prefs[u]) else None)
    case SetRule(u, e, _) => RuleSet(RuleFor(PlainTables(t, now, op).rules, u, e))
    case ListRules(u) => RulesAre(RulesOf(t.rules, u))
    case Wait(_) => Waited
  }

  function PlainNow(now: int, op: Op): int
  {
    if op.Wait? then now + op.ms else now
  }

  /** The answers of a whole sequence of operations on the tables alone. */
  function PlainAnswers(t: Tables, now: int, ops: seq<Op>): seq<Answer>
    decreases |ops|
  {
    if ops == [] then [] else
      [PlainAnswer(t, now, ops[0])] + PlainAnswers(PlainTables(t, now, ops[0]), PlainNow(now, ops[0]), ops[1..])
  }

  function PlainEvents(t: Tables, now: int, op: Op): seq<Message>
  {
    if op.CreateTx? && NewRow(t.txs, op.cmd, now).Some? then
      var row := NewRow(t.txs, op.cmd, now).value;
      [Message(row.id, Fields(ToEvent(row)), [])]
    else []
  }

  function AllEvents(t: Tables, now: int, ops: seq<Op>): seq<Message>
    decreases |ops|
  {
    if ops == [] then [] else
      PlainEvents(t, now, ops[0]) + AllEvents(PlainTables(t, now, ops[0]), PlainNow(now, ops[0]), ops[1..])
  }

  /** The tables after a whole sequence of operations. */
  function TablesAfter(t: Tables, now: int, ops: seq<Op>): Tables
    decreases |ops|
  {
    if ops == [] then t else TablesAfter(PlainTables(t, now, ops[0]), PlainNow(now, ops[0]), ops[1..])
  }

  /** No sequence of operations, with its upserts of rules, breaks the unique index. */
  lemma {:induction false} RulesStayUnique(t: Tables, now: int, ops: seq<Op>)
    requires UniqueRules(t.rules)
    ensures UniqueRules(TablesAfter(t, now, ops).rules)
    decreases |ops|
  {
    if ops != [] {
      if ops[0].SetRule? {
        UpsertKeepsUnique(t.rules, ops[0].u, ops[0].eventType, ops[0].enabled, |t.rules|);
      }
      RulesStayUnique(PlainTables(t, now, ops[0]), PlainNow(now, ops[0]), ops[1..]);
    }
  }

  /** What the last rule set for a key in a sequence of operations said, if any did. */
  function LastRuleSet(ops: seq<Op>, u: UserId, e: EventType): Option<bool>
  {
    if ops == [] then None else
      var later := LastRuleSet(ops[1..], u, e);
      if later.Some? then later
      else if ops[0].SetRule? && ops[0].u == u && ops[0].eventType == e then Some(ops[0].enabled) else None
  }

  lemma {:induction false} RuleForIsLastSet(t: Tables, now: int, ops: seq<Op>, u: UserId, e: EventType)
    ensures var found, last := RuleFor(TablesAfter(t, now, ops).rules, u, e), LastRuleSet(ops, u, e);
            if last.None? then found == RuleFor(t.rules, u, e)
            else found.Some? && found.value.enabled == last.value
    decreases |ops|
  {
    if ops != [] {
      if ops[0].SetRule? {
        UpsertIsMapUpdate(t.rules, ops[0].u, ops[0].eventType, ops[0].enabled, |t.rules|, u, e);
      }
      RuleForIsLastSet(PlainTables(t, now, ops[0]), PlainNow(now, ops[0]), ops[1..], u, e);
    }
  }

  lemma {:induction false} LastAnswer(t: Tables, now: int, ops: seq<Op>, u: UserId)
    ensures var answers := PlainAnswers(t, now, ops + [ListRules(u)]);
            |answers| == |ops| + 1 && answers[|ops|] == RulesAre(RulesOf(TablesAfter(t, now, ops).rules, u))
    decreases |ops|
  {
    if ops == [] {
      assert ([] + [ListRules(u)])[1..] == [];
    } else {
      assert (ops + [ListRules(u)])[1..] == ops[1..] + [ListRules(u)];
      LastAnswer(PlainTables(t, now, ops[0]), PlainNow(now, ops[0]), ops[1..], u);
    }
  }

  /** Last write wins: after any sequence of operations, finding an event type in a user's list of rules gives
      the rule as it was last set, and nothing if it never was. */
  lemma FindIsLastSet(ops: seq<Op>, u: UserId, e: EventType)
    ensures var answers := PlainAnswers(Tables([], map[], []), 0, ops + [ListRules(u)]);
            |answers| == |ops| + 1 && answers[|ops|].RulesAre? &&
            var found, last := FindRule(answers[|ops|].rules, e), LastRuleSet(ops, u, e);
            if last.None? then found.None? else found.Some? && found.value.enabled == last.value
  {
    var t := TablesAfter(Tables([], map[], []), 0, ops);
    LastAnswer(Tables([], map[], []), 0, ops, u);
    RuleForIsLastSet(Tables([], map[], []), 0, ops, u, e);
    FindIsLookup(t.rules, u, e);
  }
}
