/** The portfolio services as the source writes them, over Prisma tables and one Redis they share, run one
    operation at a time. Their caches are invisible: every answer is the one the tables alone would give. */
module PortfolioServices {
  import opened Wrappers
  import opened Contracts
  import opened Messaging
  import opened PortfolioTables
  import opened PortfolioHistory

  const TX_TTL_SECONDS: int := 30
  const PREF_TTL_SECONDS: int := 60
  const RULE_TTL_SECONDS: int := 60

  /** The JSON values the services cache. */
  datatype Json = TxList(records: seq<TxRecord>) | PrefJson(pref: Preference) | RuleList(rules: seq<Rule>)
  datatype Slot = Slot(value: Json, deadline: int)

  function Lookup(store: map<string, Slot>, key: string, now: int): Option<Json>
  {
    if key in store && now < store[key].deadline then Some(store[key].value) else None
  }

  class RedisService {
    var store: map<string, Slot>
    var now: int

    constructor ()
      ensures store == map[] && now == 0
    {
      store, now := map[], 0;
    }

    method Elapse(ms: nat)
      modifies this
      ensures store == old(store) && now == old(now) + ms
    {
      now := now + ms;
    }

    method Get(key: string) returns (value: Option<Json>)
      ensures value == Lookup(store, key, now)
    {
      value := if key in store && now < store[key].deadline then Some(store[key].value) else None;
    }

    method SetJson(key: string, value: Json, ttlSeconds: int)
      modifies this
      ensures now == old(now) && store == old(store)[key := Slot(value, now + 1000 * ttlSeconds)]
    {
      store := store[key := Slot(value, now + 1000 * ttlSeconds)];
    }

    method Del(key: string)
      modifies this
      ensures now == old(now) && store == old(store) - {key}
    {
      store := store - {key};
    }
  }

  class PrismaService {
    var tables: Tables

    constructor ()
      ensures tables == Tables([], map[], [])
    {
      tables := Tables([], map[], []);
    }
  }

  /** The events exchange, as far as the portfolio service publishes on it. */
  class EventBus {
    var events: seq<Message>

    constructor ()
      ensures events == []
    {
      events := [];
    }

    method Publish(m: Message)
      modifies this
      ensures events == old(events) + [m]
    {
      events := events + [m];
    }
  }

  function TxKey(u: UserId): string { "tx:list:" + u }
  function PrefKey(u: UserId): string { "prefs:" + u }
  function RuleKey(u: UserId): string { "rules:" + u }

  /** The three services share one key space without ever touching each other's or another user's keys. */
  lemma KeysDistinct(u: UserId, v: UserId)
    ensures TxKey(u) == TxKey(v) ==> u == v
    ensures PrefKey(u) == PrefKey(v) ==> u == v
    ensures RuleKey(u) == RuleKey(v) ==> u == v
    ensures TxKey(u) != PrefKey(v) && TxKey(u) != RuleKey(v) && PrefKey(u) != RuleKey(v)
  {
    assert TxKey(u)[8..] == u && TxKey(v)[8..] == v;
    assert PrefKey(u)[6..] == u && PrefKey(v)[6..] == v;
    assert RuleKey(u)[6..] == u && RuleKey(v)[6..] == v;
    assert TxKey(u)[0] == 't' && PrefKey(v)[0] == 'p' && RuleKey(v)[0] == 'r' && PrefKey(u)[0] == 'p';
  }

  /** What is cached for a user, if anything, is what the tables hold. A missing preference is not cached. */
  ghost predicate CoherentFor(t: Tables, store: map<string, Slot>, now: int, u: UserId)
  {
    var tx, pref, rule := Lookup(store, TxKey(u), now), Lookup(store, PrefKey(u), now), Lookup(store, RuleKey(u), now);
    && (tx.Some? ==> tx.value == TxList(ListOf(t.txs, u)))
    && (pref.Some? ==> u in t.prefs && pref.value == PrefJson(t.prefs[u]))
    && (rule.Some? ==> rule.value == RuleList(RulesOf(t.rules, u)))
  }

  ghost predicate Coherent(t: Tables, store: map<string, Slot>, now: int)
  {
    forall u: UserId :: CoherentFor(t, store, now, u)
  }

  lemma ElapseKeepsCoherent(t: Tables, store: map<string, Slot>, now: int, ms: nat)
    requires Coherent(t, store, now)
    ensures Coherent(t, store, now + ms)
  {
    var now' := now + ms;
    forall u: UserId ensures CoherentFor(t, store, now', u) {
      assert CoherentFor(t, store, now, u);
    }
  }

  /** Committing a user's change and then deleting that user's key keeps the cache coherent. */
  lemma CreateKeepsCoherent(t: Tables, store: map<string, Slot>, now: int, r: TxRow)
    requires Coherent(t, store, now)
    ensures Coherent(t.(txs := t.txs + [r]), store - {TxKey(r.userId)}, now)
  {
    var t', store' := t.(txs := t.txs + [r]), store - {TxKey(r.userId)};
    forall u: UserId ensures CoherentFor(t', store', now, u) {
      assert CoherentFor(t, store, now, u);
      KeysDistinct(u, r.userId);
      KeysDistinct(r.userId, u);
      ListAfterInsert(t.txs, r, u);
    }
  }

  lemma SetPrefKeepsCoherent(t: Tables, store: map<string, Slot>, now: int, pref: Preference)
    requires Coherent(t, store, now)
    ensures Coherent(t.(prefs := t.prefs[pref.userId := pref]), store - {PrefKey(pref.userId)}, now)
  {
    var t', store' := t.(prefs := t.prefs[pref.userId := pref]), store - {PrefKey(pref.userId)};
    forall u: UserId ensures CoherentFor(t', store', now, u) {
      assert CoherentFor(t, store, now, u);
      KeysDistinct(u, pref.userId);
      KeysDistinct(pref.userId, u);
    }
  }

  lemma {:induction false} UpsertIsOthers(rules: seq<Rule>, u: UserId, e: EventType, enabled: bool, id: nat, v: UserId)
    requires u != v
    ensures RulesOf(UpsertRule(rules, u, e, enabled, id), v) == RulesOf(rules, v)
  {
    if rules != [] {
      UpsertIsOthers(rules[1..], u, e, enabled, id, v);
    }
  }

  lemma SetRuleKeepsCoherent(t: Tables, store: map<string, Slot>, now: int, v: UserId, e: EventType, enabled: bool)
    requires Coherent(t, store, now)
    ensures Coherent(PlainTables(t, now, SetRule(v, e, enabled)), store - {RuleKey(v)}, now)
  {
    var t', store' := PlainTables(t, now, SetRule(v, e, enabled)), store - {RuleKey(v)};
    forall u: UserId ensures CoherentFor(t', store', now, u) {
      assert CoherentFor(t, store, now, u);
      KeysDistinct(u, v);
      KeysDistinct(v, u);
      if u != v {
        UpsertIsOthers(t.rules, v, e, enabled, |t.rules|, u);
      }
    }
  }

  /** Filling a user's key with what the tables hold keeps the cache coherent. */
  lemma FillTxKeepsCoherent(t: Tables, store: map<string, Slot>, now: int, v: UserId, deadline: int)
    requires Coherent(t, store, now)
    ensures Coherent(t, store[TxKey(v) := Slot(TxList(ListOf(t.txs, v)), deadline)], now)
  {
    var store' := store[TxKey(v) := Slot(TxList(ListOf(t.txs, v)), deadline)];
    forall u: UserId ensures CoherentFor(t, store', now, u) {
      assert CoherentFor(t, store, now, u);
      KeysDistinct(u, v);
      KeysDistinct(v, u);
    }
  }

  lemma FillPrefKeepsCoherent(t: Tables, store: map<string, Slot>, now: int, v: UserId, deadline: int)
    requires Coherent(t, store, now) && v in t.prefs
    ensures Coherent(t, store[PrefKey(v) := Slot(PrefJson(t.prefs[v]), deadline)], now)
  {
    var store' := store[PrefKey(v) := Slot(PrefJson(t.prefs[v]), deadline)];
    forall u: UserId ensures CoherentFor(t, store', now, u) {
      assert CoherentFor(t, store, now, u);
      KeysDistinct(u, v);
      KeysDistinct(v, u);
    }
  }

  lemma FillRulesKeepsCoherent(t: Tables, store: map<string, Slot>, now: int, v: UserId, deadline: int)
    requires Coherent(t, store, now)
    ensures Coherent(t, store[RuleKey(v) := Slot(RuleList(RulesOf(t.rules, v)), deadline)], now)
  {
    var store' := store[RuleKey(v) := Slot(RuleList(RulesOf(t.rules, v)), deadline)];
    forall u: UserId ensures CoherentFor(t, store', now, u) {
      assert CoherentFor(t, store, now, u);
      KeysDistinct(u, v);
      KeysDistinct(v, u);
    }
  }

  class TransactionsService {
    const prisma: PrismaService
    const redis: RedisService
    const amqp: EventBus

    constructor (prisma: PrismaService, redis: RedisService, amqp: EventBus)
      ensures this.prisma == prisma && this.redis == redis && this.amqp == amqp
    {
      this.prisma, this.redis, this.amqp := prisma, redis, amqp;
    }

    method Create(cmd: CreateCommand) returns (answer: Answer)
      requires Coherent(prisma.tables, redis.store, redis.now)
      modifies prisma, redis, amqp
      ensures Coherent(prisma.tables, redis.store, redis.now) && redis.now == old(redis.now)
      ensures prisma.tables == PlainTables(old(prisma.tables), redis.now, CreateTx(cmd))
      ensures amqp.events == old(amqp.events) + PlainEvents(old(prisma.tables), redis.now, CreateTx(cmd))
      ensures answer == PlainAnswer(old(prisma.tables), redis.now, CreateTx(cmd))
      ensures redis.store == if answer.Thrown? then old(redis.store) else old(redis.store) - {TxKey(cmd.userId)}
    {
      var row := NewRow(prisma.tables.txs, cmd, redis.now);
      if row.None? {
        return Thrown;
      }
      CreateKeepsCoherent(prisma.tables, redis.store, redis.now, row.value);
      prisma.tables := prisma.tables.(txs := prisma.tables.txs + [row.value]);
      redis.Del(TxKey(cmd.userId));
      amqp.Publish(Message(row.value.id, Fields(ToEvent(row.value)), []));
      return Created(ToRecord(row.value));
    }

    method List(u: UserId) returns (answer: Answer)
      requires Coherent(prisma.tables, redis.store, redis.now)
      modifies redis
      ensures Coherent(prisma.tables, redis.store, redis.now) && redis.now == old(redis.now)
      ensures answer == PlainAnswer(prisma.tables, redis.now, ListTx(u))
      ensures redis.store == if Lookup(old(redis.store), TxKey(u), redis.now).Some? then old(redis.store)
                             else old(redis.store)[TxKey(u) := Slot(TxList(answer.list), redis.now + 30_000)]
    {
      assert CoherentFor(prisma.tables, redis.store, redis.now, u);
      var cached := redis.Get(TxKey(u));
      if cached.Some? {
        return Listed(cached.value.records);
      }
      var records := ListOf(prisma.tables.txs, u);
      FillTxKeepsCoherent(prisma.tables, redis.store, redis.now, u, redis.now + 1000 * TX_TTL_SECONDS);
      redis.SetJson(TxKey(u), TxList(records), TX_TTL_SECONDS);
      return Listed(records);
    }
  }

  class PreferencesService {
    const prisma: PrismaService
    const redis: RedisService

    constructor (prisma: PrismaService, redis: RedisService)
      ensures this.prisma == prisma && this.redis == redis
    {
      this.prisma, this.redis := prisma, redis;
    }

    method Set(pref: Preference) returns (answer: Answer)
      requires Coherent(prisma.tables, redis.store, redis.now)
      modifies prisma, redis
      ensures Coherent(prisma.tables, redis.store, redis.now) && redis.now == old(redis.now)
      ensures prisma.tables == PlainTables(old(prisma.tables), redis.now, SetPref(pref))
      ensures answer == PlainAnswer(old(prisma.tables), redis.now, SetPref(pref))
      ensures redis.store == old(redis.store) - {PrefKey(pref.userId)}
    {
      SetPrefKeepsCoherent(prisma.tables, redis.store, redis.now, pref);
      prisma.tables := prisma.tables.(prefs := prisma.tables.prefs[pref.userId := pref]);
      redis.Del(PrefKey(pref.userId));
      return PrefSet(pref);
    }

    method Get(u: UserId) returns (answer: Answer)
      requires Coherent(prisma.tables, redis.store, redis.now)
      modifies redis
      ensures Coherent(prisma.tables, redis.store, redis.now) && redis.now == old(redis.now)
      ensures answer == PlainAnswer(prisma.tables, redis.now, GetPref(u))
      ensures redis.store == if Lookup(old(redis.store), PrefKey(u), redis.now).Some? || answer.found.None?
                             then old(redis.store)
                             else old(redis.store)[PrefKey(u) := Slot(PrefJson(answer.found.value), redis.now + 60_000)]
    {
      assert CoherentFor(prisma.tables, redis.store, redis.now, u);
      var cached := redis.Get(PrefKey(u));
      if cached.Some? {
        return PrefIs(Some(cached.value.pref));
      }
      if u !in prisma.tables.prefs {
        return PrefIs(None);
      }
      var record := prisma.tables.prefs[u];
      FillPrefKeepsCoherent(prisma.tables, redis.store, redis.now, u, redis.now + 1000 * PREF_TTL_SECONDS);
      redis.SetJson(PrefKey(u), PrefJson(record), PREF_TTL_SECONDS);
      return PrefIs(Some(record));
    }
  }

  class RulesService {
    const prisma: PrismaService
    const redis: RedisService

    constructor (prisma: PrismaService, redis: RedisService)
      ensures this.prisma == prisma && this.redis == redis
    {
      this.prisma, this.redis := prisma, redis;
    }

    method Set(u: UserId, eventType: EventType, enabled: bool) returns (answer: Answer)
      requires Coherent(prisma.tables, redis.store, redis.now)
      modifies prisma, redis
      ensures Coherent(prisma.tables, redis.store, redis.now) && redis.now == old(redis.now)
      ensures prisma.tables == PlainTables(old(prisma.tables), redis.now, SetRule(u, eventType, enabled))
      ensures answer == PlainAnswer(old(prisma.tables), redis.now, SetRule(u, eventType, enabled))
      ensures redis.store == old(redis.store) - {RuleKey(u)}
    {
      SetRuleKeepsCoherent(prisma.tables, redis.store, redis.now, u, eventType, enabled);
      var rules := UpsertRule(prisma.tables.rules, u, eventType, enabled, |prisma.tables.rules|);
      prisma.tables := prisma.tables.(rules := rules);
      redis.Del(RuleKey(u));
      return RuleSet(RuleFor(rules, u, eventType));
    }

    method List(u: UserId) returns (answer: Answer)
      requires Coherent(prisma.tables, redis.store, redis.now)
      modifies redis
      ensures Coherent(prisma.tables, redis.store, redis.now) && redis.now == old(redis.now)
      ensures answer == PlainAnswer(prisma.tables, redis.now, ListRules(u))
      ensures redis.store == if Lookup(old(redis.store), RuleKey(u), redis.now).Some? then old(redis.store)
                             else old(redis.store)[RuleKey(u) := Slot(RuleList(answer.rules), redis.now + 60_000)]
    {
      assert CoherentFor(prisma.tables, redis.store, redis.now, u);
      var cached := redis.Get(RuleKey(u));
      if cached.Some? {
        return RulesAre(cached.value.rules);
      }
      var records := RulesOf(prisma.tables.rules, u);
      FillRulesKeepsCoherent(prisma.tables, redis.store, redis.now, u, redis.now + 1000 * RULE_TTL_SECONDS);
      redis.SetJson(RuleKey(u), RuleList(records), RULE_TTL_SECONDS);
      return RulesAre(records);
    }
  }

  /** One operation, by whichever service serves it. */
  method Serve(prisma: PrismaService, redis: RedisService, amqp: EventBus, op: Op) returns (answer: Answer)
    requires Coherent(prisma.tables, redis.store, redis.now)
    modifies prisma, redis, amqp
    ensures Coherent(prisma.tables, redis.store, redis.now) && redis.now == PlainNow(old(redis.now), op)
    ensures amqp.events == old(amqp.events) + PlainEvents(old(prisma.tables), old(redis.now), op)
    ensures prisma.tables == PlainTables(old(prisma.tables), old(redis.now), op)
    ensures answer == PlainAnswer(old(prisma.tables), old(redis.now), op)
  {
    var transactions := new TransactionsService(prisma, redis, amqp);
    var preferences := new PreferencesService(prisma, redis);
    var rules := new RulesService(prisma, redis);
    match op {
      case CreateTx(cmd) => answer := transactions.Create(cmd);
      case ListTx(u) => answer := transactions.List(u);
      case SetPref(pref) => answer := preferences.Set(pref);
      case GetPref(u) => answer := preferences.Get(u);
      case SetRule(u, eventType, enabled) => answer := rules.Set(u, eventType, enabled);
      case ListRules(u) => answer := rules.List(u);
      case Wait(ms) =>
        ElapseKeepsCoherent(prisma.tables, redis.store, redis.now, ms);
        redis.Elapse(ms);
        answer := Waited;
    }
  }

  /** Any sequence of whole operations, over any users and with any pauses, is answered exactly as the
      tables without caches would answer it, and publishes exactly the events of the rows it inserted. */
  method PlainSession(ops: seq<Op>) returns (answers: seq<Answer>, events: seq<Message>)
    ensures answers == PlainAnswers(Tables([], map[], []), 0, ops)
    ensures events == AllEvents(Tables([], map[], []), 0, ops)
  {
    var prisma := new PrismaService();
    var redis := new RedisService();
    var amqp := new EventBus();
    answers := [];
    var i := 0;
    while i < |ops|
      invariant 0 <= i <= |ops|
      invariant Coherent(prisma.tables, redis.store, redis.now)
      invariant answers + PlainAnswers(prisma.tables, redis.now, ops[i..])
             == PlainAnswers(Tables([], map[], []), 0, ops)
      invariant amqp.events + AllEvents(prisma.tables, redis.now, ops[i..]) == AllEvents(Tables([], map[], []), 0, ops)
    {
      assert ops[i..][0] == ops[i] && ops[i..][1..] == ops[i + 1..];
      var answer := Serve(prisma, redis, amqp, ops[i]);
      answers := answers + [answer];
      i := i + 1;
    }
    events := amqp.events;
  }

  /** So every answer is the right one given the operations and answers before it, and the events are those of
      the records answered: no table and no cache is mentioned. */
  method Session(ops: seq<Op>) returns (answers: seq<Answer>, events: seq<Message>)
    ensures AllRight(ops, answers) && events == EventsOf(answers)
  {
    answers, events := PlainSession(ops);
    PlainIsRight(ops);
  }
}
