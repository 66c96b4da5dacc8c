/** ConsoleDeliveryService and the Redis counter behind NOTIFICATION_FORCE_FAIL_ONCE.
    Times are milliseconds; a key with a deadline is gone from that instant on. */
module Delivery {
  import opened Wrappers
  import opened Contracts
  import opened HandlerSteps
  import opened Lifecycle
  import opened Logs

  const FORCE_FAIL_WINDOW: int := 60_000

  /** A Redis counter: its value, and when it expires if EXPIRE was ever called on it. */
  datatype Counter = Counter(count: nat, deadline: Option<int>)

  predicate Live(c: Counter, now: int)
  {
    c.deadline.None? || now < c.deadline.value
  }

  /** What is stored under a key. */
  function KeyAt(counters: map<string, Counter>, key: string): Option<Counter>
  {
    if key in counters then Some(counters[key]) else None
  }

  predicate Alive(c: Option<Counter>, now: int)
  {
    c.Some? && Live(c.value, now)
  }

  /** INCR: a missing or expired key starts again at 1 without a deadline; a live one keeps its deadline. */
  function AfterIncr(c: Option<Counter>, now: int): Counter
  {
    if Alive(c, now) then c.value.(count := c.value.count + 1) else Counter(1, None)
  }

  /** EXPIRE: sets the deadline of a live key, and does nothing to any other. */
  function AfterExpire(c: Option<Counter>, ms: int, now: int): Option<Counter>
  {
    if Alive(c, now) then Some(c.value.(deadline := Some(now + ms))) else c
  }

  const SIMULATED_FAILURE: string := "NOTIFICATION_FORCE_FAIL_ONCE: simulated delivery failure"

  /** The key after a call that nothing interrupts: a call that throws has no effect, one whose reply is lost
      has, and either ends the delivery. */
  function KeyAfter(c: Option<Counter>, now: int, setAt: int, incr: Call, expire: Call): Option<Counter>
  {
    if incr.Throws? then c
    else if incr.LostReply? || expire.Throws? then Some(AfterIncr(c, now))
    else AfterExpire(Some(AfterIncr(c, now)), FORCE_FAIL_WINDOW, setAt)
  }

  /** All keys after it, step by step. */
  function CountersAfter(counters: map<string, Counter>, key: string, now: int, setAt: int,
                         incr: Call, expire: Call): map<string, Counter>
  {
    if incr.Throws? then counters else
      var counted := counters[key := AfterIncr(KeyAt(counters, key), now)];
      if incr.LostReply? || expire.Throws? then counted else
        match AfterExpire(KeyAt(counted, key), FORCE_FAIL_WINDOW, setAt)
        case None => counted
        case Some(c) => counted[key := c]
  }

  /** A call changes its own key as said, and no other. */
  lemma OnlyItsKey(counters: map<string, Counter>, key: string, now: int, setAt: int, incr: Call, expire: Call,
                   k: string)
    ensures KeyAt(CountersAfter(counters, key, now, setAt, incr, expire), k)
         == if k == key then KeyAfter(KeyAt(counters, key), now, setAt, incr, expire) else KeyAt(counters, k)
  {
  }

  /** The error `deliver` throws, if any. */
  function ErrorOf(c: Option<Counter>, now: int, incr: Call, expire: Call): Option<string>
  {
    if !incr.Done? then Some(incr.err)
    else if !expire.Done? then Some(expire.err)
    else if AfterIncr(c, now).count == 1 then Some(SIMULATED_FAILURE) else None
  }

  class RedisCounters {
    var counters: map<string, Counter>

    constructor ()
      ensures counters == map[]
    {
      counters := map[];
    }

    method Incr(key: string, now: int, call: Call) returns (n: nat, err: Option<string>)
      modifies this
      ensures counters == if call.Throws? then old(counters)
                          else old(counters)[key := AfterIncr(KeyAt(old(counters), key), now)]
      ensures n == AfterIncr(KeyAt(old(counters), key), now).count
      ensures err == if call.Done? then None else Some(call.err)
    {
      n := if key in counters && Live(counters[key], now) then counters[key].count + 1 else 1;
      if !call.Throws? {
        if key in counters && Live(counters[key], now) {
          counters := counters[key := counters[key].(count := n)];
        } else {
          counters := counters[key := Counter(1, None)];
        }
      }
      err := if call.Done? then None else Some(call.err);
    }

    method Expire(key: string, ms: int, now: int, call: Call) returns (err: Option<string>)
      modifies this
      ensures counters == match AfterExpire(KeyAt(old(counters), key), ms, now)
                          case None => old(counters)
                          case Some(c) => if call.Throws? then old(counters) else old(counters)[key := c]
      ensures err == if call.Done? then None else Some(call.err)
    {
      if !call.Throws? && key in counters && Live(counters[key], now) {
        counters := counters[key := counters[key].(deadline := Some(now + ms))];
      }
      err := if call.Done? then None else Some(call.err);
    }
  }

  function CallUser(c: DeliverCall): UserId { c.userId }

  /** The calls of `deliver` for one user. */
  function CallsOfUser(calls: seq<DeliverCall>, u: UserId): seq<DeliverCall>
  {
    Of(calls, CallUser, u)
  }

  /** The reference rule: the user had no delivery within the last minute. */
  predicate FailsAt(own: seq<DeliverCall>, now: int)
  {
    own == [] || now - own[|own| - 1].at >= FORCE_FAIL_WINDOW
  }

  /** Every call failed exactly when the rule says so, given the calls before it. */
  ghost predicate Forced(calls: seq<DeliverCall>)
  {
    forall i :: 0 <= i < |calls| ==> (calls[i].err.Some? <==>
       FailsAt(CallsOfUser(calls[..i], calls[i].userId), calls[i].at))
  }

  const KEY_PREFIX: string := "notif:force-fail:"

  function KeyOf(u: UserId): string
  {
    KEY_PREFIX + u
  }

  lemma KeysDistinct(u: UserId, v: UserId)
    requires KeyOf(u) == KeyOf(v)
    ensures u == v
  {
    assert KeyOf(u)[|KEY_PREFIX|..] == u && KeyOf(v)[|KEY_PREFIX|..] == v;
  }

  /** Each user's key expires a minute after the last of their calls. */
  ghost predicate Reflects(counters: map<string, Counter>, calls: seq<DeliverCall>)
  {
    forall u: UserId :: ReflectsUser(counters, KeyOf(u), CallsOfUser(calls, u))
  }

  predicate ReflectsUser(counters: map<string, Counter>, key: string, own: seq<DeliverCall>)
  {
    if own == [] then key !in counters else
      && key in counters && counters[key].count >= 1
      && counters[key].deadline == Some(own[|own| - 1].at + FORCE_FAIL_WINDOW)
  }

  /** The incremented counter reads 1 exactly when the user had no delivery in the last minute. */
  lemma CountTellsFailure(counters: map<string, Counter>, calls: seq<DeliverCall>, u: UserId, now: int)
    requires Reflects(counters, calls)
    ensures FailsAt(CallsOfUser(calls, u), now) <==> !(KeyOf(u) in counters && Live(counters[KeyOf(u)], now))
    ensures KeyOf(u) in counters ==> counters[KeyOf(u)].count >= 1
  {
    assert ReflectsUser(counters, KeyOf(u), CallsOfUser(calls, u));
  }

  lemma ReflectsAppend(counters: map<string, Counter>, calls: seq<DeliverCall>, c: DeliverCall, count: nat,
                       counters': map<string, Counter>, calls': seq<DeliverCall>)
    requires Reflects(counters, calls) && count >= 1
    requires counters' == counters[KeyOf(c.userId) := Counter(count, Some(c.at + FORCE_FAIL_WINDOW))]
    requires calls' == calls + [c]
    ensures Reflects(counters', calls')
  {
    forall u: UserId ensures ReflectsUser(counters', KeyOf(u), CallsOfUser(calls', u)) {
      OfAppend(calls, CallUser, u, c);
      assert ReflectsUser(counters, KeyOf(u), CallsOfUser(calls, u));
      if KeyOf(u) == KeyOf(c.userId) {
        KeysDistinct(u, c.userId);
      }
    }
  }

  /** A call whose INCR and EXPIRE work at one instant keeps the rule. */
  lemma CallKeepsRule(counters: map<string, Counter>, calls: seq<DeliverCall>, c: DeliverCall,
                      counters': map<string, Counter>)
    requires Forced(calls) && Reflects(counters, calls)
    requires var counted := AfterIncr(KeyAt(counters, KeyOf(c.userId)), c.at);
             c.err.Some? <==> counted.count == 1
    requires counters' == CountersAfter(counters, KeyOf(c.userId), c.at, c.at, Done, Done)
    ensures c.err.Some? <==> FailsAt(CallsOfUser(calls, c.userId), c.at)
    ensures Forced(calls + [c]) && Reflects(counters', calls + [c])
  {
    CountTellsFailure(counters, calls, c.userId, c.at);
    ForcedAppend(calls, c);
    var count := AfterIncr(KeyAt(counters, KeyOf(c.userId)), c.at).count;
    assert counters' == counters[KeyOf(c.userId) := Counter(count, Some(c.at + FORCE_FAIL_WINDOW))];
    ReflectsAppend(counters, calls, c, count, counters', calls + [c]);
  }

  class ConsoleDeliveryService {
    const redis: RedisCounters
    const forceFail: bool
    ghost var calls: seq<DeliverCall>

    constructor (redis: RedisCounters, forceFail: bool)
      requires forall u: UserId :: KeyOf(u) !in redis.counters
      ensures this.redis == redis && this.forceFail == forceFail && calls == [] && Valid()
    {
      this.redis := redis;
      this.forceFail := forceFail;
      calls := [];
    }

    /** The counters are those of the calls made. */
    ghost predicate Valid()
      reads this, redis
    {
      Forced(calls) && Reflects(redis.counters, calls)
    }

    /** `deliver`, which counts at `now` and sets the expiry at `setAt`, unless a Redis call throws first. With
        the flag off it never fails and touches nothing. If Redis works and the two calls happen at one instant,
        it fails exactly when the user had no delivery in the last minute. No other key ever changes. */
    method Deliver(tx: nat, userId: UserId, now: int, setAt: int, incr: Call, expire: Call)
      returns (err: Option<string>)
      modifies this, redis
      ensures !forceFail ==> err.None? && redis.counters == old(redis.counters) && calls == old(calls)
      ensures forceFail ==>
          && err == ErrorOf(KeyAt(old(redis.counters), KeyOf(userId)), now, incr, expire)
          && redis.counters == CountersAfter(old(redis.counters), KeyOf(userId), now, setAt, incr, expire)
      ensures forceFail && !incr.Done? ==> err == Some(incr.err)
      ensures forceFail && incr.Done? && !expire.Done? ==> err == Some(expire.err)
      ensures !incr.Done? || !expire.Done? ==> calls == old(calls)
      ensures forceFail && old(Valid()) && incr.Done? && expire.Done? && setAt == now ==>
          && Valid() && calls == old(calls) + [DeliverCall(tx, userId, err, now)]
          && (err.Some? <==> FailsAt(CallsOfUser(old(calls), userId), now))
    {
      err := None;
      if forceFail {
        var key := KeyOf(userId);
        var count: nat;
        count, err := redis.Incr(key, now, incr);
        if err.Some? {
          return;
        }
        err := redis.Expire(key, FORCE_FAIL_WINDOW, setAt, expire);
        if err.Some? {
          return;
        }
        if count == 1 {
          err := Some(SIMULATED_FAILURE);
        }
        calls := calls + [DeliverCall(tx, userId, err, now)];
        if old(Valid()) && setAt == now {
          CallKeepsRule(old(redis.counters), old(calls), calls[|calls| - 1], redis.counters);
        }
      }
    }
  }

  lemma ForcedAppend(calls: seq<DeliverCall>, c: DeliverCall)
    requires Forced(calls) && (c.err.Some? <==> FailsAt(CallsOfUser(calls, c.userId), c.at))
    ensures Forced(calls + [c])
  {
    var all := calls + [c];
    forall i | 0 <= i < |all|
      ensures all[i].err.Some? <==> FailsAt(CallsOfUser(all[..i], all[i].userId), all[i].at)
    {
      assert all[..i] == calls[..i];
      assert calls[..|calls|] == calls;
    }
  }

  function CountFailed(calls: seq<DeliverCall>): nat
    decreases |calls|
  {
    if calls == [] then 0 else CountFailed(calls[..|calls| - 1]) + if calls[|calls| - 1].err.Some? then 1 else 0
  }

  /** The number of maximal groups of calls whose neighbours are less than a minute apart. */
  function Clusters(own: seq<DeliverCall>): nat
    decreases |own|
  {
    if own == [] then 0 else
      var n := |own| - 1;
      Clusters(own[..n]) + if n == 0 || own[n].at - own[n - 1].at >= FORCE_FAIL_WINDOW then 1 else 0
  }

  /** A user's call failed exactly when no earlier call of theirs was less than a minute before it. */
  predicate FirstOfClusterFails(own: seq<DeliverCall>)
  {
    forall i :: 0 <= i < |own| ==> (own[i].err.Some? <==> FailsAt(own[..i], own[i].at))
  }

  lemma {:induction false} FirstFailsCount(own: seq<DeliverCall>)
    requires FirstOfClusterFails(own)
    ensures CountFailed(own) == Clusters(own)
    decreases |own|
  {
    if own != [] {
      var before := own[..|own| - 1];
      forall i | 0 <= i < |before|
        ensures before[i].err.Some? <==> FailsAt(before[..i], before[i].at)
      {
        assert before[..i] == own[..i] && before[i] == own[i];
      }
      FirstFailsCount(before);
      assert own[|own| - 1].err.Some? <==> FailsAt(before, own[|own| - 1].at);
    }
  }

  lemma {:induction false} ForcedFirstFails(calls: seq<DeliverCall>, u: UserId)
    requires Forced(calls)
    ensures FirstOfClusterFails(CallsOfUser(calls, u))
    decreases |calls|
  {
    if calls != [] {
      var n := |calls| - 1;
      ForcedPrefix(calls);
      ForcedFirstFails(calls[..n], u);
      var before, own := CallsOfUser(calls[..n], u), CallsOfUser(calls, u);
      assert own == before + if calls[n].userId == u then [calls[n]] else [];
      forall i | 0 <= i < |own| ensures own[i].err.Some? <==> FailsAt(own[..i], own[i].at) {
        if i < |before| {
          assert own[i] == before[i] && own[..i] == before[..i];
        } else {
          assert own[..i] == before;
        }
      }
    }
  }

  /** With the flag on, each user sees exactly one simulated failure per group of deliveries less than a
      minute apart, on the first of the group, whatever the other users' deliveries in between. */
  lemma OneFailurePerCluster(calls: seq<DeliverCall>, u: UserId)
    requires Forced(calls)
    ensures CountFailed(CallsOfUser(calls, u)) == Clusters(CallsOfUser(calls, u))
    ensures FirstOfClusterFails(CallsOfUser(calls, u))
  {
    ForcedFirstFails(calls, u);
    FirstFailsCount(CallsOfUser(calls, u));
  }

  lemma ForcedPrefix(calls: seq<DeliverCall>)
    requires Forced(calls) && calls != []
    ensures Forced(calls[..|calls| - 1])
  {
    var before := calls[..|calls| - 1];
    forall i | 0 <= i < |before|
      ensures before[i].err.Some? <==> FailsAt(CallsOfUser(before[..i], before[i].userId), before[i].at)
    {
      assert before[..i] == calls[..i];
    }
  }

  /** Neighbouring calls of the user are less than a minute apart. */
  predicate Close(own: seq<DeliverCall>)
  {
    forall i :: 0 < i < |own| ==> own[i].at - own[i - 1].at < FORCE_FAIL_WINDOW
  }

  lemma {:induction false} CloseIsOneCluster(own: seq<DeliverCall>)
    requires Close(own)
    ensures Clusters(own) == if own == [] then 0 else 1
    decreases |own|
  {
    if |own| > 1 {
      CloseIsOneCluster(own[..|own| - 1]);
    }
  }
}
