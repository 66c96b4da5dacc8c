/** PortfolioRpcClient: what the consumer makes of the portfolio service's replies. */
module RpcClient {
  import opened Wrappers
  import opened Contracts
  import opened HandlerSteps
  import opened PortfolioTables

  /** How a request ends: no reply body, an ok or fail envelope, a bare value, or an error such as a timeout. */
  datatype Reply<+T> = Nothing | EnvelopeOk(data: T) | EnvelopeFail | Bare(value: T) | Threw

  function Unwrap<T>(r: Reply<T>): Option<T>
  {
    match r
    case EnvelopeOk(data) => Some(data)
    case Bare(value) => Some(value)
    case _ => None
  }

  function GetPreference(r: Reply<Option<Preference>>): Option<Preference>
  {
    var unwrapped := Unwrap(r);
    if unwrapped.Some? then unwrapped.value else None
  }

  /** The rules reply: null, one rule, or the user's list. */
  datatype RuleData = NoRule | OneRule(rule: Rule) | ManyRules(rules: seq<Rule>)

  function GetRule(r: Reply<RuleData>): Option<Rule>
  {
    var unwrapped: Option<RuleData> := Unwrap(r);
    if unwrapped.None? then None else
      match unwrapped.value
      case NoRule => None
      case OneRule(rule) => Some(rule)
      case ManyRules(rules) => FindRule(rules, TradeExecuted)
  }

  predicate Missing<T>(r: Reply<T>)
  {
    r.Nothing? || r.EnvelopeFail? || r.Threw?
  }

  /** Lookups fail closed: with either reply missing, failed, timed out or empty, no notification is wanted. */
  lemma FailsClosed(p: Reply<Option<Preference>>, r: Reply<RuleData>)
    requires Missing(p) || Missing(r) || Unwrap(p) == Some(None) || Unwrap(r) == Some(NoRule)
          || Unwrap(r) == Some(ManyRules([]))
    ensures !Wanted(GetPreference(p), GetRule(r))
  {
  }

  /** The reply carries the value, in an ok envelope or bare. */
  predicate Carries<T(==)>(r: Reply<T>, value: T)
  {
    r == EnvelopeOk(value) || r == Bare(value)
  }

  /** A reply that lets a notification through: an enabled rule alone, or a list whose first TRADE_EXECUTED rule
      is enabled. */
  ghost predicate LetsThrough(r: Reply<RuleData>)
  {
    || (exists rule: Rule :: Carries(r, OneRule(rule)) && rule.enabled)
    || (exists rules: seq<Rule>, i: nat :: Carries(r, ManyRules(rules)) && FirstTrade(rules, i) && rules[i].enabled)
  }

  predicate FirstTrade(rules: seq<Rule>, i: nat)
  {
    i < |rules| && rules[i].eventType == TradeExecuted && forall j :: 0 <= j < i ==> rules[j].eventType != TradeExecuted
  }

  lemma {:induction false} FindIsFirst(rules: seq<Rule>) returns (i: nat)
    ensures FindRule(rules, TradeExecuted).None? ==> forall k: nat :: !FirstTrade(rules, k)
    ensures FindRule(rules, TradeExecuted).Some? ==>
      && FirstTrade(rules, i) && FindRule(rules, TradeExecuted) == Some(rules[i])
      && forall k: nat :: FirstTrade(rules, k) ==> k == i
  {
    if rules == [] || rules[0].eventType == TradeExecuted {
      i := 0;
    } else {
      i := FindIsFirst(rules[1..]);
      i := i + 1;
      forall k: nat | FirstTrade(rules, k) ensures k > 0 && FirstTrade(rules[1..], k - 1) {
        assert forall j :: 0 <= j < k - 1 ==> rules[1..][j] == rules[j + 1];
      }
    }
  }

  /** Exactly the replies from which a notification is wanted. */
  lemma WantedExactly(p: Reply<Option<Preference>>, r: Reply<RuleData>)
    ensures Wanted(GetPreference(p), GetRule(r))
        <==> (exists pref: Preference :: Carries(p, Some(pref)) && pref.enabled) && LetsThrough(r)
    ensures forall pref: Preference :: GetPreference(p) == Some(pref) <==> Carries(p, Some(pref))
  {
    if GetPreference(p).Some? {
      assert Carries(p, Some(GetPreference(p).value));
    }
    var data := Unwrap(r);
    if data.Some? && data.value.ManyRules? {
      var i := FindIsFirst(data.value.rules);
      assert Carries(r, ManyRules(data.value.rules));
    } else if data.Some? && data.value.OneRule? {
      assert Carries(r, OneRule(data.value.rule));
    }
  }

  /** For the replies the portfolio service gives from its tables, a notification is wanted exactly when the
      user's preference row is enabled and so is their TRADE_EXECUTED rule's row. */
  lemma WantedIsLookup(t: Tables, u: UserId)
    requires UniqueRules(t.rules)
    ensures var pref := if u in t.prefs then Some(t.prefs[u]) else None;
            Wanted(GetPreference(EnvelopeOk(pref)), GetRule(EnvelopeOk(ManyRules(RulesOf(t.rules, u)))))
            <==> u in t.prefs && t.prefs[u].enabled
                 && exists rule <- t.rules :: rule.userId == u && rule.eventType == TradeExecuted && rule.enabled
  {
    FindIsLookup(t.rules, u, TradeExecuted);
    LookupIsRow(t.rules, u, TradeExecuted);
    if rule :| rule in t.rules && rule.userId == u && rule.eventType == TradeExecuted && rule.enabled {
      var i :| 0 <= i < |t.rules| && t.rules[i] == rule;
      var j :| 0 <= j < |t.rules| && t.rules[j] == RuleFor(t.rules, u, TradeExecuted).value;
    }
  }

  lemma {:induction false} LookupIsRow(rules: seq<Rule>, u: UserId, e: EventType)
    ensures var found := RuleFor(rules, u, e);
            found.Some? ==> found.value in rules && found.value.userId == u && found.value.eventType == e
    ensures RuleFor(rules, u, e).None? ==> forall r <- rules :: r.userId != u || r.eventType != e
  {
    if rules != [] {
      LookupIsRow(rules[1..], u, e);
    }
  }
}
