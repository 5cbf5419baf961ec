/**
 The LLM gateway: a response cache, a daily budget for each provider, bounded retries, and a
 fallback chain.

 Providers and the Redis server answer from scripts: every reply and every failure is possible.
 Cache keys are the messages themselves, as an injective digest would make them.
 */
module LlmGateway {
  import opened Common

  datatype Message = Message(role: string, content: string)

  datatype Provider = Provider(name: string, model: string)

  // The cache key determines the purpose, the messages and the provider chain.
  datatype CacheKey = CacheKey(purpose: string, messages: seq<Message>, chain: seq<Provider>)

  datatype Cached = Cached(raw: string, provider: string, model: string)

  datatype BudgetKey = BudgetKey(provider: string, day: nat)

  // One HTTP exchange: a body with content, a status worth retrying, a timeout, another error
  // status, or a failure outside the handled exception classes.
  datatype Reply = Content(raw: string) | RetryStatus | Timeout | FatalStatus | Unhandled

  datatype Call = Call(provider: string, day: nat, success: bool)

  // The shared store, whether the gateway still uses it, the scripts, and the calls made so far.
  datatype Net = Net(
    cache: map<CacheKey, Cached>, spent: map<BudgetKey, nat>, up: bool, redisFine: seq<bool>,
    replies: seq<Reply>, calls: seq<Call>)

  // isObject: the content is a JSON object.
  datatype Config = Config(providers: seq<Provider>, budget: nat, isObject: string -> bool)

  const ATTEMPTS := 3

  // ---- redis -----------------------------------------------------------------------------------

  // One command: a failure switches the gateway to working without Redis.
  function Touch(s: Net): Net {
    if !s.up || s.redisFine == [] then s
    else s.(up := s.redisFine[0], redisFine := s.redisFine[1..])
  }

  datatype Fetched = Fetched(net: Net, value: Option<Cached>)

  function Lookup(s: Net, k: CacheKey): Fetched {
    var t := Touch(s);
    Fetched(t, if t.up && k in t.cache then Some(t.cache[k]) else None)
  }

  function Spent(s: Net, b: BudgetKey): nat {
    if b in s.spent then s.spent[b] else 0
  }

  datatype Permission = Permission(net: Net, allowed: bool)

  function BudgetAllows(cfg: Config, s: Net, p: Provider, day: nat): Permission {
    if !s.up then Permission(s, true)
    else
      var t := Touch(s);
      Permission(t, (if t.up then Spent(t, BudgetKey(p.name, day)) else 0) < cfg.budget)
  }

  function RecordSpend(s: Net, p: Provider, day: nat): Net {
    var t, b := Touch(s), BudgetKey(p.name, day);
    if t.up then t.(spent := t.spent[b := Spent(t, b) + 1]) else t
  }

  function CacheWrite(s: Net, k: CacheKey, c: Cached): Net {
    var t := Touch(s);
    if t.up then t.(cache := t.cache[k := c]) else t
  }

  function CacheDelete(s: Net, k: CacheKey): Net {
    var t := Touch(s);
    if t.up then t.(cache := t.cache - {k}) else t
  }

  // ---- one provider ----------------------------------------------------------------------------

  datatype Attempt = Succeeded(raw: string) | Retry | Failed | Escaped

  datatype Tried = Tried(net: Net, attempt: Attempt)

  function CallOnce(cfg: Config, s: Net, p: Provider, day: nat, k: CacheKey): Tried {
    var reply := if s.replies == [] then Timeout else s.replies[0];
    var rest := if s.replies == [] then [] else s.replies[1..];
    var good := reply.Content? && cfg.isObject(reply.raw);
    var t := s.(replies := rest, calls := s.calls + [Call(p.name, day, good)]);
    match reply
    case Content(raw) =>
      if good then Tried(CacheWrite(t, k, Cached(raw, p.name, p.model)), Succeeded(raw)) else Tried(t, Failed)
    case RetryStatus => Tried(t, Retry)
    case Timeout => Tried(t, Retry)
    case FatalStatus => Tried(t, Failed)
    case Unhandled => Tried(t, Escaped)
  }

  // At most `left` attempts; running out of them is a handled failure.
  function CallWithRetries(cfg: Config, s: Net, p: Provider, day: nat, k: CacheKey, left: nat): Tried
    decreases left
  {
    if left == 0 then Tried(s, Failed)
    else
      var t := CallOnce(cfg, s, p, day, k);
      if t.attempt.Retry? then CallWithRetries(cfg, t.net, p, day, k, left - 1) else t
  }

  // ---- the chain -------------------------------------------------------------------------------

  datatype Answer = Answer(raw: string, provider: string, model: string, cacheHit: bool)

  datatype Outcome = Answered(answer: Answer) | NoProviders | BudgetExhausted | AllFailed | Raised

  datatype Chat = Chat(net: Net, outcome: Outcome)

  function Chain(cfg: Config, s: Net, providers: seq<Provider>, day: nat, k: CacheKey, onlyBudget: bool): Chat
    decreases |providers|
  {
    if providers == [] then Chat(s, if onlyBudget then BudgetExhausted else AllFailed)
    else
      var p, b := providers[0], BudgetAllows(cfg, s, providers[0], day);
      if !b.allowed then Chain(cfg, b.net, providers[1..], day, k, onlyBudget)
      else
        var t := CallWithRetries(cfg, b.net, p, day, k, ATTEMPTS);
        match t.attempt
        case Succeeded(raw) => Chat(RecordSpend(t.net, p, day), Answered(Answer(raw, p.name, p.model, false)))
        case Escaped => Chat(t.net, Raised)
        case _ => Chain(cfg, t.net, providers[1..], day, k, false)
  }

  function Bust(s: Net, k: CacheKey, bust: Option<CacheKey>): Net {
    if bust == Some(k) then CacheDelete(s, k) else s
  }

  function KeyOf(cfg: Config, purpose: string, messages: seq<Message>): CacheKey {
    CacheKey(purpose, messages, cfg.providers)
  }

  function ChatJson(cfg: Config, s: Net, purpose: string, messages: seq<Message>, day: nat, bust: Option<CacheKey>)
    : Chat
  {
    if cfg.providers == [] then Chat(s, NoProviders)
    else
      var k := KeyOf(cfg, purpose, messages);
      var f := Lookup(Bust(s, k, bust), k);
      match f.value
      case Some(c) => Chat(f.net, Answered(Answer(c.raw, c.provider, c.model, true)))
      case None => Chain(cfg, f.net, cfg.providers, day, k, true)
  }

  // ---- the gateway -----------------------------------------------------------------------------

  class Gateway {
    const cfg: Config
    var net: Net

    constructor (cfg: Config, net: Net)
      ensures this.cfg == cfg && this.net == net
    {
      this.cfg, this.net := cfg, net;
    }

    method Attempts(p: Provider, day: nat, k: CacheKey) returns (attempt: Attempt)
      modifies this
      ensures Tried(net, attempt) == CallWithRetries(cfg, old(net), p, day, k, ATTEMPTS)
    {
      var left: nat := ATTEMPTS;
      while left > 0
        invariant left <= ATTEMPTS
        invariant CallWithRetries(cfg, net, p, day, k, left) == CallWithRetries(cfg, old(net), p, day, k, ATTEMPTS)
      {
        var reply := if net.replies == [] then Timeout else net.replies[0];
        ghost var tried := CallOnce(cfg, net, p, day, k);
        net := net.(replies := if net.replies == [] then [] else net.replies[1..],
                    calls := net.calls + [Call(p.name, day, reply.Content? && cfg.isObject(reply.raw))]);
        match reply {
          case Content(raw) =>
            if !cfg.isObject(raw) {
              return Failed;
            }
            net := CacheWrite(net, k, Cached(raw, p.name, p.model));
            return Succeeded(raw);
          case FatalStatus =>
            return Failed;
          case Unhandled =>
            return Escaped;
          case _ =>
            assert tried == Tried(net, Retry);
        }
        left := left - 1;
      }
      return Failed;
    }

    method ChatJsonCall(purpose: string, messages: seq<Message>, day: nat, bust: Option<CacheKey>)
      returns (outcome: Outcome)
      modifies this
      ensures Chat(net, outcome) == ChatJson(cfg, old(net), purpose, messages, day, bust)
    {
      hide CallWithRetries, CacheDelete;
      if cfg.providers == [] {
        return NoProviders;
      }
      var k := KeyOf(cfg, purpose, messages);
      if bust == Some(k) {
        net := CacheDelete(net, k);
      }
      var f := Lookup(net, k);
      net := f.net;
      if f.value.Some? {
        var c := f.value.value;
        return Answered(Answer(c.raw, c.provider, c.model, true));
      }
      var onlyBudget := true;
      for i := 0 to |cfg.providers|
        invariant Chain(cfg, net, cfg.providers[i..], day, k, onlyBudget)
               == ChatJson(cfg, old(net), purpose, messages, day, bust)
      {
        var p := cfg.providers[i];
        assert cfg.providers[i..][0] == p && cfg.providers[i..][1..] == cfg.providers[i + 1..];
        var b := BudgetAllows(cfg, net, p, day);
        net := b.net;
        if !b.allowed {
          continue;
        }
        var attempt := Attempts(p, day, k);
        match attempt {
          case Succeeded(raw) =>
            net := RecordSpend(net, p, day);
            return Answered(Answer(raw, p.name, p.model, false));
          case Escaped =>
            return Raised;
          case _ =>
            onlyBudget := false;
        }
      }
      return if onlyBudget then BudgetExhausted else AllFailed;
    }
  }

  // ---- how many calls ------------------------------------------------------------------------------

  lemma {:induction false} RetriesBound(cfg: Config, s: Net, p: Provider, day: nat, k: CacheKey, left: nat)
    ensures var t := CallWithRetries(cfg, s, p, day, k, left).net;
      s.calls <= t.calls && |t.calls| <= |s.calls| + left
    decreases left
  {
    if left > 0 {
      var t := CallOnce(cfg, s, p, day, k);
      RetriesBound(cfg, t.net, p, day, k, left - 1);
    }
  }

  lemma {:induction false} ChainBound(cfg: Config, s: Net, providers: seq<Provider>, day: nat, k: CacheKey,
                                      onlyBudget: bool)
    ensures var t := Chain(cfg, s, providers, day, k, onlyBudget).net;
      s.calls <= t.calls && |t.calls| <= |s.calls| + ATTEMPTS * |providers|
    decreases |providers|
  {
    hide CallWithRetries;
    if providers != [] {
      var p, b := providers[0], BudgetAllows(cfg, s, providers[0], day);
      var t := CallWithRetries(cfg, b.net, p, day, k, ATTEMPTS);
      RetriesBound(cfg, b.net, p, day, k, ATTEMPTS);
      ChainBound(cfg, b.net, providers[1..], day, k, onlyBudget);
      ChainBound(cfg, t.net, providers[1..], day, k, false);
    }
  }

  // One chat makes at most three calls for each provider.
  lemma ChatBound(cfg: Config, s: Net, purpose: string, messages: seq<Message>, day: nat, bust: Option<CacheKey>)
    ensures var t := ChatJson(cfg, s, purpose, messages, day, bust).net;
      s.calls <= t.calls && |t.calls| <= |s.calls| + ATTEMPTS * |cfg.providers|
  {
    hide Chain;
    if cfg.providers != [] {
      var k := KeyOf(cfg, purpose, messages);
      ChainBound(cfg, Lookup(Bust(s, k, bust), k).net, cfg.providers, day, k, true);
    }
  }

  // ---- what the calls say -------------------------------------------------------------------------

  // The calls of b beyond those of a all failed.
  ghost predicate OnlyFailures(a: seq<Call>, b: seq<Call>) {
    a <= b && forall i :: |a| <= i < |b| ==> !b[i].success
  }

  // The calls of b beyond those of a are failures and then one success of this provider.
  ghost predicate EndsWithSuccess(a: seq<Call>, b: seq<Call>, provider: string, day: nat) {
    b != [] && OnlyFailures(a, Front(b)) && Last(b) == Call(provider, day, true)
  }

  lemma {:induction false} RetriesCalls(cfg: Config, s: Net, p: Provider, day: nat, k: CacheKey, left: nat)
    ensures var t := CallWithRetries(cfg, s, p, day, k, left);
      && (if t.attempt.Succeeded? then EndsWithSuccess(s.calls, t.net.calls, p.name, day)
          else OnlyFailures(s.calls, t.net.calls))
      && (left > 0 ==> |t.net.calls| > |s.calls|)
    decreases left
  {
    hide CallOnce, OnlyFailures, EndsWithSuccess;
    if left == 0 {
      NoCalls(s.calls);
    } else {
      OneCall(cfg, s, p, day, k);
      var t := CallOnce(cfg, s, p, day, k);
      if t.attempt.Retry? {
        RetriesCalls(cfg, t.net, p, day, k, left - 1);
        RetriesBound(cfg, t.net, p, day, k, left - 1);
        FailuresThen(s.calls, t.net.calls, CallWithRetries(cfg, t.net, p, day, k, left - 1).net.calls, p.name, day);
      }
    }
  }

  lemma OneCall(cfg: Config, s: Net, p: Provider, day: nat, k: CacheKey)
    ensures var t := CallOnce(cfg, s, p, day, k);
      && |t.net.calls| == |s.calls| + 1
      && (if t.attempt.Succeeded? then EndsWithSuccess(s.calls, t.net.calls, p.name, day)
          else OnlyFailures(s.calls, t.net.calls))
  {
    var t := CallOnce(cfg, s, p, day, k);
    assert Front(t.net.calls) == s.calls;
  }

  lemma FailuresThen(a: seq<Call>, b: seq<Call>, c: seq<Call>, provider: string, day: nat)
    requires OnlyFailures(a, b)
    ensures OnlyFailures(b, c) ==> OnlyFailures(a, c)
    ensures EndsWithSuccess(b, c, provider, day) ==> EndsWithSuccess(a, c, provider, day)
  {
  }

  lemma {:induction false} ChainCalls(cfg: Config, s: Net, providers: seq<Provider>, day: nat, k: CacheKey,
                                      onlyBudget: bool)
    ensures var c := Chain(cfg, s, providers, day, k, onlyBudget);
      && (if c.outcome.Answered? then EndsWithSuccess(s.calls, c.net.calls, c.outcome.answer.provider, day)
          else OnlyFailures(s.calls, c.net.calls))
      && (c.outcome.BudgetExhausted? <==> onlyBudget && c.net.calls == s.calls)
      && !c.outcome.NoProviders?
    decreases |providers|
  {
    hide CallWithRetries, OnlyFailures, EndsWithSuccess;
    NoCalls(s.calls);
    if providers != [] {
      var p, b := providers[0], BudgetAllows(cfg, s, providers[0], day);
      if !b.allowed {
        ChainCalls(cfg, b.net, providers[1..], day, k, onlyBudget);
      } else {
        var t := CallWithRetries(cfg, b.net, p, day, k, ATTEMPTS);
        RetriesCalls(cfg, b.net, p, day, k, ATTEMPTS);
        if !t.attempt.Succeeded? && !t.attempt.Escaped? {
          ChainCalls(cfg, t.net, providers[1..], day, k, false);
          var c := Chain(cfg, t.net, providers[1..], day, k, false);
          if c.outcome.Answered? {
            FailuresThen(s.calls, t.net.calls, c.net.calls, c.outcome.answer.provider, day);
          } else {
            FailuresThen(s.calls, t.net.calls, c.net.calls, "", day);
          }
          ChainBound(cfg, t.net, providers[1..], day, k, false);
        }
      }
    }
  }

  lemma NoCalls(a: seq<Call>)
    ensures OnlyFailures(a, a)
  {
  }

  // An answer from the network is the only success among the chat's calls, comes last and is of the
  // answering provider; a chat without an answer had no success; and it reports an exhausted budget
  // exactly when there are providers but none of them was called and none remembered the answer.
  lemma ChatCalls(cfg: Config, s: Net, purpose: string, messages: seq<Message>, day: nat, bust: Option<CacheKey>)
    ensures var c := ChatJson(cfg, s, purpose, messages, day, bust);
      && (c.outcome.Answered? && !c.outcome.answer.cacheHit ==>
            EndsWithSuccess(s.calls, c.net.calls, c.outcome.answer.provider, day))
      && (!c.outcome.Answered? ==> OnlyFailures(s.calls, c.net.calls))
      && (c.outcome.Answered? && c.outcome.answer.cacheHit ==> c.net.calls == s.calls)
      && (c.outcome.BudgetExhausted? <==> cfg.providers != [] && c.net.calls == s.calls && !c.outcome.Answered?)
      && (c.outcome.NoProviders? <==> cfg.providers == [])
  {
    hide Chain;
    if cfg.providers != [] {
      var k := KeyOf(cfg, purpose, messages);
      var f := Lookup(Bust(s, k, bust), k);
      ChainCalls(cfg, f.net, cfg.providers, day, k, true);
      ChainAnswers(cfg, f.net, cfg.providers, day, k, true);
    }
  }

  lemma {:induction false} ChainAnswers(cfg: Config, s: Net, providers: seq<Provider>, day: nat, k: CacheKey,
                                        onlyBudget: bool)
    ensures var c := Chain(cfg, s, providers, day, k, onlyBudget); c.outcome.Answered? ==> !c.outcome.answer.cacheHit
    decreases |providers|
  {
    hide CallWithRetries;
    if providers != [] {
      var p, b := providers[0], BudgetAllows(cfg, s, providers[0], day);
      ChainAnswers(cfg, b.net, providers[1..], day, k, onlyBudget);
      ChainAnswers(cfg, CallWithRetries(cfg, b.net, p, day, k, ATTEMPTS).net, providers[1..], day, k, false);
    }
  }

  ghost predicate AllOf(calls: seq<Call>, provider: string) {
    forall i :: 0 <= i < |calls| ==> calls[i].provider == provider
  }

  // The calls go down the chain, at most three to each provider.
  ghost predicate DownTheChain(providers: seq<Provider>, calls: seq<Call>)
    decreases |providers|
  {
    if providers == [] then calls == []
    else
      exists n: nat :: n <= |calls| && n <= ATTEMPTS && AllOf(calls[..n], providers[0].name)
                       && DownTheChain(providers[1..], calls[n..])
  }

  lemma {:induction false} NoneDownTheChain(providers: seq<Provider>)
    ensures DownTheChain(providers, [])
  {
    if providers != [] {
      NoneDownTheChain(providers[1..]);
      var none: seq<Call> := [];
      assert none[..0] == none && none[0..] == none && AllOf(none[..0], providers[0].name);
    }
  }

  lemma {:induction false} RetriesOneProvider(cfg: Config, s: Net, p: Provider, day: nat, k: CacheKey, left: nat)
    ensures var t := CallWithRetries(cfg, s, p, day, k, left);
      s.calls <= t.net.calls && AllOf(t.net.calls[|s.calls|..], p.name)
    decreases left
  {
    if left > 0 {
      var t := CallOnce(cfg, s, p, day, k);
      if t.attempt.Retry? {
        RetriesOneProvider(cfg, t.net, p, day, k, left - 1);
        var u := CallWithRetries(cfg, t.net, p, day, k, left - 1).net.calls;
        forall i | |s.calls| <= i < |u|
          ensures u[i].provider == p.name
        {
          if i > |s.calls| {
            assert u[i] == u[|t.net.calls|..][i - |t.net.calls|];
          }
        }
      }
    }
  }

  lemma NextInChain(providers: seq<Provider>, a: seq<Call>, b: seq<Call>, c: seq<Call>)
    requires providers != [] && a <= b <= c && |b| <= |a| + ATTEMPTS
    requires AllOf(b[|a|..], providers[0].name) && DownTheChain(providers[1..], c[|b|..])
    ensures DownTheChain(providers, c[|a|..])
  {
    var calls, n := c[|a|..], |b| - |a|;
    assert calls[..n] == b[|a|..] && calls[n..] == c[|b|..];
    assert AllOf(calls[..n], providers[0].name);
  }

  // Providers are tried in the configured order, each with all its attempts before the next.
  lemma {:induction false} ChainGoesDown(cfg: Config, s: Net, providers: seq<Provider>, day: nat, k: CacheKey,
                                         onlyBudget: bool)
    ensures var c := Chain(cfg, s, providers, day, k, onlyBudget);
      s.calls <= c.net.calls && DownTheChain(providers, c.net.calls[|s.calls|..])
    decreases |providers|
  {
    hide CallWithRetries, DownTheChain, AllOf;
    var c := Chain(cfg, s, providers, day, k, onlyBudget);
    assert s.calls[|s.calls|..] == [];
    if providers == [] {
      NoneDownTheChain(providers);
    } else {
      var p, b := providers[0], BudgetAllows(cfg, s, providers[0], day);
      if !b.allowed {
        ChainGoesDown(cfg, b.net, providers[1..], day, k, onlyBudget);
        assert AllOf([], p.name) by { NoneOf(p.name); }
        NextInChain(providers, s.calls, s.calls, c.net.calls);
      } else {
        var t := CallWithRetries(cfg, b.net, p, day, k, ATTEMPTS);
        RetriesOneProvider(cfg, b.net, p, day, k, ATTEMPTS);
        RetriesBound(cfg, b.net, p, day, k, ATTEMPTS);
        if t.attempt.Succeeded? || t.attempt.Escaped? {
          NoneDownTheChain(providers[1..]);
          assert c.net.calls[|t.net.calls|..] == [];
        } else {
          ChainGoesDown(cfg, t.net, providers[1..], day, k, false);
        }
        NextInChain(providers, s.calls, t.net.calls, c.net.calls);
      }
    }
  }

  lemma NoneOf(provider: string)
    ensures AllOf([], provider)
  {
  }

  // ---- the budget ----------------------------------------------------------------------------------

  function Successes(calls: seq<Call>, b: BudgetKey): nat {
    if calls == [] then 0
    else Successes(Front(calls), b) + if Last(calls) == Call(b.provider, b.day, true) then 1 else 0
  }

  // The counter never passes the budget nor the successful calls, and counts them exactly while
  // Redis has never failed.
  ghost predicate Budgeted(cfg: Config, s: Net) {
    forall b :: Spent(s, b) <= cfg.budget && Spent(s, b) <= Successes(s.calls, b)
                && (s.up ==> Spent(s, b) == Successes(s.calls, b))
  }

  // As Budgeted, but for one call of the provider that succeeded and is not yet counted.
  ghost predicate Owing(cfg: Config, s: Net, owed: BudgetKey) {
    forall b :: Spent(s, b) <= cfg.budget && Spent(s, b) <= Successes(s.calls, b)
                && (s.up ==> Spent(s, b) + (if b == owed then 1 else 0) == Successes(s.calls, b))
  }

  lemma SuccessesSnoc(calls: seq<Call>, c: Call, b: BudgetKey)
    ensures Successes(calls + [c], b) == Successes(calls, b) + if c == Call(b.provider, b.day, true) then 1 else 0
  {
    assert Front(calls + [c]) == calls;
  }

  // One more call without a counted success keeps the budget; one with a success owes it.
  lemma CallCounted(cfg: Config, s: Net, t: Net, c: Call)
    requires Budgeted(cfg, s) && t.spent == s.spent && t.calls == s.calls + [c] && (t.up ==> s.up)
    ensures if c.success then Owing(cfg, t, BudgetKey(c.provider, c.day)) else Budgeted(cfg, t)
  {
    forall b
      ensures Successes(t.calls, b) == Successes(s.calls, b) + if c == Call(b.provider, b.day, true) then 1 else 0
    {
      SuccessesSnoc(s.calls, c, b);
    }
    assert forall b :: Spent(t, b) == Spent(s, b);
  }

  lemma CallBudget(cfg: Config, s: Net, p: Provider, day: nat, k: CacheKey)
    requires Budgeted(cfg, s)
    ensures var t := CallOnce(cfg, s, p, day, k);
      && (t.attempt.Succeeded? ==> Owing(cfg, t.net, BudgetKey(p.name, day)))
      && (!t.attempt.Succeeded? ==> Budgeted(cfg, t.net))
      && t.net.spent == s.spent
  {
    hide Budgeted, Owing;
    var t := CallOnce(cfg, s, p, day, k);
    CallCounted(cfg, s, t.net, Call(p.name, day, t.attempt.Succeeded?));
  }

  lemma {:induction false} RetriesBudget(cfg: Config, s: Net, p: Provider, day: nat, k: CacheKey, left: nat)
    requires Budgeted(cfg, s)
    ensures var t := CallWithRetries(cfg, s, p, day, k, left);
      && (t.attempt.Succeeded? ==> Owing(cfg, t.net, BudgetKey(p.name, day)))
      && (!t.attempt.Succeeded? ==> Budgeted(cfg, t.net))
      && t.net.spent == s.spent
    decreases left
  {
    hide Budgeted, Owing, CallOnce;
    if left > 0 {
      CallBudget(cfg, s, p, day, k);
      var t := CallOnce(cfg, s, p, day, k);
      if t.attempt.Retry? {
        RetriesBudget(cfg, t.net, p, day, k, left - 1);
      }
    }
  }

  lemma SpendSettles(cfg: Config, s: Net, p: Provider, day: nat)
    requires Owing(cfg, s, BudgetKey(p.name, day)) && (s.up ==> Spent(s, BudgetKey(p.name, day)) < cfg.budget)
    ensures Budgeted(cfg, RecordSpend(s, p, day))
  {
    var t := RecordSpend(s, p, day);
    forall b
      ensures Spent(t, b) == Spent(s, b) + if t.up && b == BudgetKey(p.name, day) then 1 else 0
    {
    }
  }

  // While Redis answers, an allowed call finds the counter below the budget.
  lemma AllowedHasRoom(cfg: Config, s: Net, p: Provider, day: nat)
    requires Budgeted(cfg, s)
    ensures var b := BudgetAllows(cfg, s, p, day);
      && Budgeted(cfg, b.net) && b.net.spent == s.spent && b.net.calls == s.calls
      && (b.allowed && b.net.up ==> Spent(b.net, BudgetKey(p.name, day)) < cfg.budget)
  {
    var b := BudgetAllows(cfg, s, p, day);
    assert b.net.spent == s.spent && forall x :: Spent(b.net, x) == Spent(s, x);
  }

  lemma {:induction false} UpOnlyFalls(cfg: Config, s: Net, p: Provider, day: nat, k: CacheKey, left: nat)
    ensures CallWithRetries(cfg, s, p, day, k, left).net.up ==> s.up
    decreases left
  {
    if left > 0 {
      UpOnlyFalls(cfg, CallOnce(cfg, s, p, day, k).net, p, day, k, left - 1);
    }
  }

  lemma {:induction false} ChainBudget(cfg: Config, s: Net, providers: seq<Provider>, day: nat, k: CacheKey,
                                       onlyBudget: bool)
    requires Budgeted(cfg, s)
    ensures Budgeted(cfg, Chain(cfg, s, providers, day, k, onlyBudget).net)
    decreases |providers|
  {
    hide Budgeted, Owing, CallWithRetries, RecordSpend, BudgetAllows;
    if providers != [] {
      var p, b := providers[0], BudgetAllows(cfg, s, providers[0], day);
      AllowedHasRoom(cfg, s, p, day);
      if !b.allowed {
        ChainBudget(cfg, b.net, providers[1..], day, k, onlyBudget);
      } else {
        var t := CallWithRetries(cfg, b.net, p, day, k, ATTEMPTS);
        RetriesBudget(cfg, b.net, p, day, k, ATTEMPTS);
        UpOnlyFalls(cfg, b.net, p, day, k, ATTEMPTS);
        if t.attempt.Succeeded? {
          SpendSettles(cfg, t.net, p, day);
        } else if !t.attempt.Escaped? {
          ChainBudget(cfg, t.net, providers[1..], day, k, false);
        }
      }
    }
  }

  // Every chat keeps the counters within the budget and equal to the successful calls.
  lemma ChatKeepsBudget(cfg: Config, s: Net, purpose: string, messages: seq<Message>, day: nat, bust: Option<CacheKey>)
    requires Budgeted(cfg, s)
    ensures Budgeted(cfg, ChatJson(cfg, s, purpose, messages, day, bust).net)
  {
    hide Chain;
    if cfg.providers != [] {
      var k := KeyOf(cfg, purpose, messages);
      var f := Lookup(Bust(s, k, bust), k);
      assert f.net.calls == s.calls && forall b :: Spent(f.net, b) == Spent(s, b);
      ChainBudget(cfg, f.net, cfg.providers, day, k, true);
    }
  }

  // ---- the cache -----------------------------------------------------------------------------------

  // b holds everything that a's cache holds.
  ghost predicate Remembers(a: Net, b: Net) {
    forall k :: k in a.cache ==> k in b.cache && b.cache[k] == a.cache[k]
  }

  lemma {:induction false} RetriesCache(cfg: Config, s: Net, p: Provider, day: nat, k: CacheKey, left: nat)
    requires s.up ==> k !in s.cache
    ensures var t := CallWithRetries(cfg, s, p, day, k, left);
      && Remembers(s, t.net) && (!t.attempt.Succeeded? && t.net.up ==> k !in t.net.cache)
      && (t.attempt.Succeeded? && t.net.up
          ==> k in t.net.cache && t.net.cache[k] == Cached(t.attempt.raw, p.name, p.model))
      && (t.net.up ==> s.up)
    decreases left
  {
    if left > 0 {
      var t := CallOnce(cfg, s, p, day, k);
      if t.attempt.Retry? {
        RetriesCache(cfg, t.net, p, day, k, left - 1);
      }
    }
  }

  lemma {:induction false} ChainCache(cfg: Config, s: Net, providers: seq<Provider>, day: nat, k: CacheKey,
                                      onlyBudget: bool)
    requires s.up ==> k !in s.cache
    ensures var c := Chain(cfg, s, providers, day, k, onlyBudget);
      && Remembers(s, c.net) && (c.net.up ==> s.up)
      && (c.outcome.Answered? && c.net.up ==> k in c.net.cache && Replays(c.net.cache[k], c.outcome.answer))
    decreases |providers|
  {
    hide CallWithRetries;
    if providers != [] {
      var p, b := providers[0], BudgetAllows(cfg, s, providers[0], day);
      if !b.allowed {
        ChainCache(cfg, b.net, providers[1..], day, k, onlyBudget);
      } else {
        var t := CallWithRetries(cfg, b.net, p, day, k, ATTEMPTS);
        RetriesCache(cfg, b.net, p, day, k, ATTEMPTS);
        if !t.attempt.Succeeded? && !t.attempt.Escaped? {
          ChainCache(cfg, t.net, providers[1..], day, k, false);
        }
      }
    }
  }

  // The entry repeats the answer.
  predicate Replays(c: Cached, a: Answer) {
    c.raw == a.raw && c.provider == a.provider && c.model == a.model
  }

  // b holds everything that a's cache holds, but for one key.
  ghost predicate RemembersBut(a: Net, b: Net, except: CacheKey) {
    forall k :: k in a.cache && k != except ==> k in b.cache && b.cache[k] == a.cache[k]
  }

  // A chat forgets no entry, except the one it is asked to bust when that is its own; a busted chat
  // is never answered from the cache; and while Redis is up the answer is left in the cache.
  lemma ChatRemembers(cfg: Config, s: Net, purpose: string, messages: seq<Message>, day: nat, bust: Option<CacheKey>)
    ensures var k := CacheKey(purpose, messages, cfg.providers);
      var c := ChatJson(cfg, s, purpose, messages, day, bust);
      && RemembersBut(s, c.net, k) && (bust != Some(k) ==> Remembers(s, c.net)) && (c.net.up ==> s.up)
      && (bust == Some(k) && c.outcome.Answered? ==> !c.outcome.answer.cacheHit)
      && (c.outcome.Answered? && c.net.up ==> k in c.net.cache && Replays(c.net.cache[k], c.outcome.answer))
  {
    hide Chain;
    if cfg.providers != [] {
      var k := KeyOf(cfg, purpose, messages);
      var f := Lookup(Bust(s, k, bust), k);
      if f.value == None {
        ChainCache(cfg, f.net, cfg.providers, day, k, true);
        ChainAnswers(cfg, f.net, cfg.providers, day, k, true);
      }
    }
  }

  // Redis is up and stays up.
  ghost predicate Steady(s: Net) {
    s.up && forall i :: 0 <= i < |s.redisFine| ==> s.redisFine[i]
  }

  // A remembered chat is answered from the cache, without a call.
  lemma ChatFromCache(cfg: Config, s: Net, purpose: string, messages: seq<Message>, day: nat, bust: Option<CacheKey>)
    requires cfg.providers != [] && Steady(s)
    requires var k := CacheKey(purpose, messages, cfg.providers); bust != Some(k) && k in s.cache
    ensures var c := ChatJson(cfg, s, purpose, messages, day, bust);
      var e := s.cache[CacheKey(purpose, messages, cfg.providers)];
      && c.outcome == Answered(Answer(e.raw, e.provider, e.model, true))
      && c.net.calls == s.calls && c.net.cache == s.cache && Steady(c.net)
  {
    hide Chain;
  }
}
