/**
 The LLM correlation agent: one question, at most one repair round, and a strict validator. Any
 failure leaves the caller with its deterministic incident.
 */
module CorrelationAgent {
  import opened Common
  import opened LlmGateway

  datatype Claim = Claim(id: string, name: string, confidence: real, evidence: seq<int>)

  datatype Analysis = Analysis(title: string, narrative: string, risk: real, confidence: real, techniques: seq<Claim>)

  // ---- validation ------------------------------------------------------------------------------

  predicate Digits(s: string) {
    forall i :: 0 <= i < |s| ==> '0' <= s[i] <= '9'
  }

  // T and four digits, optionally a dot and three more.
  predicate TechniqueId(s: string) {
    && |s| >= 5 && s[0] == 'T' && Digits(s[1..5])
    && (|s| == 5 || (|s| == 9 && s[5] == '.' && Digits(s[6..])))
  }

  predicate InUnit(x: real) {
    0.0 <= x <= 1.0
  }

  predicate ClaimOk(reference: map<string, string>, c: Claim) {
    && TechniqueId(c.id) && 3 <= |c.name| <= 80 && InUnit(c.confidence) && c.evidence != []
    && c.id in reference
  }

  // The display name becomes the reference's name.
  function Canonical(reference: map<string, string>, c: Claim): Claim
    requires c.id in reference
  {
    if reference[c.id] != "" then c.(name := reference[c.id]) else c
  }

  function MaxConfidence(cs: seq<Claim>): real {
    if cs == [] then 0.0
    else
      var m := MaxConfidence(Front(cs));
      if m < Last(cs).confidence then Last(cs).confidence else m
  }

  function Abs(x: real): real {
    if x < 0.0 then -x else x
  }

  predicate FieldsOk(a: Analysis) {
    && 8 <= |a.title| <= 120 && 20 <= |a.narrative| <= 700 && InUnit(a.risk) && InUnit(a.confidence)
    && 1 <= |a.techniques| <= 5
  }

  predicate Cites(c: Claim, allowed: set<int>) {
    forall k :: 0 <= k < |c.evidence| ==> c.evidence[k] in allowed
  }

  function CanonicalAll(reference: map<string, string>, cs: seq<Claim>): seq<Claim>
    requires forall i :: 0 <= i < |cs| ==> cs[i].id in reference
  {
    seq(|cs|, i requires 0 <= i < |cs| => Canonical(reference, cs[i]))
  }

  // Fields first, then each claim with its name normalized, then evidence and consistency.
  function Validate(reference: map<string, string>, allowed: set<int>, a: Analysis): Option<Analysis> {
    if !FieldsOk(a) || exists i :: 0 <= i < |a.techniques| && !ClaimOk(reference, a.techniques[i]) then None
    else
      assert forall i :: 0 <= i < |a.techniques| ==> ClaimOk(reference, a.techniques[i]);
      var v := a.(techniques := CanonicalAll(reference, a.techniques));
      if (exists i :: 0 <= i < |v.techniques| && !Cites(v.techniques[i], allowed))
         || Abs(v.risk - MaxConfidence(v.techniques)) > 0.5
      then None else Some(v)
  }

  lemma {:induction false} MaxConfidenceIs(cs: seq<Claim>)
    requires forall i :: 0 <= i < |cs| ==> cs[i].confidence >= 0.0
    ensures forall i :: 0 <= i < |cs| ==> cs[i].confidence <= MaxConfidence(cs)
    ensures cs != [] ==> exists i :: 0 <= i < |cs| && cs[i].confidence == MaxConfidence(cs)
  {
    if |cs| == 1 {
      assert MaxConfidence(Front(cs)) == 0.0;
      assert cs[0].confidence == MaxConfidence(cs);
    } else if cs != [] {
      var f := Front(cs);
      MaxConfidenceIs(f);
      var i :| 0 <= i < |f| && f[i].confidence == MaxConfidence(f);
      assert cs[i].confidence == f[i].confidence && cs[|cs| - 1] == Last(cs);
      forall j | 0 <= j < |cs|
        ensures cs[j].confidence <= MaxConfidence(cs)
      {
        assert j < |f| ==> f[j].confidence <= MaxConfidence(f);
      }
    }
  }

  // An accepted analysis cites only evidence of the incident and known techniques under their
  // reference names, and its risk is within a half of its strongest claim.
  lemma AcceptedIsGrounded(reference: map<string, string>, allowed: set<int>, a: Analysis, i: nat, k: nat)
    requires Validate(reference, allowed, a).Some?
    ensures var v := Validate(reference, allowed, a).value;
      && FieldsOk(v) && |v.techniques| == |a.techniques|
      && (i < |v.techniques| ==>
            && v.techniques[i].id in reference && TechniqueId(v.techniques[i].id)
            && (reference[v.techniques[i].id] != "" ==> v.techniques[i].name == reference[v.techniques[i].id])
            && v.techniques[i] == a.techniques[i].(name := v.techniques[i].name)
            && v.techniques[i].evidence != []
            && (k < |v.techniques[i].evidence| ==> v.techniques[i].evidence[k] in allowed))
      && exists j :: 0 <= j < |v.techniques| && -0.5 <= v.risk - v.techniques[j].confidence <= 0.5
           && forall l :: 0 <= l < |v.techniques| ==> v.techniques[l].confidence <= v.techniques[j].confidence
  {
    var v := Validate(reference, allowed, a).value;
    assert forall l :: 0 <= l < |a.techniques| ==> ClaimOk(reference, a.techniques[l]);
    MaxConfidenceIs(v.techniques);
    var j :| 0 <= j < |v.techniques| && v.techniques[j].confidence == MaxConfidence(v.techniques);
    if i < |v.techniques| {
      assert Cites(v.techniques[i], allowed);
    }
  }

  // Validating an accepted analysis again changes nothing, exactly when its normalized names still
  // fit the name bounds.
  lemma ValidateTwiceIff(reference: map<string, string>, allowed: set<int>, a: Analysis)
    requires Validate(reference, allowed, a).Some?
    ensures var v := Validate(reference, allowed, a).value;
      Validate(reference, allowed, v) == Some(v)
      <==> forall i :: 0 <= i < |v.techniques| ==> 3 <= |v.techniques[i].name| <= 80
  {
    hide TechniqueId, MaxConfidence, Cites, InUnit;
    var v := Validate(reference, allowed, a).value;
    assert forall l :: 0 <= l < |a.techniques| ==> ClaimOk(reference, a.techniques[l]);
    assert forall l :: 0 <= l < |v.techniques| ==> v.techniques[l] == Canonical(reference, a.techniques[l]);
    if forall i :: 0 <= i < |v.techniques| ==> 3 <= |v.techniques[i].name| <= 80 {
      assert forall l :: 0 <= l < |v.techniques| ==> ClaimOk(reference, v.techniques[l]);
      assert CanonicalAll(reference, v.techniques) == v.techniques;
    } else {
      var i :| 0 <= i < |v.techniques| && !(3 <= |v.techniques[i].name| <= 80);
      assert !ClaimOk(reference, v.techniques[i]);
    }
  }

  // ---- the agent -------------------------------------------------------------------------------

  const PURPOSE := "incident_correlation"

  // decode: the typed reading of a JSON object, None when a field has the wrong type or is extra.
  // complain: the validation errors that the repair message quotes.
  datatype AgentConfig = AgentConfig(
    gateway: Config, system: string, reference: map<string, string>,
    decode: string -> Option<Analysis>, complain: (string, set<int>) -> string)

  datatype Verdict = Ok | OkRepaired | SchemaInvalid | Unavailable | BudgetSpent | ProviderError

  datatype Result = Result(analysis: Option<Analysis>, verdict: Verdict, repaired: bool)

  datatype Done = Done(net: Net, result: Result)

  // What one incident asks.
  datatype Question = Question(user: string, allowed: set<int>, day: nat)

  function Judge(cfg: AgentConfig, q: Question, raw: string): Option<Analysis> {
    match cfg.decode(raw)
    case None => None
    case Some(a) => Validate(cfg.reference, q.allowed, a)
  }

  function FirstMessages(cfg: AgentConfig, q: Question): seq<Message> {
    [Message("system", cfg.system), Message("user", q.user)]
  }

  function RepairMessages(cfg: AgentConfig, q: Question, raw: string): seq<Message> {
    FirstMessages(cfg, q) + [Message("assistant", raw), Message("user", cfg.complain(raw, q.allowed))]
  }

  function Failure(o: Outcome, repaired: bool): Result {
    match o
    case BudgetExhausted => Result(None, BudgetSpent, repaired)
    case NoProviders => Result(None, Unavailable, repaired)
    case _ => Result(None, ProviderError, repaired)
  }

  function Ask(cfg: AgentConfig, s: Net, q: Question, messages: seq<Message>, bust: Option<CacheKey>): Chat {
    ChatJson(cfg.gateway, s, PURPOSE, messages, q.day, bust)
  }

  function RepairRound(cfg: AgentConfig, s: Net, q: Question, raw: string, bust: Option<CacheKey>): Done {
    var c := Ask(cfg, s, q, RepairMessages(cfg, q, raw), bust);
    match c.outcome
    case Answered(a) =>
      var v := Judge(cfg, q, a.raw);
      Done(c.net, if v.Some? then Result(v, OkRepaired, true) else Result(None, SchemaInvalid, true))
    case o => Done(c.net, Failure(o, true))
  }

  function Analyze(cfg: AgentConfig, s: Net, q: Question): Done {
    var c := Ask(cfg, s, q, FirstMessages(cfg, q), None);
    match c.outcome
    case Answered(a) =>
      var v := Judge(cfg, q, a.raw);
      if v.Some? then Done(c.net, Result(v, Ok, false))
      else RepairRound(cfg, c.net, q, a.raw, Some(KeyOf(cfg.gateway, PURPOSE, FirstMessages(cfg, q))))
    case o => Done(c.net, Failure(o, false))
  }

  class Agent {
    const cfg: AgentConfig
    const gateway: Gateway

    constructor (cfg: AgentConfig, gateway: Gateway)
      requires gateway.cfg == cfg.gateway
      ensures this.cfg == cfg && this.gateway == gateway
    {
      this.cfg, this.gateway := cfg, gateway;
    }

    method AnalyzeIncident(q: Question) returns (result: Result)
      requires gateway.cfg == cfg.gateway
      modifies gateway
      ensures Done(gateway.net, result) == Analyze(cfg, old(gateway.net), q)
    {
      hide ChatJson, Judge;
      var messages := FirstMessages(cfg, q);
      var repaired := false;
      var bust: Option<CacheKey> := None;
      var raw := "";
      for attempt := 0 to 2
        invariant attempt == 0 ==> gateway.net == old(gateway.net) && messages == FirstMessages(cfg, q)
        invariant attempt == 0 ==> bust == None && !repaired
        invariant attempt > 0 ==> repaired && messages == RepairMessages(cfg, q, raw)
        invariant attempt == 1 ==> RepairRound(cfg, gateway.net, q, raw, bust) == Analyze(cfg, old(gateway.net), q)
        invariant attempt == 2 ==>
          Done(gateway.net, Result(None, SchemaInvalid, true)) == Analyze(cfg, old(gateway.net), q)
      {
        var outcome := gateway.ChatJsonCall(PURPOSE, messages, q.day, bust);
        if !outcome.Answered? {
          return Failure(outcome, repaired);
        }
        var v := Judge(cfg, q, outcome.answer.raw);
        if v.Some? {
          return Result(v, if repaired then OkRepaired else Ok, repaired);
        }
        repaired := true;
        bust := Some(KeyOf(cfg.gateway, PURPOSE, messages));
        raw := outcome.answer.raw;
        messages := messages[..2] + [Message("assistant", raw), Message("user", cfg.complain(raw, q.allowed))];
      }
      return Result(None, SchemaInvalid, repaired);
    }
  }

  // ---- what one analysis costs -------------------------------------------------------------------

  // At most six network calls for each provider, and the counters stay within the budget.
  lemma AnalyzeBound(cfg: AgentConfig, s: Net, q: Question)
    ensures var d := Analyze(cfg, s, q);
      && s.calls <= d.net.calls && |d.net.calls| <= |s.calls| + 6 * |cfg.gateway.providers|
      && (Budgeted(cfg.gateway, s) ==> Budgeted(cfg.gateway, d.net))
  {
    hide ChatJson, Judge, Budgeted;
    var m1 := FirstMessages(cfg, q);
    var k1 := KeyOf(cfg.gateway, PURPOSE, m1);
    var c := Ask(cfg, s, q, m1, None);
    ChatBound(cfg.gateway, s, PURPOSE, m1, q.day, None);
    if Budgeted(cfg.gateway, s) {
      ChatKeepsBudget(cfg.gateway, s, PURPOSE, m1, q.day, None);
    }
    if c.outcome.Answered? {
      var m2 := RepairMessages(cfg, q, c.outcome.answer.raw);
      ChatBound(cfg.gateway, c.net, PURPOSE, m2, q.day, Some(k1));
      if Budgeted(cfg.gateway, s) {
        ChatKeepsBudget(cfg.gateway, c.net, PURPOSE, m2, q.day, Some(k1));
      }
    }
  }

  // The key that the repair round asks to bust is never the key it looks up: the repair messages
  // extend the first ones, so no entry is ever deleted.
  lemma RepairNeverBusts(cfg: AgentConfig, q: Question, raw: string)
    ensures KeyOf(cfg.gateway, PURPOSE, RepairMessages(cfg, q, raw))
         != KeyOf(cfg.gateway, PURPOSE, FirstMessages(cfg, q))
  {
    assert |RepairMessages(cfg, q, raw)| == 4 && |FirstMessages(cfg, q)| == 2;
  }

  // ---- repeating an analysis ----------------------------------------------------------------------

  // An analysis deletes and changes no cache entry.
  lemma AnalyzeRemembers(cfg: AgentConfig, s: Net, q: Question)
    ensures Remembers(s, Analyze(cfg, s, q).net) && (Analyze(cfg, s, q).net.up ==> s.up)
  {
    hide ChatJson, Judge;
    var m1 := FirstMessages(cfg, q);
    var k1 := KeyOf(cfg.gateway, PURPOSE, m1);
    ChatRemembers(cfg.gateway, s, PURPOSE, m1, q.day, None);
    var c := Ask(cfg, s, q, m1, None);
    if c.outcome.Answered? {
      var raw := c.outcome.answer.raw;
      RepairNeverBusts(cfg, q, raw);
      ChatRemembers(cfg.gateway, c.net, PURPOSE, RepairMessages(cfg, q, raw), q.day, Some(k1));
    }
  }

  predicate Conclusive(v: Verdict) {
    v == Ok || v == OkRepaired || v == SchemaInvalid
  }

  // The second round, asked again of a store that remembers it.
  lemma RepairRepeats(cfg: AgentConfig, s: Net, q: Question, raw: string, t: Net)
    requires cfg.gateway.providers != []
    requires var bust := Some(KeyOf(cfg.gateway, PURPOSE, FirstMessages(cfg, q)));
      var d := RepairRound(cfg, s, q, raw, bust);
      Conclusive(d.result.verdict) && d.net.up && Remembers(d.net, t) && Steady(t)
    ensures var bust := Some(KeyOf(cfg.gateway, PURPOSE, FirstMessages(cfg, q)));
      var d, e := RepairRound(cfg, s, q, raw, bust), RepairRound(cfg, t, q, raw, bust);
      && e.result == d.result && e.net.calls == t.calls && e.net.cache == t.cache && Steady(e.net)
  {
    hide ChatJson, Judge, Steady;
    var bust := Some(KeyOf(cfg.gateway, PURPOSE, FirstMessages(cfg, q)));
    var m2 := RepairMessages(cfg, q, raw);
    RepairNeverBusts(cfg, q, raw);
    ChatRemembers(cfg.gateway, s, PURPOSE, m2, q.day, bust);
    ChatFromCache(cfg.gateway, t, PURPOSE, m2, q.day, bust);
  }

  // Repeating an analysis that reached a conclusion, with its entries unexpired and Redis up, gives
  // the same analysis and verdict without a single network call.
  lemma AnalyzeRepeats(cfg: AgentConfig, s: Net, q: Question, t: Net)
    requires var d := Analyze(cfg, s, q);
      Conclusive(d.result.verdict) && d.net.up && Remembers(d.net, t) && Steady(t)
    ensures var d, e := Analyze(cfg, s, q), Analyze(cfg, t, q);
      e.result == d.result && e.net.calls == t.calls && e.net.cache == t.cache && Steady(e.net)
  {
    ConclusiveHasProviders(cfg, s, q);
    hide ChatJson, Judge, Steady, RepairRound;
    var m1 := FirstMessages(cfg, q);
    var k1 := KeyOf(cfg.gateway, PURPOSE, m1);
    var c := Ask(cfg, s, q, m1, None);
    ChatRemembers(cfg.gateway, s, PURPOSE, m1, q.day, None);
    var raw := c.outcome.answer.raw;
    if Judge(cfg, q, raw) == None {
      var d := RepairRound(cfg, c.net, q, raw, Some(k1));
      RoundRemembers(cfg, c.net, q, raw);
      assert k1 in d.net.cache && k1 in t.cache;
      ChatFromCache(cfg.gateway, t, PURPOSE, m1, q.day, None);
      var c' := Ask(cfg, t, q, m1, None);
      RepairRepeats(cfg, c.net, q, raw, c'.net);
    } else {
      ChatFromCache(cfg.gateway, t, PURPOSE, m1, q.day, None);
    }
  }

  lemma RoundRemembers(cfg: AgentConfig, s: Net, q: Question, raw: string)
    ensures var d := RepairRound(cfg, s, q, raw, Some(KeyOf(cfg.gateway, PURPOSE, FirstMessages(cfg, q))));
      Remembers(s, d.net) && (d.net.up ==> s.up)
  {
    hide ChatJson, Judge;
    RepairNeverBusts(cfg, q, raw);
    ChatRemembers(cfg.gateway, s, PURPOSE, RepairMessages(cfg, q, raw), q.day,
                  Some(KeyOf(cfg.gateway, PURPOSE, FirstMessages(cfg, q))));
  }

  lemma ConclusiveHasProviders(cfg: AgentConfig, s: Net, q: Question)
    requires Conclusive(Analyze(cfg, s, q).result.verdict)
    ensures cfg.gateway.providers != [] && Ask(cfg, s, q, FirstMessages(cfg, q), None).outcome.Answered?
  {
    hide Chain, Judge, RepairRound;
  }

  // ---- every run ---------------------------------------------------------------------------------

  // One client analyses incidents; in between, cache entries may expire.
  datatype Use = Inquire(question: Question) | Expire(keys: set<CacheKey>)

  function RunUses(cfg: AgentConfig, s: Net, uses: seq<Use>): Net {
    if uses == [] then s
    else
      var t := RunUses(cfg, s, Front(uses));
      match Last(uses)
      case Inquire(q) => Analyze(cfg, t, q).net
      case Expire(keys) => t.(cache := t.cache - keys)
  }

  // Over every run of one client a provider's counter for a day never exceeds the budget, and as
  // long as Redis has not failed it equals the provider's successful calls of that day.
  lemma {:induction false} CountersAreExact(cfg: AgentConfig, s: Net, uses: seq<Use>, b: BudgetKey)
    requires s.spent == map[] && s.calls == []
    ensures var t := RunUses(cfg, s, uses);
      && Budgeted(cfg.gateway, t) && Spent(t, b) <= cfg.gateway.budget
      && (t.up ==> Spent(t, b) == Successes(t.calls, b))
  {
    hide Analyze;
    if uses != [] {
      CountersAreExact(cfg, s, Front(uses), b);
      var t := RunUses(cfg, s, Front(uses));
      match Last(uses)
      case Inquire(q) => AnalyzeBound(cfg, t, q);
      case Expire(keys) =>
        var u := t.(cache := t.cache - keys);
        assert forall x :: Spent(u, x) == Spent(t, x);
    }
  }
}
