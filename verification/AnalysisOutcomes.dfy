/**
 What an analysis returns, said from the model's answers alone: which answers are accepted, which
 lead to the repair round, and what an accepted analysis holds.
 */
module AnalysisOutcomes {
  import opened Common
  import opened LlmGateway
  import opened CorrelationAgent

  // ---- what an answer has to meet ----------------------------------------------------------------

  predicate Digit(c: char) {
    '0' <= c <= '9'
  }

  // T1234 or T1234.567.
  predicate IsTechniqueId(s: string) {
    && (|s| == 5 || (|s| == 9 && s[5] == '.'))
    && s[0] == 'T' && forall i :: 1 <= i < |s| && i != 5 ==> Digit(s[i])
  }

  predicate MeetsClaim(cfg: AgentConfig, q: Question, c: Claim) {
    && IsTechniqueId(c.id) && c.id in cfg.reference && 3 <= |c.name| <= 80 && 0.0 <= c.confidence <= 1.0
    && c.evidence != [] && forall k :: 0 <= k < |c.evidence| ==> c.evidence[k] in q.allowed
  }

  // Claim j is the most confident one, and the risk lies within a half of it.
  predicate NearStrongest(a: Analysis, j: nat) {
    && j < |a.techniques| && -0.5 <= a.risk - a.techniques[j].confidence <= 0.5
    && forall l :: 0 <= l < |a.techniques| ==> a.techniques[l].confidence <= a.techniques[j].confidence
  }

  ghost predicate Meets(cfg: AgentConfig, q: Question, a: Analysis) {
    && 8 <= |a.title| <= 120 && 20 <= |a.narrative| <= 700
    && 0.0 <= a.risk <= 1.0 && 0.0 <= a.confidence <= 1.0 && 1 <= |a.techniques| <= 5
    && (forall l :: 0 <= l < |a.techniques| ==> MeetsClaim(cfg, q, a.techniques[l]))
    && exists j: nat :: NearStrongest(a, j)
  }

  // The same claim under the reference's name, where it has one.
  predicate RenamedClaim(cfg: AgentConfig, c: Claim, d: Claim) {
    && d.id == c.id && d.confidence == c.confidence && d.evidence == c.evidence && c.id in cfg.reference
    && d.name == if cfg.reference[c.id] != "" then cfg.reference[c.id] else c.name
  }

  ghost predicate Renamed(cfg: AgentConfig, a: Analysis, b: Analysis) {
    && b.title == a.title && b.narrative == a.narrative && b.risk == a.risk && b.confidence == a.confidence
    && |b.techniques| == |a.techniques|
    && forall l :: 0 <= l < |a.techniques| ==> RenamedClaim(cfg, a.techniques[l], b.techniques[l])
  }

  // The answer decodes to an analysis that meets the bounds.
  ghost predicate Acceptable(cfg: AgentConfig, q: Question, raw: string) {
    cfg.decode(raw).Some? && Meets(cfg, q, cfg.decode(raw).value)
  }

  // ---- one answer ----------------------------------------------------------------------------------

  lemma TechniqueIds(s: string)
    ensures TechniqueId(s) <==> IsTechniqueId(s)
  {
    if |s| == 5 || |s| == 9 {
      assert forall i :: 0 <= i < 4 ==> s[1..5][i] == s[i + 1];
      if |s| == 9 {
        assert forall i :: 0 <= i < 3 ==> s[6..][i] == s[i + 6];
      }
    }
  }

  lemma Strongest(a: Analysis)
    requires a.techniques != [] && forall l :: 0 <= l < |a.techniques| ==> a.techniques[l].confidence >= 0.0
    ensures Abs(a.risk - MaxConfidence(a.techniques)) <= 0.5 <==> exists j: nat :: NearStrongest(a, j)
  {
    hide MaxConfidence;
    MaxConfidenceIs(a.techniques);
    var j :| 0 <= j < |a.techniques| && a.techniques[j].confidence == MaxConfidence(a.techniques);
    if Abs(a.risk - MaxConfidence(a.techniques)) <= 0.5 {
      assert NearStrongest(a, j);
    }
    if exists i: nat :: NearStrongest(a, i) {
      var i: nat :| NearStrongest(a, i);
      assert a.techniques[i].confidence == a.techniques[j].confidence;
    }
  }

  lemma MeetsClaimIff(cfg: AgentConfig, q: Question, c: Claim)
    ensures MeetsClaim(cfg, q, c) <==> ClaimOk(cfg.reference, c) && Cites(c, q.allowed)
  {
    hide TechniqueId, IsTechniqueId;
    TechniqueIds(c.id);
  }

  // Renaming leaves the confidences alone.
  lemma SameConfidences(a: seq<Claim>, b: seq<Claim>)
    requires |a| == |b| && forall l :: 0 <= l < |a| ==> a[l].confidence == b[l].confidence
    ensures MaxConfidence(a) == MaxConfidence(b)
  {
    if a != [] {
      SameConfidences(Front(a), Front(b));
    }
  }

  // An answer is accepted exactly when it is acceptable, and then under the reference's names.
  lemma JudgedIff(cfg: AgentConfig, q: Question, raw: string)
    ensures Judge(cfg, q, raw).Some? <==> Acceptable(cfg, q, raw)
    ensures Judge(cfg, q, raw).Some? ==> Renamed(cfg, cfg.decode(raw).value, Judge(cfg, q, raw).value)
  {
    hide MaxConfidence, ClaimOk, MeetsClaim, Cites, NearStrongest;
    if cfg.decode(raw).Some? {
      var a := cfg.decode(raw).value;
      forall l | 0 <= l < |a.techniques|
        ensures MeetsClaim(cfg, q, a.techniques[l])
                <==> ClaimOk(cfg.reference, a.techniques[l]) && Cites(a.techniques[l], q.allowed)
      {
        MeetsClaimIff(cfg, q, a.techniques[l]);
      }
      if FieldsOk(a) && forall l :: 0 <= l < |a.techniques| ==> ClaimOk(cfg.reference, a.techniques[l]) {
        ClaimsHold(cfg, a);
        var v := a.(techniques := CanonicalAll(cfg.reference, a.techniques));
        SameConfidences(a.techniques, v.techniques);
        Strongest(a);
        forall l | 0 <= l < |a.techniques|
          ensures Cites(v.techniques[l], q.allowed) <==> Cites(a.techniques[l], q.allowed)
        {
          SameEvidence(a.techniques[l], v.techniques[l], q.allowed);
        }
      }
    }
  }

  lemma ClaimsHold(cfg: AgentConfig, a: Analysis)
    requires forall l :: 0 <= l < |a.techniques| ==> ClaimOk(cfg.reference, a.techniques[l])
    ensures forall l :: 0 <= l < |a.techniques| ==>
      a.techniques[l].id in cfg.reference && a.techniques[l].confidence >= 0.0
  {
  }

  lemma SameEvidence(a: Claim, b: Claim, allowed: set<int>)
    requires a.evidence == b.evidence
    ensures Cites(a, allowed) <==> Cites(b, allowed)
  {
  }

  // ---- one analysis ------------------------------------------------------------------------------

  // The two questions an analysis can put: the second quotes the first answer and its errors.
  function FirstChat(cfg: AgentConfig, s: Net, q: Question): Chat {
    ChatJson(cfg.gateway, s, "incident_correlation", [Message("system", cfg.system), Message("user", q.user)], q.day,
             None)
  }

  function SecondChat(cfg: AgentConfig, s: Net, q: Question, raw: string): Chat {
    ChatJson(cfg.gateway, s, "incident_correlation",
             [Message("system", cfg.system), Message("user", q.user), Message("assistant", raw),
              Message("user", cfg.complain(raw, q.allowed))], q.day, None)
  }

  // The verdict on a chat that brought no answer.
  predicate NoAnswer(o: Outcome, v: Verdict) {
    match o
    case Answered(_) => false
    case NoProviders => v == Unavailable
    case BudgetExhausted => v == BudgetSpent
    case AllFailed => v == ProviderError
    case Raised => v == ProviderError
  }

  // How an analysis ends, round by round.
  ghost predicate EndsAs(cfg: AgentConfig, s: Net, q: Question, d: Done) {
    var c := FirstChat(cfg, s, q);
    if !c.outcome.Answered? then
      NoAnswer(c.outcome, d.result.verdict) && !d.result.repaired && d.result.analysis == None && d.net == c.net
    else
      var raw := c.outcome.answer.raw;
      if Acceptable(cfg, q, raw) then
        && d.result.verdict == Ok && !d.result.repaired && d.net == c.net
        && d.result.analysis.Some? && Renamed(cfg, cfg.decode(raw).value, d.result.analysis.value)
      else
        var e := SecondChat(cfg, c.net, q, raw);
        if !e.outcome.Answered? then
          NoAnswer(e.outcome, d.result.verdict) && d.result.repaired && d.result.analysis == None && d.net == e.net
        else
          && d.result.repaired && d.net == e.net
          && if Acceptable(cfg, q, e.outcome.answer.raw) then
               && d.result.verdict == OkRepaired && d.result.analysis.Some?
               && Renamed(cfg, cfg.decode(e.outcome.answer.raw).value, d.result.analysis.value)
             else d.result.verdict == SchemaInvalid && d.result.analysis == None
  }

  // Asking to bust a key that is not looked up asks for nothing.
  lemma BustElsewhere(cfg: Config, s: Net, purpose: string, messages: seq<Message>, day: nat, key: CacheKey)
    requires key != KeyOf(cfg, purpose, messages)
    ensures ChatJson(cfg, s, purpose, messages, day, Some(key)) == ChatJson(cfg, s, purpose, messages, day, None)
  {
    hide Chain;
  }

  // For every store and script of replies an analysis ends as its answers say.
  lemma AnalysisEndsAs(cfg: AgentConfig, s: Net, q: Question)
    ensures EndsAs(cfg, s, q, Analyze(cfg, s, q))
  {
    hide ChatJson, Judge, Acceptable, Renamed;
    var c := FirstChat(cfg, s, q);
    if c.outcome.Answered? {
      var raw := c.outcome.answer.raw;
      JudgedIff(cfg, q, raw);
      RepairNeverBusts(cfg, q, raw);
      var m2 := RepairMessages(cfg, q, raw);
      assert m2 == [Message("system", cfg.system), Message("user", q.user), Message("assistant", raw),
                    Message("user", cfg.complain(raw, q.allowed))];
      BustElsewhere(cfg.gateway, c.net, PURPOSE, m2, q.day, KeyOf(cfg.gateway, PURPOSE, FirstMessages(cfg, q)));
      var e := SecondChat(cfg, c.net, q, raw);
      if e.outcome.Answered? {
        JudgedIff(cfg, q, e.outcome.answer.raw);
      }
    }
  }

  // Whatever the model answers, an analysis that is returned cites only the incident's evidence and
  // known techniques under their reference names, and keeps all bounds.
  lemma ReturnedIsGrounded(cfg: AgentConfig, s: Net, q: Question, l: nat, k: nat)
    requires Analyze(cfg, s, q).result.analysis.Some?
    ensures var v := Analyze(cfg, s, q).result.analysis.value;
      && 8 <= |v.title| <= 120 && 20 <= |v.narrative| <= 700
      && 0.0 <= v.risk <= 1.0 && 0.0 <= v.confidence <= 1.0 && 1 <= |v.techniques| <= 5
      && (exists j: nat :: NearStrongest(v, j))
      && (l < |v.techniques| ==>
            var c := v.techniques[l];
            && IsTechniqueId(c.id) && c.id in cfg.reference && 0.0 <= c.confidence <= 1.0
            && (if cfg.reference[c.id] != "" then c.name == cfg.reference[c.id] else 3 <= |c.name| <= 80)
            && c.evidence != [] && (k < |c.evidence| ==> c.evidence[k] in q.allowed))
  {
    hide ChatJson, Analyze;
    AnalysisEndsAs(cfg, s, q);
    var v := Analyze(cfg, s, q).result.analysis.value;
    var a := Accepted(cfg, s, q);
    var j: nat :| NearStrongest(a, j);
    SameStrongest(cfg, a, v, j);
    if l < |v.techniques| {
      assert RenamedClaim(cfg, a.techniques[l], v.techniques[l]) && MeetsClaim(cfg, q, a.techniques[l]);
    }
  }

  // The decoded answer that a returned analysis comes from.
  lemma Accepted(cfg: AgentConfig, s: Net, q: Question) returns (a: Analysis)
    requires Analyze(cfg, s, q).result.analysis.Some?
    ensures Meets(cfg, q, a) && Renamed(cfg, a, Analyze(cfg, s, q).result.analysis.value)
  {
    hide ChatJson, Analyze, Meets, Renamed;
    AnalysisEndsAs(cfg, s, q);
    var c := FirstChat(cfg, s, q);
    var raw := c.outcome.answer.raw;
    a := cfg.decode(if Acceptable(cfg, q, raw) then raw else SecondChat(cfg, c.net, q, raw).outcome.answer.raw).value;
  }

  lemma SameStrongest(cfg: AgentConfig, a: Analysis, b: Analysis, j: nat)
    requires Renamed(cfg, a, b) && NearStrongest(a, j)
    ensures NearStrongest(b, j)
  {
    assert forall l :: 0 <= l < |a.techniques| ==> RenamedClaim(cfg, a.techniques[l], b.techniques[l]);
  }
}
