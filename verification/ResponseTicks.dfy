/**
 What one execution, one decision and one tick do, and how the cursor covers the incidents.
 */
module ResponseTicks {
  import opened Common
  import opened Audit
  import opened ResponseActions
  import opened ResponseRuns

  // ---- one execution, one decision ----------------------------------------------------------

  // The effector exists, finds its entity, and sets the status before it raises, if it does.
  predicate Reaches(db: Db, effectors: map<string, Effector>, id: nat)
    requires id < |db.actions|
  {
    var a := db.actions[id];
    a.actionType in effectors && id !in effectors[a.actionType].raisesOn && a.entity in db.entities
  }

  // It also does not raise.
  predicate Works(db: Db, effectors: map<string, Effector>, id: nat)
    requires id < |db.actions|
  {
    Reaches(db, effectors, id) && id !in effectors[db.actions[id].actionType].raisesAfter
  }

  // The action after an execution; the text of an effector's result is left open.
  predicate RanTo(a: Action, b: Action, worked: bool) {
    && b.result.Some?
    && b == a.(state := if worked then Executed else Failed, attempt := a.attempt + 1, result := b.result)
  }

  // An execution ends as executed exactly when the effector works; it changes this action, with two
  // ledger entries, and no entity but its own, and that one exactly if the effector got to set it,
  // even when it then raised and the action failed.
  lemma ExecutionOutcome(h: Hasher<Payload>, db: Db, clock: Clock, effectors: map<string, Effector>, id: nat)
    requires id < |db.actions| && db.actions[id].state == Queued
    ensures var e := Execute(h, db, clock, effectors, id); var worked := Works(db, effectors, id);
      && e.ok == worked && RanTo(db.actions[id], e.db.actions[id], worked)
      && e.db.actions == db.actions[id := e.db.actions[id]]
      && e.db.entities == (if Reaches(db, effectors, id)
                           then db.entities[db.actions[id].entity := effectors[db.actions[id].actionType].status]
                           else db.entities)
      && db.ledger <= e.db.ledger && |e.db.ledger| == |db.ledger| + 2
      && e.db.ledger[|db.ledger|].payload == Moved(Queued, Executing, Nothing)
      && RecordsResult(e.db.ledger[|db.ledger| + 1], e.db.actions[id], effectors)
  {
    hide Start, Finish, RecordsResult;
    StartOutcome(h, db, clock, id);
    var d := Start(h, db, clock, id).value;
    FinishOutcome(h, d, clock, effectors, id);
    assert d.ledger[|db.ledger|] == Finish(h, d, clock, effectors, id).db.ledger[|db.ledger|];
  }

  lemma StartOutcome(h: Hasher<Payload>, db: Db, clock: Clock, id: nat)
    requires id < |db.actions| && db.actions[id].state == Queued
    ensures Start(h, db, clock, id).Some?
    ensures var d, a := Start(h, db, clock, id).value, db.actions[id];
      && d.actions == db.actions[id := a.(state := Executing, attempt := a.attempt + 1)] && d.entities == db.entities
      && db.ledger <= d.ledger && |d.ledger| == |db.ledger| + 1
      && d.ledger[|db.ledger|].payload == Moved(Queued, Executing, Nothing)
  {
    hide ComputeEntryHash, Truncate, LastHash;
  }

  lemma FinishOutcome(h: Hasher<Payload>, db: Db, clock: Clock, effectors: map<string, Effector>, id: nat)
    requires id < |db.actions| && db.actions[id].state == Executing
    ensures var e, a := Finish(h, db, clock, effectors, id), db.actions[id];
      && e.ok == Works(db, effectors, id)
      && e.db.actions == db.actions[id := e.db.actions[id]] && e.db.actions[id].result.Some?
      && e.db.actions[id] == a.(state := if e.ok then Executed else Failed, result := e.db.actions[id].result)
      && e.db.entities == (if Reaches(db, effectors, id)
                           then db.entities[a.entity := effectors[a.actionType].status] else db.entities)
      && db.ledger <= e.db.ledger && |e.db.ledger| == |db.ledger| + 1
      && RecordsResult(e.db.ledger[|db.ledger|], e.db.actions[id], effectors)
  {
    hide ComputeEntryHash, Truncate, LastHash;
  }

  // The ledger entry of an execution holds its result, which names the missing effector if there is none.
  predicate RecordsResult(row: Row<Payload>, b: Action, effectors: map<string, Effector>) {
    && b.result.Some? && row.payload == Moved(Executing, b.state, Outcome(b.result.value))
    && (b.actionType !in effectors ==> b.result.value == "no effector registered for " + b.actionType)
  }

  // So an action that failed because its effector raised late leaves the new status behind.
  lemma LateRaiseLeavesStatus(h: Hasher<Payload>, db: Db, clock: Clock, e: Effector, id: nat)
    requires id < |db.actions| && db.actions[id].state == Queued && db.actions[id].entity in db.entities
    requires id in e.raisesAfter && id !in e.raisesOn
    ensures var a := db.actions[id];
      var after := Execute(h, db, clock, map[a.actionType := e], id).db;
      after.actions[id].state == Failed && after.entities == db.entities[a.entity := e.status]
  {
    hide Execute;
    ExecutionOutcome(h, db, clock, map[db.actions[id].actionType := e], id);
  }

  predicate RecordsVerdict(row: Row<Payload>, v: Verdict) {
    && row.actor == Truncate(UserActor(v.email), MAX_ACTOR)
    && row.payload == Moved(PendingApproval, if v.decision == "approve" then Queued else Rejected,
                            Decided(v.approver, Truncate(v.reason, MAX_REASON)))
  }

  // A ruling records who decided, why and when, in the action and in the ledger, changes no other
  // action, and either rejects the action or has executed it.
  lemma RulingOutcome(h: Hasher<Payload>, db: Db, clock: Clock, effectors: map<string, Effector>, v: Verdict)
    requires Rule(h, db, clock, effectors, v).Ruled?
    ensures var d := Rule(h, db, clock, effectors, v).db; var a := db.actions[v.id]; var b := d.actions[v.id];
      var decided := a.(decidedBy := Some(v.approver), decisionReason := Some(Truncate(v.reason, MAX_REASON)),
                        decidedAt := Some(clock.db));
      && a.state == PendingApproval && d.actions == db.actions[v.id := b]
      && (v.decision == "approve" || v.decision == "reject")
      && |d.ledger| > |db.ledger| && RecordsVerdict(d.ledger[|db.ledger|], v)
      && (v.decision == "reject" ==> b == decided.(state := Rejected) && d.entities == db.entities)
      && (v.decision == "approve" ==> RanTo(decided, b, Works(db, effectors, v.id)))
  {
    hide ComputeEntryHash, LastHash, Execute;
    if v.decision == "approve" {
      var x := Decided(v.approver, Truncate(v.reason, MAX_REASON));
      var q := Move(h, db, clock, v.id, Queued, UserActor(v.email), x).value;
      ExecutionOutcome(h, StampDecision(q, v.id, clock), clock, effectors, v.id);
    }
  }

  // A caller may decide this action now, with this key.
  predicate Decidable(db: Db, v: Verdict, key: Option<string>) {
    && v.id < |db.actions| && db.actions[v.id].state == PendingApproval
    && (v.decision == "approve" || v.decision == "reject")
    && (key.Some? ==>
          |key.value| <= MAX_KEY && forall i :: 0 <= i < |db.actions| ==> !HoldsKey(db.actions[i], key.value))
  }

  // The endpoint decides exactly when the action exists, is pending, and the key is new and fits;
  // in every other case it changes nothing, and it reports a missing action as such.
  lemma ServedIff(h: Hasher<Payload>, db: Db, clock: Clock, v: Verdict, header: Option<string>)
    ensures var served := Serve(h, db, clock, v, header); var key := Truthy(header);
      && (Decidable(db, v, key) <==> served.response.Answer? && !served.response.replayed)
      && (!Decidable(db, v, key) ==> served.db == db)
      && (served.response.NotFound? <==> v.id >= |db.actions|)
      && (served.response.Answer? && !served.response.replayed ==> served.response.id == v.id)
      && (served.response.Answer? && served.response.replayed ==>
            key.Some? && served.response.id < |db.actions| && HoldsKey(db.actions[served.response.id], key.value)
            && served.response.action == db.actions[served.response.id])
  {
    hide Approve, Reject;
    var key := Truthy(header);
    if key.Some? {
      var found := FindKey(db.actions, key.value);
      assert found.Some? ==> HoldsKey(db.actions[found.value], key.value);
    }
  }

  // ---- expiry -------------------------------------------------------------------------------

  predicate Overdue(a: Action, cutoff: int) {
    a.state == PendingApproval && a.createdAt < cutoff
  }

  lemma ExpireOne(h: Hasher<Payload>, db: Db, clock: Clock, id: nat)
    requires id < |db.actions| && db.actions[id].state == PendingApproval
    ensures Expire(h, db, clock, id).actions
         == db.actions[id := db.actions[id].(state := Expired, decidedAt := Some(clock.db))]
  {
    hide AppendEntry;
  }

  function Lapsed(a: Action, at: int): Action {
    a.(state := Expired, decidedAt := Some(at))
  }

  // The table with the overdue actions among the first n expired.
  function WithLapsed(actions: seq<Action>, n: nat, cutoff: int, at: int): seq<Action> {
    seq(|actions|, i requires 0 <= i < |actions| =>
      if i < n && Overdue(actions[i], cutoff) then Lapsed(actions[i], at) else actions[i])
  }

  lemma NextLapsed(actions: seq<Action>, n: nat, cutoff: int, at: int)
    requires n < |actions|
    ensures var before := WithLapsed(actions, n, cutoff, at);
      && before[n] == actions[n]
      && WithLapsed(actions, n + 1, cutoff, at)
         == if Overdue(actions[n], cutoff) then before[n := Lapsed(actions[n], at)] else before
  {
  }

  lemma {:induction false} ExpiresFirst(h: Hasher<Payload>, db: Db, clock: Clock, cutoff: int, n: nat)
    requires n <= |db.actions|
    ensures ExpireAll(h, db, clock, Stale(db.actions, n, cutoff)).actions == WithLapsed(db.actions, n, cutoff, clock.db)
  {
    hide Expire, WithLapsed, Stale, ExpireAll, Overdue;
    if n == 0 {
      NoneStale(h, db, clock, cutoff);
      NoneLapsed(db.actions, cutoff, clock.db);
    } else {
      ExpiresFirst(h, db, clock, cutoff, n - 1);
      NextLapsed(db.actions, n - 1, cutoff, clock.db);
      NextStale(h, db, clock, cutoff, n - 1);
      if Overdue(db.actions[n - 1], cutoff) {
        ExpireOne(h, ExpireAll(h, db, clock, Stale(db.actions, n - 1, cutoff)), clock, n - 1);
      }
    }
  }

  lemma NoneStale(h: Hasher<Payload>, db: Db, clock: Clock, cutoff: int)
    ensures ExpireAll(h, db, clock, Stale(db.actions, 0, cutoff)) == db
  {
  }

  lemma NextStale(h: Hasher<Payload>, db: Db, clock: Clock, cutoff: int, n: nat)
    requires n < |db.actions|
    ensures Overdue(db.actions[n], cutoff) ==> db.actions[n].state == PendingApproval
    ensures var e := ExpireAll(h, db, clock, Stale(db.actions, n, cutoff));
      ExpireAll(h, db, clock, Stale(db.actions, n + 1, cutoff))
      == if Overdue(db.actions[n], cutoff) then Expire(h, e, clock, n) else e
  {
    hide Expire;
    var before, ids := Stale(db.actions, n, cutoff), Stale(db.actions, n + 1, cutoff);
    if Overdue(db.actions[n], cutoff) {
      assert Front(before + [n]) == before && ids == before + [n];
    } else {
      assert ids == before;
    }
  }

  lemma NoneLapsed(actions: seq<Action>, cutoff: int, at: int)
    ensures WithLapsed(actions, 0, cutoff, at) == actions
  {
  }

  // A tick first expires exactly the approvals older than the timeout.
  lemma ExpiresExactlyTheOverdue(h: Hasher<Payload>, s: Settings, db: Db, clock: Clock, i: nat)
    requires i < |db.actions|
    ensures ExpireStale(h, s, db, clock).actions[i]
         == if Overdue(db.actions[i], clock.worker - s.approvalTimeout)
            then db.actions[i].(state := Expired, decidedAt := Some(clock.db)) else db.actions[i]
  {
    hide ExpireAll, Stale, Overdue;
    ExpiresFirst(h, db, clock, clock.worker - s.approvalTimeout, |db.actions|);
  }

  // ---- every incident read is answered --------------------------------------------------------

  // The actions created for an incident are the specs in order, from position n on.
  ghost predicate AnswersAt(actions: seq<Action>, n: nat, inc: Incident, specs: seq<Spec>, clock: Clock) {
    && n + |specs| <= |actions|
    && forall j :: 0 <= j < |specs| ==> SameIdentity(NewAction(inc, specs[j], clock), actions[n + j])
  }

  ghost predicate AnswersFor(actions: seq<Action>, inc: Incident, specs: seq<Spec>, clock: Clock) {
    exists n: nat :: AnswersAt(actions, n, inc, specs, clock)
  }

  lemma {:induction false} CarryAllAnswers(h: Hasher<Payload>, p: Progress, clock: Clock,
                                           effectors: map<string, Effector>, inc: Incident, specs: seq<Spec>)
    requires Committed(h, p.db) && inc.entity in p.db.entities
    requires !Answered(p.db.actions, inc.id) && DistinctPlaybooks(specs)
    ensures var after := CarryAll(h, p, clock, effectors, inc, specs).db.actions;
      |after| == |p.db.actions| + |specs| && AnswersAt(after, |p.db.actions|, inc, specs, clock)
  {
    hide Committed, Carry, Answered, FreshPlaybook, AnswersAt;
    if specs == [] {
      assert AnswersAt(p.db.actions, |p.db.actions|, inc, specs, clock) by { NoAnswers(p.db.actions, inc, clock); }
    } else {
      var f := Front(specs);
      CarryAllAnswers(h, p, clock, effectors, inc, f);
      CarryAllOk(h, p, clock, effectors, inc, f);
      var q := CarryAll(h, p, clock, effectors, inc, f);
      assert inc.entity in q.db.entities.Keys;
      NextIsFresh(q.db.actions, inc.id, specs);
      CarryOk(h, q, clock, effectors, inc, Last(specs));
      AnswersOneMore(q.db, Carry(h, q, clock, effectors, inc, Last(specs)).db, |p.db.actions|, inc, specs, clock);
    }
  }

  lemma NoAnswers(actions: seq<Action>, inc: Incident, clock: Clock)
    ensures AnswersAt(actions, |actions|, inc, [], clock)
  {
  }

  lemma NextIsFresh(actions: seq<Action>, incident: nat, specs: seq<Spec>)
    requires specs != [] && DistinctPlaybooks(specs) && Covers(actions, incident, Front(specs))
    ensures FreshPlaybook(actions, incident, Last(specs).playbook)
  {
  }

  lemma AnswersOneMore(q: Db, d: Db, n: nat, inc: Incident, specs: seq<Spec>, clock: Clock)
    requires specs != [] && AnswersAt(q.actions, n, inc, Front(specs), clock) && |q.actions| == n + |specs| - 1
    requires Evolves(q, d) && |d.actions| == |q.actions| + 1
    requires SameIdentity(NewAction(inc, Last(specs), clock), Last(d.actions))
    ensures AnswersAt(d.actions, n, inc, specs, clock)
  {
    var f := Front(specs);
    forall j | 0 <= j < |specs|
      ensures SameIdentity(NewAction(inc, specs[j], clock), d.actions[n + j])
    {
      if j < |f| {
        assert SameIdentity(NewAction(inc, f[j], clock), q.actions[n + j]);
        assert SameIdentity(q.actions[n + j], d.actions[n + j]);
      }
    }
  }

  lemma AnswersForLater(a: Db, b: Db, inc: Incident, specs: seq<Spec>, clock: Clock)
    requires AnswersFor(a.actions, inc, specs, clock) && Evolves(a, b)
    ensures AnswersFor(b.actions, inc, specs, clock)
  {
    var n: nat :| AnswersAt(a.actions, n, inc, specs, clock);
    forall j | 0 <= j < |specs|
      ensures SameIdentity(NewAction(inc, specs[j], clock), b.actions[n + j])
    {
      assert SameIdentity(a.actions[n + j], b.actions[n + j]);
    }
    assert AnswersAt(b.actions, n, inc, specs, clock);
  }

  ghost predicate DistinctIncidents(incs: seq<Incident>) {
    forall i, j :: 0 <= i < j < |incs| ==> incs[i].id != incs[j].id
  }

  // Handling other incidents answers no incident outside the batch.
  lemma {:induction false} OthersUnanswered(h: Hasher<Payload>, p: Progress, clock: Clock, policy: Policy,
                                            effectors: map<string, Effector>, incs: seq<Incident>, id: nat)
    requires Committed(h, p.db) && SoundPolicy(policy) && !Answered(p.db.actions, id)
    requires forall i :: 0 <= i < |incs| ==> incs[i].entity in p.db.entities && incs[i].id != id
    ensures !Answered(HandleAll(h, p, clock, policy, effectors, incs).db.actions, id)
  {
    hide Committed, CarryAll;
    if incs != [] {
      var f, inc := Front(incs), Last(incs);
      OthersUnanswered(h, p, clock, policy, effectors, f, id);
      HandleAllOk(h, p, clock, policy, effectors, f);
      var q := HandleAll(h, p, clock, policy, effectors, f);
      assert inc.entity in p.db.entities.Keys;
      if !Answered(q.db.actions, inc.id) {
        var specs := SpecsFor(policy, inc.id);
        CarryAllOk(h, q, clock, effectors, inc, specs);
        CarryAllAnswers(h, q, clock, effectors, inc, specs);
        CarriedElsewhere(q.db, CarryAll(h, q, clock, effectors, inc, specs).db, inc, specs, clock, id);
      }
    }
  }

  lemma CarriedElsewhere(q: Db, d: Db, inc: Incident, specs: seq<Spec>, clock: Clock, id: nat)
    requires !Answered(q.actions, id) && Evolves(q, d) && inc.id != id
    requires AnswersAt(d.actions, |q.actions|, inc, specs, clock) && |d.actions| == |q.actions| + |specs|
    ensures !Answered(d.actions, id)
  {
    forall i | 0 <= i < |d.actions|
      ensures d.actions[i].incident != id
    {
      if i < |q.actions| {
        assert SameIdentity(q.actions[i], d.actions[i]);
      } else {
        assert SameIdentity(NewAction(inc, specs[i - |q.actions|], clock), d.actions[|q.actions| + (i - |q.actions|)]);
      }
    }
  }

  lemma {:induction false} HandleAllAnswers(h: Hasher<Payload>, p: Progress, clock: Clock, policy: Policy,
                                            effectors: map<string, Effector>, incs: seq<Incident>, k: nat)
    requires Committed(h, p.db) && SoundPolicy(policy) && DistinctIncidents(incs)
    requires forall i :: 0 <= i < |incs| ==> incs[i].entity in p.db.entities
    requires k < |incs| && !Answered(p.db.actions, incs[k].id)
    ensures AnswersFor(HandleAll(h, p, clock, policy, effectors, incs).db.actions, incs[k],
                       SpecsFor(policy, incs[k].id), clock)
  {
    hide Committed, CarryAll, Answered, AnswersFor;
    var f, inc := Front(incs), Last(incs);
    HandleAllOk(h, p, clock, policy, effectors, f);
    var q := HandleAll(h, p, clock, policy, effectors, f);
    assert inc.entity in p.db.entities.Keys;
    var specs := SpecsFor(policy, inc.id);
    if k < |f| {
      HandleAllAnswers(h, p, clock, policy, effectors, f, k);
      if !Answered(q.db.actions, inc.id) {
        CarryAllOk(h, q, clock, effectors, inc, specs);
        AnswersForLater(q.db, CarryAll(h, q, clock, effectors, inc, specs).db, f[k], SpecsFor(policy, f[k].id), clock);
      }
    } else {
      OthersUnanswered(h, p, clock, policy, effectors, f, inc.id);
      CarryAllAnswers(h, q, clock, effectors, inc, specs);
      AnswersForIntro(CarryAll(h, q, clock, effectors, inc, specs).db.actions, |q.db.actions|, inc, specs, clock);
    }
  }

  lemma AnswersForIntro(actions: seq<Action>, n: nat, inc: Incident, specs: seq<Spec>, clock: Clock)
    requires AnswersAt(actions, n, inc, specs, clock)
    ensures AnswersFor(actions, inc, specs, clock)
  {
  }

  // ---- the cursor covers every incident once ----------------------------------------------------

  ghost predicate Increasing(incs: seq<Incident>) {
    forall i, j :: 0 <= i < j < |incs| ==> incs[i].id < incs[j].id
  }

  function Ids(incs: seq<Incident>): seq<nat> {
    seq(|incs|, i requires 0 <= i < |incs| => incs[i].id)
  }

  // The ids of the incidents that ticks evaluated, in order.
  function Reads(h: Hasher<Payload>, s: Settings, steps: seq<Step>): seq<nat> {
    if steps == [] then []
    else
      Reads(h, s, Front(steps))
      + if Last(steps).Orchestrate? then Ids(TickRows(s, Run(h, s, EMPTY_DB, Front(steps)))) else []
  }

  // The cursor stands behind the first n incidents.
  ghost predicate CursorAt(incs: seq<Incident>, cursor: nat, n: nat) {
    && n <= |incs| && Increasing(incs)
    && (forall i :: 0 <= i < |incs| ==> (i < n <==> incs[i].id <= cursor))
    && (n == 0 ==> cursor == 0) && (n > 0 ==> cursor == incs[n - 1].id)
  }

  lemma {:induction false} NewerIsSuffix(incs: seq<Incident>, cursor: nat, n: nat)
    requires n <= |incs| && forall i :: 0 <= i < |incs| ==> (i < n <==> incs[i].id <= cursor)
    ensures Newer(incs, cursor) == incs[n..]
  {
    if incs != [] {
      var f := Front(incs);
      FrontLast(incs);
      if n < |incs| {
        NewerIsSuffix(f, cursor, n);
        assert incs[n..] == f[n..] + [Last(incs)];
      } else {
        NewerIsSuffix(f, cursor, n - 1);
        assert incs[n..] == [] && f[n - 1..] == [];
      }
    }
  }

  lemma {:induction false} MaxIdIsLast(incs: seq<Incident>, default: nat)
    requires Increasing(incs)
    ensures MaxId(incs, default) == if incs == [] then default else Last(incs).id
  {
    if |incs| > 1 {
      MaxIdIsLast(Front(incs), default);
    }
  }

  lemma TickFrame(h: Hasher<Payload>, s: Settings, db: Db, clock: Clock, policy: Policy,
                  effectors: map<string, Effector>)
    ensures var d := TickDb(h, s, db, clock, policy, effectors);
      d.incidents == db.incidents && d.cursor == MaxId(TickRows(s, db), db.cursor)
  {
    hide ExpireStale, HandleAll, TickRows;
    ExpireKeeps(h, s, db, clock);
    HandleAllKeepsCursor(h, Progress(ExpireStale(h, s, db, clock), 0), clock, policy, effectors, TickRows(s, db));
  }

  // One batch reads exactly the incidents that the cursor then passes.
  lemma BatchMovesCursor(incs: seq<Incident>, cursor: nat, batch: nat, n: nat) returns (m: nat)
    requires CursorAt(incs, cursor, n)
    ensures n <= m <= |incs| && Limit(Newer(incs, cursor), batch) == incs[n..m]
    ensures m == if |incs| - n <= batch then |incs| else n + batch
    ensures CursorAt(incs, MaxId(incs[n..m], cursor), m)
  {
    hide Newer, MaxId;
    NewerIsSuffix(incs, cursor, n);
    m := if |incs| - n <= batch then |incs| else n + batch;
    MaxIdIsLast(incs[n..m], cursor);
  }

  lemma RuleIncidents(h: Hasher<Payload>, db: Db, clock: Clock, effectors: map<string, Effector>, v: Verdict)
    ensures var r := Rule(h, db, clock, effectors, v);
      r.Ruled? ==> r.db.incidents == db.incidents && r.db.cursor == db.cursor
  {
    hide Execute, AppendEntry;
    if v.id < |db.actions| && db.actions[v.id].state == PendingApproval {
      var x := Decided(v.approver, Truncate(v.reason, MAX_REASON));
      var q := Move(h, db, clock, v.id, Queued, UserActor(v.email), x).value;
      ExecuteKeepsCursor(h, StampDecision(q, v.id, clock), clock, effectors, v.id);
    }
  }

  lemma ServeIncidents(h: Hasher<Payload>, db: Db, clock: Clock, v: Verdict, header: Option<string>)
    ensures var d := Serve(h, db, clock, v, header).db; d.incidents == db.incidents && d.cursor == db.cursor
  {
    hide Rule;
    RuleIncidents(h, db, clock, DEFAULT_EFFECTORS, v);
  }

  // How far the cursor has come after a step, and what the step read.
  lemma StepMovesCursor(h: Hasher<Payload>, s: Settings, db: Db, step: Step, n: nat) returns (m: nat)
    requires CursorAt(db.incidents, db.cursor, n)
    ensures var d := Apply(h, s, db, step);
      && n <= m && CursorAt(d.incidents, d.cursor, m) && db.incidents <= d.incidents
      && (if step.Orchestrate? then TickRows(s, db) == d.incidents[n..m] else n == m)
  {
    hide TickDb, Rule, Serve, MaxId, CursorAt;
    m := n;
    match step
    case Orchestrate(clock, policy, effectors) =>
      m := BatchMovesCursor(db.incidents, db.cursor, s.batchSize, n);
      TickFrame(h, s, db, clock, policy, effectors);
    case Arrive(i) =>
      if i.id > MaxId(db.incidents, 0) {
        ArriveKeepsCursor(db.incidents, db.cursor, n, i);
      }
    case Decide(clock, effectors, v) => RuleIncidents(h, db, clock, effectors, v);
    case Request(clock, v, header) => ServeIncidents(h, db, clock, v, header);
    case Observe(_) =>
  }

  lemma ArriveKeepsCursor(incs: seq<Incident>, cursor: nat, n: nat, i: Incident)
    requires CursorAt(incs, cursor, n) && i.id > MaxId(incs, 0)
    ensures CursorAt(incs + [i], cursor, n)
  {
    MaxIdIsLast(incs, 0);
  }

  // Over every run, ticks evaluate each incident that the cursor has passed exactly once, in order,
  // and nothing else.
  lemma {:induction false} EvaluatedOnce(h: Hasher<Payload>, s: Settings, steps: seq<Step>) returns (n: nat)
    ensures var db := Run(h, s, EMPTY_DB, steps);
      CursorAt(db.incidents, db.cursor, n) && Reads(h, s, steps) == Ids(db.incidents[..n])
  {
    hide Apply, TickRows, CursorAt;
    if steps == [] {
      n := 0;
      assert CursorAt([], 0, 0) by { CursorStarts(); }
    } else {
      var k := EvaluatedOnce(h, s, Front(steps));
      var db := Run(h, s, EMPTY_DB, Front(steps));
      n := StepMovesCursor(h, s, db, Last(steps), k);
      assert k <= |db.incidents| && n <= |Run(h, s, EMPTY_DB, steps).incidents| by { CursorInRange(h, s, steps, k, n); }
      IdsSplit(db.incidents, Run(h, s, EMPTY_DB, steps).incidents, k, n);
    }
  }

  lemma CursorStarts()
    ensures CursorAt([], 0, 0)
  {
  }

  lemma CursorInRange(h: Hasher<Payload>, s: Settings, steps: seq<Step>, k: nat, n: nat)
    requires steps != []
    requires var db := Run(h, s, EMPTY_DB, Front(steps)); CursorAt(db.incidents, db.cursor, k)
    requires var d := Run(h, s, EMPTY_DB, steps); CursorAt(d.incidents, d.cursor, n)
    ensures k <= |Run(h, s, EMPTY_DB, Front(steps)).incidents| && n <= |Run(h, s, EMPTY_DB, steps).incidents|
  {
    hide Run;
  }

  lemma IdsSplit(a: seq<Incident>, b: seq<Incident>, k: nat, n: nat)
    requires a <= b && k <= |a| && k <= n <= |b|
    ensures Ids(b[..n]) == Ids(a[..k]) + Ids(b[k..n])
  {
    assert b[..k] == a[..k];
  }

  // In every run, a tick answers each incident it reads that has no action yet with one action for
  // each spec of the policy, in the policy's order.
  lemma TickAnswers(h: Hasher<Payload>, s: Settings, steps: seq<Step>, clock: Clock, policy: Policy,
                    effectors: map<string, Effector>, k: nat)
    requires Admissible(steps) && SoundPolicy(policy)
    requires var db := Run(h, s, EMPTY_DB, steps); k < |TickRows(s, db)| && !Answered(db.actions, TickRows(s, db)[k].id)
    ensures var db := Run(h, s, EMPTY_DB, steps); var inc := TickRows(s, db)[k];
      AnswersFor(TickDb(h, s, db, clock, policy, effectors).actions, inc, SpecsFor(policy, inc.id), clock)
  {
    hide Run, AnswersFor, HandleAll, ExpireAll, Stale, Answered, Newer, MaxId, Committed;
    EveryRun(h, s, steps);
    var db := Run(h, s, EMPTY_DB, steps);
    var n := EvaluatedOnce(h, s, steps);
    var m := BatchMovesCursor(db.incidents, db.cursor, s.batchSize, n);
    var rows := TickRows(s, db);
    var stale := Stale(db.actions, |db.actions|, clock.worker - s.approvalTimeout);
    ExpireAllOk(h, db, clock, stale);
    var e := ExpireStale(h, s, db, clock);
    StillUnanswered(db, e, rows[k].id);
    RowsResolve(h, db, e, n, m);
    HandleAllAnswers(h, Progress(e, 0), clock, policy, effectors, rows, k);
  }

  lemma RowsResolve(h: Hasher<Payload>, db: Db, e: Db, n: nat, m: nat)
    requires Committed(h, db) && Evolves(db, e) && n <= m <= |db.incidents|
    ensures forall i :: 0 <= i < m - n ==> db.incidents[n..m][i].entity in e.entities
  {
    hide ActionOk, RefsOk, Intact, KeysDiffer, OnePerPlaybook;
    forall i | 0 <= i < m - n
      ensures db.incidents[n..m][i].entity in e.entities
    {
      assert db.incidents[n + i].entity in db.entities.Keys;
    }
  }

  lemma StillUnanswered(a: Db, b: Db, id: nat)
    requires !Answered(a.actions, id) && Evolves(a, b) && |a.actions| == |b.actions|
    ensures !Answered(b.actions, id)
  {
    forall i | 0 <= i < |b.actions|
      ensures b.actions[i].incident != id
    {
      assert SameIdentity(a.actions[i], b.actions[i]);
    }
  }
}
