/**
 What a tick of the orchestrator and a decision do to the tables, said from the tables before: which
 actions expire, which are created and how they end, and which requests decide.
 */
module ResponseEffects {
  import opened Common
  import opened Audit
  import opened ResponseActions
  import opened ResponseRuns
  import opened ResponseTicks

  // ---- earlier actions ---------------------------------------------------------------------------

  // The first n actions are the same in both.
  ghost predicate SameFirst(a: seq<Action>, b: seq<Action>, n: nat) {
    n <= |a| && n <= |b| && forall i :: 0 <= i < n ==> b[i] == a[i]
  }

  lemma ExecuteTouchesOne(h: Hasher<Payload>, db: Db, clock: Clock, effectors: map<string, Effector>, id: nat)
    requires id < |db.actions|
    ensures SameFirst(db.actions, Execute(h, db, clock, effectors, id).db.actions, id)
  {
    hide AppendEntry, StateName;
  }

  lemma CarryKeepsEarlier(h: Hasher<Payload>, p: Progress, clock: Clock, effectors: map<string, Effector>,
                          inc: Incident, spec: Spec)
    ensures SameFirst(p.db.actions, Carry(h, p, clock, effectors, inc, spec).db.actions, |p.db.actions|)
  {
    hide Execute, AppendEntry;
    ExecuteTouchesOne(h, CreateAction(h, p.db, clock, inc, spec), clock, effectors, |p.db.actions|);
  }

  lemma {:induction false} CarryAllKeepsEarlier(h: Hasher<Payload>, p: Progress, clock: Clock,
                                                effectors: map<string, Effector>, inc: Incident, specs: seq<Spec>)
    ensures SameFirst(p.db.actions, CarryAll(h, p, clock, effectors, inc, specs).db.actions, |p.db.actions|)
  {
    hide Carry;
    if specs != [] {
      CarryAllKeepsEarlier(h, p, clock, effectors, inc, Front(specs));
      CarryKeepsEarlier(h, CarryAll(h, p, clock, effectors, inc, Front(specs)), clock, effectors, inc, Last(specs));
    }
  }

  lemma {:induction false} HandleAllKeepsEarlier(h: Hasher<Payload>, p: Progress, clock: Clock, policy: Policy,
                                                 effectors: map<string, Effector>, incs: seq<Incident>)
    ensures SameFirst(p.db.actions, HandleAll(h, p, clock, policy, effectors, incs).db.actions, |p.db.actions|)
  {
    hide CarryAll, Answered;
    if incs != [] {
      HandleAllKeepsEarlier(h, p, clock, policy, effectors, Front(incs));
      var q := HandleAll(h, p, clock, policy, effectors, Front(incs));
      CarryAllKeepsEarlier(h, q, clock, effectors, Last(incs), SpecsFor(policy, Last(incs).id));
    }
  }

  // A tick expires exactly the pending actions created before its cutoff, with the transaction's time,
  // and leaves every other earlier action as it was.
  lemma TickExpires(h: Hasher<Payload>, s: Settings, db: Db, clock: Clock, policy: Policy,
                    effectors: map<string, Effector>, i: nat)
    requires i < |db.actions|
    ensures var d, a := TickDb(h, s, db, clock, policy, effectors), db.actions[i];
      && i < |d.actions|
      && d.actions[i] == if a.state == PendingApproval && a.createdAt < clock.worker - s.approvalTimeout
                         then a.(state := Expired, decidedAt := Some(clock.db)) else a
  {
    hide ExpireStale, HandleAll, TickRows;
    ExpireKeeps(h, s, db, clock);
    ExpiresExactlyTheOverdue(h, s, db, clock, i);
    HandleAllKeepsEarlier(h, Progress(ExpireStale(h, s, db, clock), 0), clock, policy, effectors, TickRows(s, db));
  }

  // ---- what a tick creates -------------------------------------------------------------------------

  // One action that the policy asks for.
  datatype Demand = Demand(inc: Incident, spec: Spec)

  predicate HasAction(actions: seq<Action>, incident: nat) {
    exists i :: 0 <= i < |actions| && actions[i].incident == incident
  }

  function ForIncident(inc: Incident, specs: seq<Spec>): seq<Demand> {
    seq(|specs|, i requires 0 <= i < |specs| => Demand(inc, specs[i]))
  }

  // The policy's actions for the incidents that have none, in order.
  function Asked(actions: seq<Action>, incs: seq<Incident>, policy: Policy): seq<Demand> {
    if incs == [] then []
    else
      var inc := Last(incs);
      Asked(actions, Front(incs), policy)
      + if HasAction(actions, inc.id) || inc.id !in policy then [] else ForIncident(inc, policy[inc.id])
  }

  // The effector gets to set the status of the entity.
  predicate Strikes(r: Demand, id: nat, entities: map<nat, Status>, effectors: map<string, Effector>) {
    && r.spec.blast == Low && r.spec.actionType in effectors && r.inc.entity in entities
    && id !in effectors[r.spec.actionType].raisesOn
  }

  // It does not raise either.
  predicate Succeeds(r: Demand, id: nat, entities: map<nat, Status>, effectors: map<string, Effector>) {
    Strikes(r, id, entities, effectors) && id !in effectors[r.spec.actionType].raisesAfter
  }

  // A high-blast action waits for a human; a low-blast one has been executed once.
  predicate CreatedFrom(a: Action, id: nat, r: Demand, clock: Clock, entities: map<nat, Status>,
                        effectors: map<string, Effector>)
  {
    && a.incident == r.inc.id && a.entity == r.inc.entity
    && a.playbook == r.spec.playbook && a.actionType == r.spec.actionType && a.blast == r.spec.blast
    && a.createdAt == clock.db && a.decidedBy == None && a.decisionReason == None && a.decidedAt == None
    && a.idemKey == None
    && if r.spec.blast == High then a.state == PendingApproval && a.attempt == 0 && a.result == None
       else && a.attempt == 1 && a.result.Some?
            && a.state == if Succeeds(r, id, entities, effectors) then Executed else Failed
  }

  // The statuses after the low-blast actions took effect, one after the other.
  function Struck(entities: map<nat, Status>, asked: seq<Demand>, first: nat, effectors: map<string, Effector>)
    : map<nat, Status>
  {
    if asked == [] then entities
    else
      var before, r := Struck(entities, Front(asked), first, effectors), Last(asked);
      if Strikes(r, first + |asked| - 1, entities, effectors)
      then before[r.inc.entity := effectors[r.spec.actionType].status] else before
  }

  // The ledger announces the action with the policy's reason.
  ghost predicate Announced(ledger: seq<Row<Payload>>, id: nat, spec: Spec) {
    var state := if spec.blast == High then PendingApproval else Queued;
    exists k :: 0 <= k < |ledger| && ledger[k].refId == Some(id)
                && ledger[k].payload == Created(spec.actionType, spec.blast, state, spec.reason)
  }

  function CountExecuted(actions: seq<Action>): nat {
    if actions == [] then 0 else CountExecuted(Front(actions)) + if Last(actions).state == Executed then 1 else 0
  }

  // The tables with one action for each request behind those of the base.
  ghost predicate Built(base: Db, p: Progress, asked: seq<Demand>, clock: Clock, effectors: map<string, Effector>) {
    var d, n := p.db, |base.actions|;
    && |d.actions| == n + |asked| && SameFirst(base.actions, d.actions, n) && base.ledger <= d.ledger
    && (forall j :: 0 <= j < |asked| ==>
          CreatedFrom(d.actions[n + j], n + j, asked[j], clock, base.entities, effectors))
    && (forall j :: 0 <= j < |asked| ==> Announced(d.ledger, n + j, asked[j].spec))
    && d.entities.Keys == base.entities.Keys && d.entities == Struck(base.entities, asked, n, effectors)
    && p.executed == CountExecuted(d.actions[n..])
  }

  lemma CarryCreates(h: Hasher<Payload>, p: Progress, clock: Clock, effectors: map<string, Effector>, inc: Incident,
                     spec: Spec)
    ensures var d, n, r := Carry(h, p, clock, effectors, inc, spec), |p.db.actions|, Demand(inc, spec);
      && |d.db.actions| == n + 1
      && CreatedFrom(d.db.actions[n], n, r, clock, p.db.entities, effectors)
      && d.db.entities == (if Strikes(r, n, p.db.entities, effectors)
                           then p.db.entities[inc.entity := effectors[spec.actionType].status] else p.db.entities)
      && d.executed == p.executed + (if d.db.actions[n].state == Executed then 1 else 0)
      && p.db.ledger <= d.db.ledger
  {
    hide Execute, AppendEntry, Truncate;
    var c, n := CreateAction(h, p.db, clock, inc, spec), |p.db.actions|;
    assert p.db.ledger <= c.ledger by { Logged(h, p.db, clock, inc, spec); }
    if spec.blast == Low {
      ExecutionOutcome(h, c, clock, effectors, n);
    }
  }

  lemma Logged(h: Hasher<Payload>, db: Db, clock: Clock, inc: Incident, spec: Spec)
    ensures var c := CreateAction(h, db, clock, inc, spec);
      && db.ledger <= c.ledger && Announced(c.ledger, |db.actions|, spec)
  {
    hide ComputeEntryHash;
    var c := CreateAction(h, db, clock, inc, spec);
    assert c.ledger[|db.ledger|].refId == Some(|db.actions|);
  }

  lemma AnnouncedLater(a: seq<Row<Payload>>, b: seq<Row<Payload>>, id: nat, spec: Spec)
    requires Announced(a, id, spec) && a <= b
    ensures Announced(b, id, spec)
  {
    var k :| 0 <= k < |a| && a[k].refId == Some(id)
      && a[k].payload == Created(spec.actionType, spec.blast, if spec.blast == High then PendingApproval else Queued,
                                 spec.reason);
    assert b[k] == a[k];
  }

  lemma CarryAnnounces(h: Hasher<Payload>, p: Progress, clock: Clock, effectors: map<string, Effector>, inc: Incident,
                       spec: Spec)
    ensures Announced(Carry(h, p, clock, effectors, inc, spec).db.ledger, |p.db.actions|, spec)
  {
    hide Execute, CreateAction, Announced;
    var c, n := CreateAction(h, p.db, clock, inc, spec), |p.db.actions|;
    Logged(h, p.db, clock, inc, spec);
    if spec.blast == Low {
      ExecuteGrows(h, c, clock, effectors, n);
      AnnouncedLater(c.ledger, Execute(h, c, clock, effectors, n).db.ledger, n, spec);
    }
  }

  lemma ExecuteGrows(h: Hasher<Payload>, db: Db, clock: Clock, effectors: map<string, Effector>, id: nat)
    requires id < |db.actions|
    ensures db.ledger <= Execute(h, db, clock, effectors, id).db.ledger
  {
    hide StateName, ComputeEntryHash, Truncate, LastHash;
  }

  lemma NextCount(actions: seq<Action>, n: nat)
    requires n < |actions|
    ensures CountExecuted(actions[n..])
         == CountExecuted(actions[n..|actions| - 1]) + if Last(actions).state == Executed then 1 else 0
  {
    assert Front(actions[n..]) == actions[n..|actions| - 1];
  }

  // One more request.
  lemma BuiltSnoc(h: Hasher<Payload>, base: Db, p: Progress, asked: seq<Demand>, clock: Clock,
                  effectors: map<string, Effector>, inc: Incident, spec: Spec)
    requires Built(base, p, asked, clock, effectors)
    ensures Built(base, Carry(h, p, clock, effectors, inc, spec), asked + [Demand(inc, spec)], clock, effectors)
  {
    hide Carry, CreatedFrom, Announced, Struck, CountExecuted, Strikes;
    var q, r, n := Carry(h, p, clock, effectors, inc, spec), Demand(inc, spec), |base.actions|;
    var all := asked + [r];
    CarryCreates(h, p, clock, effectors, inc, spec);
    CarryKeepsEarlier(h, p, clock, effectors, inc, spec);
    CarryAnnounces(h, p, clock, effectors, inc, spec);
    SameKeys(base.entities, p.db.entities, r, n + |asked|, clock, q.db.actions[n + |asked|], effectors);
    forall j | 0 <= j < |all|
      ensures CreatedFrom(q.db.actions[n + j], n + j, all[j], clock, base.entities, effectors)
      ensures Announced(q.db.ledger, n + j, all[j].spec)
    {
      if j < |asked| {
        assert all[j] == asked[j] && q.db.actions[n + j] == p.db.actions[n + j];
        AnnouncedLater(p.db.ledger, q.db.ledger, n + j, asked[j].spec);
      }
    }
    StruckSnoc(base.entities, asked, r, n, effectors);
    NextCount(q.db.actions, n);
    assert q.db.actions[n..|q.db.actions| - 1] == p.db.actions[n..];
  }

  // Only the entities' keys matter to what an action can do.
  lemma SameKeys(a: map<nat, Status>, b: map<nat, Status>, r: Demand, id: nat, clock: Clock, action: Action,
                 effectors: map<string, Effector>)
    requires a.Keys == b.Keys
    ensures Strikes(r, id, a, effectors) <==> Strikes(r, id, b, effectors)
    ensures CreatedFrom(action, id, r, clock, a, effectors) <==> CreatedFrom(action, id, r, clock, b, effectors)
    ensures Strikes(r, id, a, effectors) ==> r.inc.entity in a.Keys
  {
    assert r.inc.entity in a <==> r.inc.entity in a.Keys;
    assert r.inc.entity in b <==> r.inc.entity in b.Keys;
  }

  lemma StruckSnoc(entities: map<nat, Status>, asked: seq<Demand>, r: Demand, first: nat,
                   effectors: map<string, Effector>)
    ensures Struck(entities, asked + [r], first, effectors)
         == var before := Struck(entities, asked, first, effectors);
            if Strikes(r, first + |asked|, entities, effectors)
            then before[r.inc.entity := effectors[r.spec.actionType].status] else before
  {
    hide Strikes;
    Snoc(asked, r);
  }

  lemma {:induction false} CarryAllBuilds(h: Hasher<Payload>, base: Db, p: Progress, asked: seq<Demand>, clock: Clock,
                                          effectors: map<string, Effector>, inc: Incident, specs: seq<Spec>)
    requires Built(base, p, asked, clock, effectors)
    ensures Built(base, CarryAll(h, p, clock, effectors, inc, specs), asked + ForIncident(inc, specs), clock, effectors)
  {
    hide Carry, Built;
    if specs == [] {
      assert asked + ForIncident(inc, specs) == asked;
    } else {
      var f, l := Front(specs), Last(specs);
      CarryAllBuilds(h, base, p, asked, clock, effectors, inc, f);
      BuiltSnoc(h, base, CarryAll(h, p, clock, effectors, inc, f), asked + ForIncident(inc, f), clock, effectors, inc,
                l);
      assert asked + ForIncident(inc, specs) == (asked + ForIncident(inc, f)) + [Demand(inc, l)];
    }
  }

  // Requests for other incidents give this one no action.
  lemma OthersAsked(base: Db, p: Progress, asked: seq<Demand>, clock: Clock, effectors: map<string, Effector>, id: nat)
    requires Built(base, p, asked, clock, effectors) && forall j :: 0 <= j < |asked| ==> asked[j].inc.id != id
    ensures Answered(p.db.actions, id) <==> HasAction(base.actions, id)
  {
    hide Announced, Struck, CountExecuted;
    var n := |base.actions|;
    forall i | 0 <= i < |p.db.actions|
      ensures if i < n then p.db.actions[i] == base.actions[i] else p.db.actions[i].incident != id
    {
      if i >= n {
        assert CreatedFrom(p.db.actions[n + (i - n)], i, asked[i - n], clock, base.entities, effectors);
      }
    }
    if HasAction(base.actions, id) {
      var i :| 0 <= i < |base.actions| && base.actions[i].incident == id;
      assert p.db.actions[i].incident == id;
    }
  }

  lemma {:induction false} AskedAbout(actions: seq<Action>, incs: seq<Incident>, policy: Policy, j: nat)
    requires j < |Asked(actions, incs, policy)|
    ensures exists k :: 0 <= k < |incs| && Asked(actions, incs, policy)[j].inc == incs[k]
  {
    var f := Front(incs);
    var before := Asked(actions, f, policy);
    if j < |before| {
      AskedAbout(actions, f, policy, j);
      var k :| 0 <= k < |f| && before[j].inc == f[k];
      assert incs[k] == f[k];
    } else {
      assert incs[|incs| - 1] == Last(incs);
    }
  }

  lemma {:induction false} HandleAllBuilds(h: Hasher<Payload>, base: Db, clock: Clock, policy: Policy,
                                           effectors: map<string, Effector>, incs: seq<Incident>)
    requires DistinctIncidents(incs)
    ensures Built(base, HandleAll(h, Progress(base, 0), clock, policy, effectors, incs),
                  Asked(base.actions, incs, policy), clock, effectors)
  {
    hide CarryAll, Built, Answered, HasAction;
    if incs == [] {
      NothingBuilt(base, clock, effectors);
    } else {
      var f, inc := Front(incs), Last(incs);
      HandleAllBuilds(h, base, clock, policy, effectors, f);
      var p, asked := HandleAll(h, Progress(base, 0), clock, policy, effectors, f), Asked(base.actions, f, policy);
      forall j | 0 <= j < |asked|
        ensures asked[j].inc.id != inc.id
      {
        AskedAbout(base.actions, f, policy, j);
        var k :| 0 <= k < |f| && asked[j].inc == f[k];
        assert incs[k] == f[k];
      }
      OthersAsked(base, p, asked, clock, effectors, inc.id);
      if Answered(p.db.actions, inc.id) {
        assert asked + [] == asked;
      } else {
        CarryAllBuilds(h, base, p, asked, clock, effectors, inc, SpecsFor(policy, inc.id));
        NoSpecs(inc);
      }
    }
  }

  lemma NoSpecs(inc: Incident)
    ensures ForIncident(inc, []) == []
  {
  }

  lemma NothingBuilt(base: Db, clock: Clock, effectors: map<string, Effector>)
    ensures Built(base, Progress(base, 0), [], clock, effectors)
  {
    assert base.actions[|base.actions|..] == [];
  }

  // ---- a tick of any run ---------------------------------------------------------------------------

  lemma {:induction false} ExpiryKeepsEntities(h: Hasher<Payload>, db: Db, clock: Clock, ids: seq<nat>)
    requires forall i :: 0 <= i < |ids| ==> ids[i] < |db.actions|
    ensures ExpireAll(h, db, clock, ids).entities == db.entities
  {
    hide AppendEntry, StateName;
    if ids != [] {
      ExpiryKeepsEntities(h, db, clock, Front(ids));
    }
  }

  lemma SameIncidents(a: seq<Action>, b: seq<Action>, id: nat)
    requires |a| == |b| && forall i :: 0 <= i < |a| ==> b[i].incident == a[i].incident
    ensures HasAction(a, id) <==> HasAction(b, id)
  {
  }

  lemma {:induction false} SameAsked(a: seq<Action>, b: seq<Action>, incs: seq<Incident>, policy: Policy)
    requires |a| == |b| && forall i :: 0 <= i < |a| ==> b[i].incident == a[i].incident
    ensures Asked(a, incs, policy) == Asked(b, incs, policy)
  {
    hide HasAction;
    if incs != [] {
      SameAsked(a, b, Front(incs), policy);
      SameIncidents(a, b, Last(incs).id);
    }
  }

  // What the expiry leaves for the rest of a tick.
  lemma AfterExpiry(h: Hasher<Payload>, s: Settings, db: Db, clock: Clock, incs: seq<Incident>, policy: Policy)
    ensures var e := ExpireStale(h, s, db, clock);
      && |e.actions| == |db.actions| && e.entities == db.entities
      && Asked(e.actions, incs, policy) == Asked(db.actions, incs, policy)
  {
    hide Overdue, Asked, Stale, ExpireAll;
    var e := ExpireStale(h, s, db, clock);
    ExpireKeeps(h, s, db, clock);
    ExpiryKeepsEntities(h, db, clock, Stale(db.actions, |db.actions|, clock.worker - s.approvalTimeout));
    forall i | 0 <= i < |db.actions|
      ensures e.actions[i].incident == db.actions[i].incident
    {
      ExpiresExactlyTheOverdue(h, s, db, clock, i);
    }
    SameAsked(db.actions, e.actions, incs, policy);
  }

  // In every run a tick reads the incidents behind the cursor in order, as many as the batch allows,
  // and moves the cursor behind them; for those that have no action it creates one for each action
  // that the policy asks for, in order, the high-blast ones waiting, the low-blast ones executed or
  // failed, with their effects on the entities. n incidents lie before the cursor first, and m then.
  lemma TickActs(h: Hasher<Payload>, s: Settings, steps: seq<Step>, clock: Clock, policy: Policy,
                 effectors: map<string, Effector>) returns (n: nat, m: nat)
    ensures var db := Run(h, s, EMPTY_DB, steps);
      var d, p := TickDb(h, s, db, clock, policy, effectors), TickProgress(h, s, db, clock, policy, effectors);
      && CursorAt(db.incidents, db.cursor, n) && CursorAt(d.incidents, d.cursor, m) && d.incidents == db.incidents
      && n <= |db.incidents| && m == (if |db.incidents| - n <= s.batchSize then |db.incidents| else n + s.batchSize)
      && var k, asked := |db.actions|, Asked(db.actions, db.incidents[n..m], policy);
         && |d.actions| == k + |asked|
         && (forall j :: 0 <= j < |asked| ==>
               CreatedFrom(d.actions[k + j], k + j, asked[j], clock, db.entities, effectors))
         && (forall j :: 0 <= j < |asked| ==> Announced(d.ledger, k + j, asked[j].spec))
         && d.entities == Struck(db.entities, asked, k, effectors)
         && p.executed == CountExecuted(d.actions[k..])
  {
    hide Run, HandleAll, ExpireStale, Newer, MaxId, Asked, CreatedFrom, Announced, Struck, CountExecuted;
    var db := Run(h, s, EMPTY_DB, steps);
    n := EvaluatedOnce(h, s, steps);
    m := BatchMovesCursor(db.incidents, db.cursor, s.batchSize, n);
    TickFrame(h, s, db, clock, policy, effectors);
    var rows, e := db.incidents[n..m], ExpireStale(h, s, db, clock);
    assert DistinctIncidents(rows) by { RowsDistinct(db.incidents, db.cursor, n, m); }
    AfterExpiry(h, s, db, clock, rows, policy);
    HandleAllBuilds(h, e, clock, policy, effectors, rows);
  }

  lemma RowsDistinct(incs: seq<Incident>, cursor: nat, n: nat, m: nat)
    requires CursorAt(incs, cursor, n) && n <= m <= |incs|
    ensures DistinctIncidents(incs[n..m])
  {
  }

  // ---- a request to decide -------------------------------------------------------------------------

  // The first n characters, or all.
  function First(text: string, n: nat): string {
    if |text| < n then text else text[..n]
  }

  lemma FirstIsTruncate(text: string, n: nat)
    ensures First(text, n) == Truncate(text, n)
  {
  }

  predicate Keyed(header: Option<string>) {
    header.Some? && header.value != ""
  }

  predicate Recorded(db: Db, header: Option<string>, i: nat) {
    Keyed(header) && i < |db.actions| && db.actions[i].idemKey == header
  }

  // The status that a decision's action gives its entity.
  function StatusOf(kind: string): Option<Status> {
    if kind == "quarantine_host" then Some(Quarantined) else if kind == "block_ip" then Some(Blocked) else None
  }

  // The decided action: who, why and when; rejected, or executed at once.
  predicate DecidedAs(a: Action, b: Action, v: Verdict, clock: Clock, header: Option<string>, reached: bool) {
    && b.decidedBy == Some(v.approver) && b.decisionReason == Some(First(v.reason, 300))
    && b.decidedAt == Some(clock.db)
    && b.incident == a.incident && b.playbook == a.playbook && b.actionType == a.actionType && b.blast == a.blast
    && b.entity == a.entity && b.createdAt == a.createdAt
    && b.idemKey == (if Keyed(header) && a.idemKey == None then header else a.idemKey)
    && if v.decision == "reject" then b.state == Rejected && b.attempt == a.attempt && b.result == a.result
       else b.attempt == a.attempt + 1 && b.result.Some? && b.state == if reached then Executed else Failed
  }

  // The ledger entry of the ruling: by the user, from pending, with approver and reason.
  predicate RuledBy(row: Row<Payload>, v: Verdict, clock: Clock) {
    && row.actor == First("user:" + v.email, 96) && row.ts == clock.iso && row.refId == Some(v.id)
    && row.payload == Moved(PendingApproval, if v.decision == "approve" then Queued else Rejected,
                            ResponseActions.Decided(v.approver, First(v.reason, 300)))
  }

  // A request on this action is granted: it is pending, the word is known, and the key is new and short.
  ghost predicate Granted(db: Db, v: Verdict, header: Option<string>) {
    && v.id < |db.actions| && db.actions[v.id].state == PendingApproval
    && (v.decision == "approve" || v.decision == "reject")
    && (Keyed(header) ==> |header.value| <= 80 && forall i :: 0 <= i < |db.actions| ==> db.actions[i].idemKey != header)
  }

  // Every request, by what it finds: a missing action, a recorded key, an action that is not pending
  // or a word that is no decision, a key too long for its column, or a decision. Only the last
  // changes anything.
  lemma EveryRequest(h: Hasher<Payload>, db: Db, clock: Clock, v: Verdict, header: Option<string>)
    ensures var r, d := Serve(h, db, clock, v, header).response, Serve(h, db, clock, v, header).db;
      && (r == NotFound <==> v.id >= |db.actions|)
      && (r.Answer? && r.replayed <==> v.id < |db.actions| && exists i: nat :: Recorded(db, header, i))
      && (r.Answer? && r.replayed ==> Recorded(db, header, r.id) && r.action == db.actions[r.id])
      && (r.Answer? && !r.replayed <==> Granted(db, v, header))
      && (r.Answer? && !r.replayed ==> r.id == v.id && v.id < |d.actions| && r.action == d.actions[v.id])
      && (r == Conflict <==> v.id < |db.actions| && (forall i: nat :: !Recorded(db, header, i))
                             && (db.actions[v.id].state != PendingApproval
                                 || (v.decision != "approve" && v.decision != "reject")))
      && (!Granted(db, v, header) ==> d == db)
  {
    hide Approve, Reject;
    ServedIff(h, db, clock, v, header);
    var key := Truthy(header);
    if key.Some? {
      var found := FindKey(db.actions, key.value);
      if found.Some? {
        assert Recorded(db, header, found.value);
      } else {
        forall i: nat
          ensures !Recorded(db, header, i)
        {
          assert i < |db.actions| ==> !HoldsKey(db.actions[i], key.value);
        }
      }
    }
  }

  // What a granted request does: it decides its action, logs the ruling first, changes no other
  // action, and sets the status of the action's entity exactly when it approves a quarantine or a
  // block of an entity that is there.
  lemma GrantedRequest(h: Hasher<Payload>, db: Db, clock: Clock, v: Verdict, header: Option<string>)
    requires Granted(db, v, header)
    ensures var d, a := Serve(h, db, clock, v, header).db, db.actions[v.id];
      var reached := v.decision == "approve" && StatusOf(a.actionType).Some? && a.entity in db.entities;
      && v.id < |d.actions| && d.actions == db.actions[v.id := d.actions[v.id]]
      && DecidedAs(a, d.actions[v.id], v, clock, header, reached)
      && d.incidents == db.incidents && d.cursor == db.cursor
      && d.entities == (if reached then db.entities[a.entity := StatusOf(a.actionType).value] else db.entities)
      && db.ledger <= d.ledger && |d.ledger| == |db.ledger| + (if v.decision == "approve" then 3 else 1)
      && RuledBy(d.ledger[|db.ledger|], v, clock)
  {
    hide Rule, Move, ComputeEntryHash;
    var key := Truthy(header);
    NoneRecorded(db, header);
    RulingIsDone(h, db, clock, v);
    ServeIncidents(h, db, clock, v, header);
  }

  lemma NoneRecorded(db: Db, header: Option<string>)
    requires Keyed(header) ==> forall i :: 0 <= i < |db.actions| ==> db.actions[i].idemKey != header
    ensures Truthy(header).Some? ==> FindKey(db.actions, Truthy(header).value) == None
    ensures Truthy(header) == if Keyed(header) then header else None
  {
  }

  // The ruling behind a granted request, before its key is recorded.
  lemma RulingIsDone(h: Hasher<Payload>, db: Db, clock: Clock, v: Verdict)
    requires v.id < |db.actions| && db.actions[v.id].state == PendingApproval
    requires v.decision == "approve" || v.decision == "reject"
    ensures Rule(h, db, clock, DEFAULT_EFFECTORS, v).Ruled?
    ensures var d, a := Rule(h, db, clock, DEFAULT_EFFECTORS, v).db, db.actions[v.id];
      var reached := v.decision == "approve" && StatusOf(a.actionType).Some? && a.entity in db.entities;
      && v.id < |d.actions| && d.actions == db.actions[v.id := d.actions[v.id]]
      && DecidedAs(a, d.actions[v.id], v, clock, None, reached)
      && d.entities == (if reached then db.entities[a.entity := StatusOf(a.actionType).value] else db.entities)
      && db.ledger <= d.ledger && |d.ledger| == |db.ledger| + (if v.decision == "approve" then 3 else 1)
      && RuledBy(d.ledger[|db.ledger|], v, clock)
  {
    hide Approve, Reject, RuledBy, Works;
    RulingOutcome(h, db, clock, DEFAULT_EFFECTORS, v);
    DefaultsWork(db, v.id);
    FirstIsTruncate(v.reason, 300);
    if v.decision == "approve" {
      ApprovalEffect(h, db, clock, v);
    } else {
      RejectionEffect(h, db, clock, v);
    }
  }

  lemma DefaultsWork(db: Db, id: nat)
    requires id < |db.actions|
    ensures var a := db.actions[id];
      && (Works(db, DEFAULT_EFFECTORS, id) <==> StatusOf(a.actionType).Some? && a.entity in db.entities)
      && (Works(db, DEFAULT_EFFECTORS, id) ==>
            a.actionType in DEFAULT_EFFECTORS
            && StatusOf(a.actionType) == Some(DEFAULT_EFFECTORS[a.actionType].status))
  {
  }

  lemma RejectionEffect(h: Hasher<Payload>, db: Db, clock: Clock, v: Verdict)
    requires v.id < |db.actions| && db.actions[v.id].state == PendingApproval && v.decision == "reject"
    ensures var d := Reject(h, db, clock, v);
      && d.entities == db.entities && db.ledger <= d.ledger && |d.ledger| == |db.ledger| + 1
      && RuledBy(d.ledger[|db.ledger|], v, clock)
  {
    hide ComputeEntryHash;
  }

  lemma ApprovalEffect(h: Hasher<Payload>, db: Db, clock: Clock, v: Verdict)
    requires v.id < |db.actions| && db.actions[v.id].state == PendingApproval && v.decision == "approve"
    ensures var d, a := Approve(h, db, clock, DEFAULT_EFFECTORS, v), db.actions[v.id];
      && d.entities == (if Works(db, DEFAULT_EFFECTORS, v.id)
                        then db.entities[a.entity := DEFAULT_EFFECTORS[a.actionType].status] else db.entities)
      && db.ledger <= d.ledger && |d.ledger| == |db.ledger| + 3
      && RuledBy(d.ledger[|db.ledger|], v, clock)
  {
    hide Execute, ComputeEntryHash;
    var x := ResponseActions.Decided(v.approver, Truncate(v.reason, MAX_REASON));
    var q := StampDecision(Move(h, db, clock, v.id, Queued, UserActor(v.email), x).value, v.id, clock);
    assert q.ledger == Move(h, db, clock, v.id, Queued, UserActor(v.email), x).value.ledger;
    ExecutionOutcome(h, q, clock, DEFAULT_EFFECTORS, v.id);
    assert q.ledger[|db.ledger|] == Approve(h, db, clock, DEFAULT_EFFECTORS, v).ledger[|db.ledger|];
  }

  // ---- every ledger entry is stamped ---------------------------------------------------------------

  // The ledger grew by entries with this time, numbered on.
  ghost predicate Stamped(a: seq<Row<Payload>>, b: seq<Row<Payload>>, iso: string) {
    a <= b && forall i :: |a| <= i < |b| ==> b[i].ts == iso && b[i].seqNo == i + 1
  }

  lemma StampedTwice(a: seq<Row<Payload>>, b: seq<Row<Payload>>, c: seq<Row<Payload>>, iso: string)
    requires Stamped(a, b, iso) && Stamped(b, c, iso)
    ensures Stamped(a, c, iso)
  {
  }

  lemma LogStamped(h: Hasher<Payload>, db: Db, clock: Clock, actor: string, event: string, id: nat, p: Payload)
    ensures Stamped(db.ledger, Log(h, db, clock, actor, event, id, p).ledger, clock.iso)
  {
    hide ComputeEntryHash, Truncate, LastHash;
  }

  lemma MoveStamped(h: Hasher<Payload>, db: Db, clock: Clock, id: nat, to: State, actor: string, extra: Extra)
    requires id < |db.actions| && to in Transitions(db.actions[id].state)
    ensures Stamped(db.ledger, Move(h, db, clock, id, to, actor, extra).value.ledger, clock.iso)
  {
    hide Log;
    var moved := db.(actions := db.actions[id := MovedAction(db.actions[id], to, extra, clock)]);
    LogStamped(h, moved, clock, actor, "action_" + StateName(to), id, Moved(db.actions[id].state, to, extra));
  }

  lemma FinishStamped(h: Hasher<Payload>, db: Db, clock: Clock, effectors: map<string, Effector>, id: nat)
    requires id < |db.actions| && db.actions[id].state == Executing
    ensures Stamped(db.ledger, Finish(h, db, clock, effectors, id).db.ledger, clock.iso)
  {
    hide Move, Stamped;
    var kind := db.actions[id].actionType;
    if kind !in effectors {
      MoveStamped(h, db, clock, id, Failed, SYSTEM, Outcome("no effector registered for " + kind));
    } else {
      var r := RunEffector(effectors[kind], db, id);
      MoveStamped(h, r.db, clock, id, Executed, SYSTEM, Outcome("simulated"));
      MoveStamped(h, r.db, clock, id, Failed, SYSTEM, Outcome("effector raised"));
    }
  }

  lemma ExecuteStamped(h: Hasher<Payload>, db: Db, clock: Clock, effectors: map<string, Effector>, id: nat)
    requires id < |db.actions|
    ensures Stamped(db.ledger, Execute(h, db, clock, effectors, id).db.ledger, clock.iso)
  {
    hide Move, Finish;
    if Executing in Transitions(db.actions[id].state) {
      MoveStamped(h, db, clock, id, Executing, SYSTEM, Nothing);
      var d := Start(h, db, clock, id).value;
      FinishStamped(h, d, clock, effectors, id);
      StampedTwice(db.ledger, d.ledger, Finish(h, d, clock, effectors, id).db.ledger, clock.iso);
    }
  }

  lemma {:induction false} ExpireAllStamped(h: Hasher<Payload>, db: Db, clock: Clock, ids: seq<nat>)
    requires forall i :: 0 <= i < |ids| ==> ids[i] < |db.actions|
    ensures Stamped(db.ledger, ExpireAll(h, db, clock, ids).ledger, clock.iso)
  {
    hide Move;
    if ids != [] {
      ExpireAllStamped(h, db, clock, Front(ids));
      var e := ExpireAll(h, db, clock, Front(ids));
      if Expired in Transitions(e.actions[Last(ids)].state) {
        MoveStamped(h, e, clock, Last(ids), Expired, SYSTEM, Nothing);
        StampedTwice(db.ledger, e.ledger, Expire(h, e, clock, Last(ids)).ledger, clock.iso);
      }
    }
  }

  lemma CarryStamped(h: Hasher<Payload>, p: Progress, clock: Clock, effectors: map<string, Effector>, inc: Incident,
                     spec: Spec)
    ensures Stamped(p.db.ledger, Carry(h, p, clock, effectors, inc, spec).db.ledger, clock.iso)
  {
    hide Log, Execute;
    var id := |p.db.actions|;
    LogStamped(h, p.db.(actions := p.db.actions + [NewAction(inc, spec, clock)]), clock, SYSTEM, "action_created", id,
               Created(spec.actionType, spec.blast, InitialState(spec.blast), spec.reason));
    var c := CreateAction(h, p.db, clock, inc, spec);
    if spec.blast == Low {
      ExecuteStamped(h, c, clock, effectors, id);
      StampedTwice(p.db.ledger, c.ledger, Execute(h, c, clock, effectors, id).db.ledger, clock.iso);
    }
  }

  lemma {:induction false} CarryAllStamped(h: Hasher<Payload>, p: Progress, clock: Clock,
                                           effectors: map<string, Effector>, inc: Incident, specs: seq<Spec>)
    ensures Stamped(p.db.ledger, CarryAll(h, p, clock, effectors, inc, specs).db.ledger, clock.iso)
  {
    hide Carry;
    if specs != [] {
      CarryAllStamped(h, p, clock, effectors, inc, Front(specs));
      var q := CarryAll(h, p, clock, effectors, inc, Front(specs));
      CarryStamped(h, q, clock, effectors, inc, Last(specs));
      StampedTwice(p.db.ledger, q.db.ledger, Carry(h, q, clock, effectors, inc, Last(specs)).db.ledger, clock.iso);
    }
  }

  lemma {:induction false} HandleAllStamped(h: Hasher<Payload>, p: Progress, clock: Clock, policy: Policy,
                                            effectors: map<string, Effector>, incs: seq<Incident>)
    ensures Stamped(p.db.ledger, HandleAll(h, p, clock, policy, effectors, incs).db.ledger, clock.iso)
  {
    hide CarryAll, Answered;
    if incs != [] {
      HandleAllStamped(h, p, clock, policy, effectors, Front(incs));
      var q, inc := HandleAll(h, p, clock, policy, effectors, Front(incs)), Last(incs);
      CarryAllStamped(h, q, clock, effectors, inc, SpecsFor(policy, inc.id));
      StampedTwice(p.db.ledger, q.db.ledger,
                   CarryAll(h, q, clock, effectors, inc, SpecsFor(policy, inc.id)).db.ledger, clock.iso);
    }
  }

  lemma TickStamped(h: Hasher<Payload>, s: Settings, db: Db, clock: Clock, policy: Policy,
                    effectors: map<string, Effector>)
    ensures Stamped(db.ledger, TickDb(h, s, db, clock, policy, effectors).ledger, clock.iso)
  {
    hide ExpireAll, HandleAll, Stale, TickRows;
    var e := ExpireStale(h, s, db, clock);
    ExpireAllStamped(h, db, clock, Stale(db.actions, |db.actions|, clock.worker - s.approvalTimeout));
    HandleAllStamped(h, Progress(e, 0), clock, policy, effectors, TickRows(s, db));
    StampedTwice(db.ledger, e.ledger, TickDb(h, s, db, clock, policy, effectors).ledger, clock.iso);
  }

  lemma RuleStamped(h: Hasher<Payload>, db: Db, clock: Clock, effectors: map<string, Effector>, v: Verdict)
    requires Rule(h, db, clock, effectors, v).Ruled?
    ensures Stamped(db.ledger, Rule(h, db, clock, effectors, v).db.ledger, clock.iso)
  {
    hide Move, Execute;
    var x := ResponseActions.Decided(v.approver, Truncate(v.reason, MAX_REASON));
    if v.decision == "approve" {
      MoveStamped(h, db, clock, v.id, Queued, UserActor(v.email), x);
      var q := StampDecision(Move(h, db, clock, v.id, Queued, UserActor(v.email), x).value, v.id, clock);
      ExecuteStamped(h, q, clock, effectors, v.id);
      StampedTwice(db.ledger, q.ledger, Execute(h, q, clock, effectors, v.id).db.ledger, clock.iso);
    } else {
      MoveStamped(h, db, clock, v.id, Rejected, UserActor(v.email), x);
    }
  }

  // The time that the step's transaction prints; arrivals write no entries.
  function IsoOf(step: Step): string {
    match step
    case Orchestrate(clock, _, _) => clock.iso
    case Decide(clock, _, _) => clock.iso
    case Request(clock, _, _) => clock.iso
    case _ => ""
  }

  // In every run each step only adds ledger entries, with its own time and numbered without gaps.
  lemma StepIsStamped(h: Hasher<Payload>, s: Settings, db: Db, step: Step)
    ensures Stamped(db.ledger, Apply(h, s, db, step).ledger, IsoOf(step))
    ensures step.Observe? || step.Arrive? ==> Apply(h, s, db, step).ledger == db.ledger
  {
    hide TickDb, Rule, MaxId;
    match step
    case Orchestrate(clock, policy, effectors) => TickStamped(h, s, db, clock, policy, effectors);
    case Decide(clock, effectors, v) =>
      if Rule(h, db, clock, effectors, v).Ruled? {
        RuleStamped(h, db, clock, effectors, v);
      }
    case Request(clock, v, header) =>
      if Rule(h, db, clock, DEFAULT_EFFECTORS, v).Ruled? {
        RuleStamped(h, db, clock, DEFAULT_EFFECTORS, v);
      }
    case _ =>
  }

  lemma {:induction false} LedgerIsNumbered(h: Hasher<Payload>, s: Settings, steps: seq<Step>, i: nat)
    requires i < |Run(h, s, EMPTY_DB, steps).ledger|
    ensures Run(h, s, EMPTY_DB, steps).ledger[i].seqNo == i + 1
  {
    hide Apply;
    if steps != [] {
      var db := Run(h, s, EMPTY_DB, Front(steps));
      StepIsStamped(h, s, db, Last(steps));
      if i < |db.ledger| {
        LedgerIsNumbered(h, s, Front(steps), i);
      }
    }
  }
}
