/**
 The response orchestrator and the decision endpoint: containment actions move through a gated
 state machine, and every move appends to the audit ledger inside the same transaction.

 An action's id is its position in the table. One transaction is one atomic step.
 */
module ResponseActions {
  import opened Common
  import opened Audit

  datatype State = PendingApproval | Queued | Executing | Executed | Failed | Rejected | Expired | Dead

  datatype Blast = Low | High

  datatype Status = Active | Quarantined | Blocked

  // The columns a transition sets beside the state.
  datatype Extra = Nothing | Decided(approver: nat, reason: string) | Outcome(text: string)

  datatype Payload =
    | Created(actionType: string, blast: Blast, state: State, reason: string)
    | Moved(from: State, to: State, extra: Extra)

  // What the response policy asks for: one entry for each matching playbook.
  datatype Spec = Spec(playbook: nat, actionType: string, blast: Blast, reason: string)

  datatype Incident = Incident(id: nat, entity: nat)

  datatype Action = Action(
    incident: nat, playbook: nat, actionType: string, blast: Blast, entity: nat,
    state: State, attempt: nat, result: Option<string>,
    decidedBy: Option<nat>, decisionReason: Option<string>, decidedAt: Option<int>,
    idemKey: Option<string>, createdAt: int)

  datatype Db = Db(
    incidents: seq<Incident>, entities: map<nat, Status>, actions: seq<Action>,
    ledger: seq<Row<Payload>>, cursor: nat)

  const EMPTY_DB := Db([], map[], [], [], 0)

  // The worker's clock, the database's transaction time, and its printed form.
  datatype Clock = Clock(worker: int, db: int, iso: string)

  // Sets the entity's status, or raises: for the listed actions before or after it has done so, or
  // when the entity is gone.
  datatype Effector = Effector(status: Status, raisesOn: set<nat>, raisesAfter: set<nat>)

  const DEFAULT_EFFECTORS: map<string, Effector> :=
    map["quarantine_host" := Effector(Quarantined, {}, {}), "block_ip" := Effector(Blocked, {}, {})]

  const SYSTEM := "system:orchestrator"

  const MAX_REASON := 300
  const MAX_KEY := 80

  function UserActor(email: string): string {
    "user:" + email
  }

  function Transitions(s: State): set<State> {
    match s
    case PendingApproval => {Queued, Rejected, Expired}
    case Queued => {Executing, Failed}
    case Executing => {Executed, Failed}
    case Failed => {Queued, Dead}
    case _ => {}
  }

  function InitialState(b: Blast): State {
    if b == High then PendingApproval else Queued
  }

  function StateName(s: State): string {
    match s
    case PendingApproval => "pending_approval"
    case Queued => "queued"
    case Executing => "executing"
    case Executed => "executed"
    case Failed => "failed"
    case Rejected => "rejected"
    case Expired => "expired"
    case Dead => "dead"
  }

  // ---- one transition -----------------------------------------------------------------------

  function Log(h: Hasher<Payload>, db: Db, clock: Clock, actor: string, event: string, id: nat, p: Payload): Db {
    db.(ledger := AppendEntry(h, db.ledger, |db.ledger| + 1, clock.iso, actor, event, Some("action"), Some(id), p))
  }

  function SetExtra(a: Action, x: Extra): Action {
    match x
    case Nothing => a
    case Decided(approver, reason) => a.(decidedBy := Some(approver), decisionReason := Some(reason))
    case Outcome(text) => a.(result := Some(text))
  }

  function MovedAction(a: Action, to: State, extra: Extra, clock: Clock): Action {
    var at := if to == Rejected || to == Expired then Some(clock.db) else a.decidedAt;
    SetExtra(a.(state := to, decidedAt := at), extra)
  }

  // None when the table forbids the transition; the tables are then untouched.
  function Move(h: Hasher<Payload>, db: Db, clock: Clock, id: nat, to: State, actor: string, extra: Extra)
    : (r: Option<Db>)
    requires id < |db.actions|
    ensures r.Some? <==> to in Transitions(db.actions[id].state)
    ensures r.Some? ==> |r.value.actions| == |db.actions| && r.value.actions[id].state == to
  {
    var a := db.actions[id];
    if to !in Transitions(a.state) then None
    else
      var moved := db.(actions := db.actions[id := MovedAction(a, to, extra, clock)]);
      Some(Log(h, moved, clock, actor, "action_" + StateName(to), id, Moved(a.state, to, extra)))
  }

  // ---- execution ------------------------------------------------------------------------------

  datatype Execution = Execution(db: Db, ok: bool)

  // What an effector leaves in the open transaction, which nothing rolls back when it raises.
  function RunEffector(e: Effector, db: Db, id: nat): (r: Execution)
    requires id < |db.actions|
    ensures r.db.actions == db.actions
  {
    var entity := db.actions[id].entity;
    if id in e.raisesOn || entity !in db.entities then Execution(db, false)
    else Execution(db.(entities := db.entities[entity := e.status]), id !in e.raisesAfter)
  }

  function Start(h: Hasher<Payload>, db: Db, clock: Clock, id: nat): (r: Option<Db>)
    requires id < |db.actions|
    ensures r.Some? ==> |r.value.actions| == |db.actions| && r.value.actions[id].state == Executing
  {
    match Move(h, db, clock, id, Executing, SYSTEM, Nothing)
    case None => None
    case Some(d) => Some(d.(actions := d.actions[id := d.actions[id].(attempt := d.actions[id].attempt + 1)]))
  }

  function Finish(h: Hasher<Payload>, db: Db, clock: Clock, effectors: map<string, Effector>, id: nat): (r: Execution)
    requires id < |db.actions| && db.actions[id].state == Executing
    ensures |r.db.actions| == |db.actions|
  {
    var kind := db.actions[id].actionType;
    if kind !in effectors then
      Execution(Move(h, db, clock, id, Failed, SYSTEM, Outcome("no effector registered for " + kind)).value, false)
    else
      var r := RunEffector(effectors[kind], db, id);
      if r.ok then Execution(Move(h, r.db, clock, id, Executed, SYSTEM, Outcome("simulated")).value, true)
      else Execution(Move(h, r.db, clock, id, Failed, SYSTEM, Outcome("effector raised")).value, false)
  }

  function Execute(h: Hasher<Payload>, db: Db, clock: Clock, effectors: map<string, Effector>, id: nat): (r: Execution)
    requires id < |db.actions|
    ensures |r.db.actions| == |db.actions|
  {
    match Start(h, db, clock, id)
    case None => Execution(db, false)
    case Some(d) => Finish(h, d, clock, effectors, id)
  }

  // ---- a tick -----------------------------------------------------------------------------------

  // The pending actions among the first n that were created before the cutoff.
  function Stale(actions: seq<Action>, n: nat, cutoff: int): (ids: seq<nat>)
    requires n <= |actions|
    ensures forall i :: 0 <= i < |ids| ==> ids[i] < n
  {
    if n == 0 then []
    else
      var a := actions[n - 1];
      Stale(actions, n - 1, cutoff)
      + if a.state == PendingApproval && a.createdAt < cutoff then [n - 1] else []
  }

  function Expire(h: Hasher<Payload>, db: Db, clock: Clock, id: nat): (r: Db)
    requires id < |db.actions|
    ensures |r.actions| == |db.actions|
  {
    Move(h, db, clock, id, Expired, SYSTEM, Nothing).GetOr(db)
  }

  function ExpireAll(h: Hasher<Payload>, db: Db, clock: Clock, ids: seq<nat>): (r: Db)
    requires forall i :: 0 <= i < |ids| ==> ids[i] < |db.actions|
    ensures |r.actions| == |db.actions|
  {
    if ids == [] then db else Expire(h, ExpireAll(h, db, clock, Front(ids)), clock, Last(ids))
  }

  function NewAction(inc: Incident, spec: Spec, clock: Clock): Action {
    Action(inc.id, spec.playbook, spec.actionType, spec.blast, inc.entity, InitialState(spec.blast), 0,
           None, None, None, None, None, clock.db)
  }

  function CreateAction(h: Hasher<Payload>, db: Db, clock: Clock, inc: Incident, spec: Spec): (r: Db)
    ensures |r.actions| == |db.actions| + 1
  {
    Log(h, db.(actions := db.actions + [NewAction(inc, spec, clock)]), clock, SYSTEM, "action_created", |db.actions|,
        Created(spec.actionType, spec.blast, InitialState(spec.blast), spec.reason))
  }

  // A tick's tables and the number of actions it executed.
  datatype Progress = Progress(db: Db, executed: nat)

  function Carry(h: Hasher<Payload>, p: Progress, clock: Clock, effectors: map<string, Effector>, inc: Incident,
                 spec: Spec): Progress
  {
    var d := CreateAction(h, p.db, clock, inc, spec);
    if spec.blast == Low then
      var e := Execute(h, d, clock, effectors, |p.db.actions|);
      Progress(e.db, p.executed + if e.ok then 1 else 0)
    else
      Progress(d, p.executed)
  }

  function CarryAll(h: Hasher<Payload>, p: Progress, clock: Clock, effectors: map<string, Effector>, inc: Incident,
                    specs: seq<Spec>): Progress
  {
    if specs == [] then p
    else Carry(h, CarryAll(h, p, clock, effectors, inc, Front(specs)), clock, effectors, inc, Last(specs))
  }

  predicate Answered(actions: seq<Action>, incident: nat) {
    exists i :: 0 <= i < |actions| && actions[i].incident == incident
  }

  // The policy's verdict, by incident id.
  type Policy = map<nat, seq<Spec>>

  function SpecsFor(policy: Policy, incident: nat): seq<Spec> {
    if incident in policy then policy[incident] else []
  }

  function Handle(h: Hasher<Payload>, p: Progress, clock: Clock, policy: Policy, effectors: map<string, Effector>,
                  inc: Incident): Progress
  {
    if Answered(p.db.actions, inc.id) then p
    else CarryAll(h, p, clock, effectors, inc, SpecsFor(policy, inc.id))
  }

  function HandleAll(h: Hasher<Payload>, p: Progress, clock: Clock, policy: Policy, effectors: map<string, Effector>,
                     incs: seq<Incident>): Progress
  {
    if incs == [] then p
    else Handle(h, HandleAll(h, p, clock, policy, effectors, Front(incs)), clock, policy, effectors, Last(incs))
  }

  function Newer(incs: seq<Incident>, cursor: nat): seq<Incident> {
    if incs == [] then []
    else Newer(Front(incs), cursor) + if Last(incs).id > cursor then [Last(incs)] else []
  }

  function MaxId(incs: seq<Incident>, default: nat): nat {
    if incs == [] then default
    else if |incs| == 1 then incs[0].id
    else var m := MaxId(Front(incs), default); if Last(incs).id < m then m else Last(incs).id
  }

  datatype Settings = Settings(batchSize: nat, approvalTimeout: nat)

  function TickRows(s: Settings, db: Db): seq<Incident> {
    Limit(Newer(db.incidents, db.cursor), s.batchSize)
  }

  function ExpireStale(h: Hasher<Payload>, s: Settings, db: Db, clock: Clock): Db {
    ExpireAll(h, db, clock, Stale(db.actions, |db.actions|, clock.worker - s.approvalTimeout))
  }

  function TickProgress(h: Hasher<Payload>, s: Settings, db: Db, clock: Clock, policy: Policy,
                        effectors: map<string, Effector>): Progress
  {
    HandleAll(h, Progress(ExpireStale(h, s, db, clock), 0), clock, policy, effectors, TickRows(s, db))
  }

  // The effect of one committed tick.
  function TickDb(h: Hasher<Payload>, s: Settings, db: Db, clock: Clock, policy: Policy,
                  effectors: map<string, Effector>): Db
  {
    TickProgress(h, s, db, clock, policy, effectors).db.(cursor := MaxId(TickRows(s, db), db.cursor))
  }

  // ---- human decisions -----------------------------------------------------------------------

  datatype Verdict = Verdict(id: nat, decision: string, email: string, approver: nat, reason: string)

  datatype Failure = ActionNotFound | NotPending(state: State) | UnknownDecision

  datatype Ruling = Ruled(db: Db) | Refused(failure: Failure)

  function StampDecision(db: Db, id: nat, clock: Clock): (r: Db)
    requires id < |db.actions|
    ensures |r.actions| == |db.actions| && r.actions[id].state == db.actions[id].state
  {
    db.(actions := db.actions[id := db.actions[id].(decidedAt := Some(clock.db))])
  }

  function Approve(h: Hasher<Payload>, db: Db, clock: Clock, effectors: map<string, Effector>, v: Verdict): (r: Db)
    requires v.id < |db.actions| && db.actions[v.id].state == PendingApproval
    ensures |r.actions| == |db.actions|
  {
    var x := Decided(v.approver, Truncate(v.reason, MAX_REASON));
    var queued := Move(h, db, clock, v.id, Queued, UserActor(v.email), x).value;
    Execute(h, StampDecision(queued, v.id, clock), clock, effectors, v.id).db
  }

  function Reject(h: Hasher<Payload>, db: Db, clock: Clock, v: Verdict): (r: Db)
    requires v.id < |db.actions| && db.actions[v.id].state == PendingApproval
    ensures |r.actions| == |db.actions|
  {
    var x := Decided(v.approver, Truncate(v.reason, MAX_REASON));
    StampDecision(Move(h, db, clock, v.id, Rejected, UserActor(v.email), x).value, v.id, clock)
  }

  function Rule(h: Hasher<Payload>, db: Db, clock: Clock, effectors: map<string, Effector>, v: Verdict): (r: Ruling)
    ensures r.Ruled? ==> |r.db.actions| == |db.actions| && v.id < |db.actions|
  {
    if v.id >= |db.actions| then Refused(ActionNotFound)
    else if db.actions[v.id].state != PendingApproval then Refused(NotPending(db.actions[v.id].state))
    else if v.decision == "approve" then Ruled(Approve(h, db, clock, effectors, v))
    else if v.decision == "reject" then Ruled(Reject(h, db, clock, v))
    else Refused(UnknownDecision)
  }

  // ---- the decision endpoint -----------------------------------------------------------------

  // Answered carries the action that the response body shows.
  datatype Response = NotFound | Conflict | ServerError | Answer(id: nat, action: Action, replayed: bool)

  predicate HoldsKey(a: Action, key: string) {
    a.idemKey == Some(key)
  }

  // The first action recorded under a key.
  function FindKey(actions: seq<Action>, key: string): (r: Option<nat>)
    ensures r.Some? ==> r.value < |actions| && HoldsKey(actions[r.value], key)
    ensures r.None? ==> forall i :: 0 <= i < |actions| ==> !HoldsKey(actions[i], key)
  {
    if actions == [] then None
    else
      var r := FindKey(Front(actions), key);
      if r.Some? then r else if HoldsKey(Last(actions), key) then Some(|actions| - 1) else None
  }

  // A header that is absent or empty is no key.
  function Truthy(key: Option<string>): Option<string> {
    if key == Some("") then None else key
  }

  function SetKey(db: Db, id: nat, key: Option<string>): (r: Db)
    requires id < |db.actions|
    ensures |r.actions| == |db.actions|
  {
    if key.Some? && db.actions[id].idemKey == None
    then db.(actions := db.actions[id := db.actions[id].(idemKey := key)])
    else db
  }

  datatype Served = Served(db: Db, response: Response)

  function Serve(h: Hasher<Payload>, db: Db, clock: Clock, v: Verdict, header: Option<string>): Served {
    var key := Truthy(header);
    var recorded := if key.Some? then FindKey(db.actions, key.value) else None;
    if v.id >= |db.actions| then Served(db, NotFound)
    else if recorded.Some? then Served(db, Answer(recorded.value, db.actions[recorded.value], true))
    else if db.actions[v.id].state != PendingApproval then Served(db, Conflict)
    else
      match Rule(h, db, clock, DEFAULT_EFFECTORS, v)
      case Refused(_) => Served(db, Conflict)
      case Ruled(d) =>
        if key.Some? && |key.value| > MAX_KEY then Served(db, ServerError)
        else
          var kept := SetKey(d, v.id, key);
          Served(kept, Answer(v.id, kept.actions[v.id], false))
  }

  // ---- the worker ------------------------------------------------------------------------------

  // An open transaction: a private copy of the tables.
  class Session {
    var db: Db

    constructor (db: Db)
      ensures this.db == db
    {
      this.db := db;
    }
  }

  datatype Summary = Summary(incidents: nat, actionsCreated: nat, autoExecuted: nat)

  class ResponseOrchestrator {
    const hasher: Hasher<Payload>
    const settings: Settings
    const effectors: map<string, Effector>

    constructor (hasher: Hasher<Payload>, settings: Settings, effectors: map<string, Effector>)
      ensures this.hasher == hasher && this.settings == settings && this.effectors == effectors
    {
      this.hasher, this.settings, this.effectors := hasher, settings, effectors;
    }

    // Returns whether the transition was legal; an illegal one leaves the tables untouched.
    method Transition(session: Session, clock: Clock, id: nat, target: State, actor: string, extra: Extra)
      returns (ok: bool)
      requires id < |session.db.actions|
      modifies session
      ensures ok <==> target in Transitions(old(session.db).actions[id].state)
      ensures ok ==> Some(session.db) == Move(hasher, old(session.db), clock, id, target, actor, extra)
      ensures !ok ==> session.db == old(session.db)
    {
      var action := session.db.actions[id];
      if target !in Transitions(action.state) {
        return false;
      }
      var previous := action.state;
      action := action.(state := target);
      if target == Rejected || target == Expired {
        action := action.(decidedAt := Some(clock.db));
      }
      action := SetExtra(action, extra);
      session.db := session.db.(actions := session.db.actions[id := action]);
      session.db := Log(hasher, session.db, clock, actor, "action_" + StateName(target), id,
                        Moved(previous, target, extra));
      return true;
    }

    method ExpirePendingApprovals(session: Session, clock: Clock) returns (expired: nat)
      modifies session
      ensures session.db == ExpireStale(hasher, settings, old(session.db), clock)
    {
      var db0 := session.db;
      var stale := Stale(db0.actions, |db0.actions|, clock.worker - settings.approvalTimeout);
      expired := 0;
      for i := 0 to |stale|
        invariant session.db == ExpireAll(hasher, db0, clock, stale[..i])
      {
        assert Front(stale[..i + 1]) == stale[..i];
        var ok := Transition(session, clock, stale[i], Expired, SYSTEM, Nothing);
        if ok {
          expired := expired + 1;
        }
      }
      assert stale[..|stale|] == stale;
    }

    method RunAction(session: Session, clock: Clock, id: nat) returns (ok: bool)
      requires id < |session.db.actions|
      modifies session
      ensures Execution(session.db, ok) == Execute(hasher, old(session.db), clock, effectors, id)
    {
      hide Move;
      ok := Transition(session, clock, id, Executing, SYSTEM, Nothing);
      if !ok {
        return;
      }
      var action := session.db.actions[id];
      session.db := session.db.(actions := session.db.actions[id := action.(attempt := action.attempt + 1)]);
      if action.actionType !in effectors {
        ok := Transition(session, clock, id, Failed, SYSTEM,
                         Outcome("no effector registered for " + action.actionType));
        return false;
      }
      var effect := RunEffector(effectors[action.actionType], session.db, id);
      session.db := effect.db;
      if !effect.ok {
        ok := Transition(session, clock, id, Failed, SYSTEM, Outcome("effector raised"));
        return false;
      }
      ok := Transition(session, clock, id, Executed, SYSTEM, Outcome("simulated"));
    }

    method Respond(session: Session, clock: Clock, incident: Incident, specs: seq<Spec>, ghost before: nat)
      returns (created: nat, executed: nat)
      modifies session
      ensures Progress(session.db, before + executed)
           == CarryAll(hasher, Progress(old(session.db), before), clock, effectors, incident, specs)
      ensures created == |session.db.actions| - |old(session.db).actions|
    {
      hide Execute, CreateAction;
      ghost var p := Progress(session.db, before);
      created, executed := 0, 0;
      for j := 0 to |specs|
        invariant Progress(session.db, before + executed) == CarryAll(hasher, p, clock, effectors, incident, specs[..j])
        invariant created == |session.db.actions| - |p.db.actions|
      {
        assert Front(specs[..j + 1]) == specs[..j];
        var id := |session.db.actions|;
        session.db := CreateAction(hasher, session.db, clock, incident, specs[j]);
        created := created + 1;
        if specs[j].blast == Low {
          var ok := RunAction(session, clock, id);
          executed := executed + if ok then 1 else 0;
        }
      }
      assert specs[..|specs|] == specs;
    }

    // One batch of incidents; when the transaction does not commit the tables keep their old values.
    method Tick(store: Db, clock: Clock, policy: Policy, commits: bool) returns (after: Db, summary: Summary)
      ensures after == if commits then TickDb(hasher, settings, store, clock, policy, effectors) else store
      ensures summary.incidents == |TickRows(settings, store)|
      ensures commits ==> summary.actionsCreated == |after.actions| - |store.actions|
      ensures summary.autoExecuted == TickProgress(hasher, settings, store, clock, policy, effectors).executed
    {
      hide CarryAll, ExpireStale, Newer, MaxId, Answered;
      var session := new Session(store);
      var _ := ExpirePendingApprovals(session, clock);
      ExpireKeeps(hasher, settings, store, clock);
      ghost var p0 := Progress(session.db, 0);
      var rows := Limit(Newer(session.db.incidents, session.db.cursor), settings.batchSize);
      var created, executed := 0, 0;
      for i := 0 to |rows|
        invariant fresh(session)
        invariant Progress(session.db, executed) == HandleAll(hasher, p0, clock, policy, effectors, rows[..i])
        invariant created == |session.db.actions| - |store.actions|
      {
        assert Front(rows[..i + 1]) == rows[..i];
        if !Answered(session.db.actions, rows[i].id) {
          var c, e := Respond(session, clock, rows[i], SpecsFor(policy, rows[i].id), executed);
          created, executed := created + c, executed + e;
        }
      }
      assert rows[..|rows|] == rows;
      HandleAllKeepsCursor(hasher, p0, clock, policy, effectors, rows);
      session.db := session.db.(cursor := MaxId(rows, store.cursor));
      after := if commits then session.db else store;
      summary := Summary(|rows|, created, executed);
    }

    // Approves or rejects a pending action; an approval executes at once.
    method Decide(session: Session, clock: Clock, v: Verdict) returns (failure: Option<Failure>)
      modifies session
      ensures Rule(hasher, old(session.db), clock, effectors, v)
           == if failure == None then Ruled(session.db) else Refused(failure.value)
      ensures failure.Some? ==> session.db == old(session.db)
    {
      if v.id >= |session.db.actions| {
        return Some(ActionNotFound);
      }
      if session.db.actions[v.id].state != PendingApproval {
        return Some(NotPending(session.db.actions[v.id].state));
      }
      var x := Decided(v.approver, Truncate(v.reason, MAX_REASON));
      if v.decision == "approve" {
        var _ := Transition(session, clock, v.id, Queued, UserActor(v.email), x);
        session.db := StampDecision(session.db, v.id, clock);
        var _ := RunAction(session, clock, v.id);
      } else if v.decision == "reject" {
        var _ := Transition(session, clock, v.id, Rejected, UserActor(v.email), x);
        session.db := StampDecision(session.db, v.id, clock);
      } else {
        return Some(UnknownDecision);
      }
      return None;
    }
  }

  // The decision endpoint over the shared tables.
  class ActionsApi {
    const hasher: Hasher<Payload>
    const settings: Settings
    var store: Db

    constructor (hasher: Hasher<Payload>, settings: Settings, store: Db)
      ensures this.hasher == hasher && this.settings == settings && this.store == store
    {
      this.hasher, this.settings, this.store := hasher, settings, store;
    }

    method Decide(clock: Clock, v: Verdict, header: Option<string>) returns (response: Response)
      modifies this
      ensures Served(store, response) == Serve(hasher, old(store), clock, v, header)
    {
      var session := new Session(store);
      if v.id >= |session.db.actions| {
        return NotFound;
      }
      var key := Truthy(header);
      if key.Some? {
        var existing := FindKey(session.db.actions, key.value);
        if existing.Some? {
          return Answer(existing.value, session.db.actions[existing.value], true);
        }
      }
      if session.db.actions[v.id].state != PendingApproval {
        return Conflict;
      }
      var worker := new ResponseOrchestrator(hasher, settings, DEFAULT_EFFECTORS);
      var failure := worker.Decide(session, clock, v);
      if failure.Some? {
        return Conflict;
      }
      session.db := SetKey(session.db, v.id, key);
      if key.Some? && |key.value| > MAX_KEY {
        return ServerError;
      }
      store := session.db;
      return Answer(v.id, store.actions[v.id], false);
    }
  }

  // ---- frame facts the methods use -------------------------------------------------------------

  lemma ExecuteKeepsCursor(h: Hasher<Payload>, db: Db, clock: Clock, effectors: map<string, Effector>, id: nat)
    requires id < |db.actions|
    ensures var d := Execute(h, db, clock, effectors, id).db; d.cursor == db.cursor && d.incidents == db.incidents
  {
  }

  lemma {:induction false} ExpireAllKeeps(h: Hasher<Payload>, db: Db, clock: Clock, ids: seq<nat>)
    requires forall i :: 0 <= i < |ids| ==> ids[i] < |db.actions|
    ensures ExpireAll(h, db, clock, ids).cursor == db.cursor
    ensures ExpireAll(h, db, clock, ids).incidents == db.incidents
  {
    if ids != [] {
      ExpireAllKeeps(h, db, clock, Front(ids));
    }
  }

  lemma ExpireKeeps(h: Hasher<Payload>, s: Settings, db: Db, clock: Clock)
    ensures var d := ExpireStale(h, s, db, clock);
      d.cursor == db.cursor && d.incidents == db.incidents && |d.actions| == |db.actions|
  {
    ExpireAllKeeps(h, db, clock, Stale(db.actions, |db.actions|, clock.worker - s.approvalTimeout));
  }

  lemma {:induction false} CarryAllKeepsCursor(h: Hasher<Payload>, p: Progress, clock: Clock,
                                               effectors: map<string, Effector>, inc: Incident, specs: seq<Spec>)
    ensures var d := CarryAll(h, p, clock, effectors, inc, specs).db;
      d.cursor == p.db.cursor && d.incidents == p.db.incidents
  {
    hide Execute;
    if specs != [] {
      CarryAllKeepsCursor(h, p, clock, effectors, inc, Front(specs));
      var q := CarryAll(h, p, clock, effectors, inc, Front(specs));
      ExecuteKeepsCursor(h, CreateAction(h, q.db, clock, inc, Last(specs)), clock, effectors, |q.db.actions|);
    }
  }

  lemma {:induction false} HandleAllKeepsCursor(h: Hasher<Payload>, p: Progress, clock: Clock, policy: Policy,
                                                effectors: map<string, Effector>, incs: seq<Incident>)
    ensures var d := HandleAll(h, p, clock, policy, effectors, incs).db;
      d.cursor == p.db.cursor && d.incidents == p.db.incidents
  {
    hide CarryAll;
    if incs != [] {
      HandleAllKeepsCursor(h, p, clock, policy, effectors, Front(incs));
      var q := HandleAll(h, p, clock, policy, effectors, Front(incs));
      CarryAllKeepsCursor(h, q, clock, effectors, Last(incs), SpecsFor(policy, Last(incs).id));
    }
  }
}
