/**
 Every run of the response system: the ledger accounts for every action, high-blast actions wait
 for a human, lives are bounded, and a keyed decision happens once.
 */
module ResponseRuns {
  import opened Common
  import opened Audit
  import opened ResponseActions

  // One committed transaction. A transaction that aborts changes nothing and is left out of a run.
  datatype Step =
    | Observe(entity: nat)
    | Arrive(incident: Incident)
    | Orchestrate(clock: Clock, policy: Policy, effectors: map<string, Effector>)
    | Decide(clock: Clock, effectors: map<string, Effector>, verdict: Verdict)
    | Request(clock: Clock, verdict: Verdict, header: Option<string>)

  function Apply(h: Hasher<Payload>, s: Settings, db: Db, step: Step): Db {
    match step
    case Observe(e) => if e in db.entities then db else db.(entities := db.entities[e := Active])
    case Arrive(i) =>
      if i.entity in db.entities && i.id > MaxId(db.incidents, 0) then db.(incidents := db.incidents + [i]) else db
    case Orchestrate(clock, policy, effectors) => TickDb(h, s, db, clock, policy, effectors)
    case Decide(clock, effectors, v) =>
      var r := Rule(h, db, clock, effectors, v);
      if r.Ruled? then r.db else db
    case Request(clock, v, header) => Serve(h, db, clock, v, header).db
  }

  function Run(h: Hasher<Payload>, s: Settings, db: Db, steps: seq<Step>): Db {
    if steps == [] then db else Apply(h, s, Run(h, s, db, Front(steps)), Last(steps))
  }

  // The policy never names a playbook twice for one incident: playbook rows are unique.
  ghost predicate SoundPolicy(policy: Policy) {
    forall i :: i in policy ==> DistinctPlaybooks(policy[i])
  }

  ghost predicate DistinctPlaybooks(specs: seq<Spec>) {
    forall i, j :: 0 <= i < j < |specs| ==> specs[i].playbook != specs[j].playbook
  }

  ghost predicate Admissible(steps: seq<Step>) {
    forall i :: 0 <= i < |steps| ==> SoundStep(steps[i])
  }

  ghost predicate SoundStep(step: Step) {
    step.Orchestrate? ==> SoundPolicy(step.policy)
  }

  // ---- replaying the ledger -----------------------------------------------------------------

  // The ledger entries that name an action.
  function Trail(ledger: seq<Row<Payload>>, id: nat): seq<Row<Payload>> {
    if ledger == [] then []
    else Trail(Front(ledger), id) + if Last(ledger).refId == Some(id) then [Last(ledger)] else []
  }

  // What a trail says of its action: its state and how often it was started.
  datatype Account = Account(state: State, attempts: nat)

  // The edges of the transition table that the code takes.
  predicate Taken(from: State, to: State) {
    match from
    case PendingApproval => to in {Queued, Rejected, Expired}
    case Queued => to == Executing
    case Executing => to in {Executed, Failed}
    case _ => false
  }

  predicate IsUser(actor: string) {
    "user:" <= actor
  }

  predicate Birth(kind: string, blast: Blast, row: Row<Payload>) {
    && row.payload.Created? && row.payload.actionType == kind && row.payload.blast == blast
    && row.payload.state == (if blast == High then PendingApproval else Queued)
    && row.eventType == "action_created" && row.actor == "system:orchestrator"
  }

  predicate WellMoved(from: State, row: Row<Payload>) {
    && row.payload.Moved? && row.payload.from == from && Taken(from, row.payload.to)
    && Names(row.eventType, row.payload.to)
    && (if row.payload.to == Queued || row.payload.to == Rejected then IsUser(row.actor)
        else row.actor == "system:orchestrator")
  }

  // The event type of a move to a state.
  predicate Names(eventType: string, to: State) {
    match to
    case PendingApproval => eventType == "action_pending_approval"
    case Queued => eventType == "action_queued"
    case Executing => eventType == "action_executing"
    case Executed => eventType == "action_executed"
    case Failed => eventType == "action_failed"
    case Rejected => eventType == "action_rejected"
    case Expired => eventType == "action_expired"
    case Dead => eventType == "action_dead"
  }

  lemma NamesIts(to: State)
    ensures Names("action_" + StateName(to), to)
  {
    assert "action_" + "pending_approval" == "action_pending_approval";
    assert "action_" + "queued" == "action_queued" && "action_" + "executing" == "action_executing";
    assert "action_" + "executed" == "action_executed" && "action_" + "failed" == "action_failed";
    assert "action_" + "rejected" == "action_rejected" && "action_" + "expired" == "action_expired";
    assert "action_" + "dead" == "action_dead";
  }

  // The table of transitions: nine edges, and none out of a final state.
  lemma MoveAllowedIff(h: Hasher<Payload>, db: Db, clock: Clock, id: nat, to: State, actor: string, extra: Extra)
    requires id < |db.actions|
    ensures var from := db.actions[id].state;
      Move(h, db, clock, id, to, actor, extra).Some? <==>
        (from == PendingApproval && to in {Queued, Rejected, Expired}) || (from == Queued && to in {Executing, Failed})
        || (from == Executing && to in {Executed, Failed}) || (from == Failed && to in {Queued, Dead})
  {
  }

  // Replays a trail from its creation; None when an entry does not follow from the one before.
  function Replay(kind: string, blast: Blast, trail: seq<Row<Payload>>): Option<Account> {
    if trail == [] then None
    else if |trail| == 1 then
      if Birth(kind, blast, trail[0]) then Some(Account(InitialState(blast), 0)) else None
    else
      var before := Replay(kind, blast, Front(trail));
      if before.Some? && WellMoved(before.value.state, Last(trail)) then
        var to := Last(trail).payload.to;
        Some(Account(to, before.value.attempts + if to == Executing then 1 else 0))
      else None
  }

  // ---- the invariant ------------------------------------------------------------------------

  predicate Finished(s: State) {
    s in {Executed, Failed, Rejected, Expired}
  }

  predicate Resting(s: State) {
    s == PendingApproval || Finished(s)
  }

  ghost predicate ActionOk(db: Db, id: nat)
    requires id < |db.actions|
  {
    var a := db.actions[id];
    && Replay(a.actionType, a.blast, Trail(db.ledger, id)) == Some(Account(a.state, a.attempt))
    && (a.idemKey.Some? ==> Finished(a.state) && a.idemKey.value != "")
    && a.entity in db.entities
  }

  ghost predicate KeysDiffer(actions: seq<Action>) {
    forall i, j :: 0 <= i < j < |actions| && actions[i].idemKey.Some? ==> actions[i].idemKey != actions[j].idemKey
  }

  ghost predicate OnePerPlaybook(actions: seq<Action>) {
    forall i, j :: 0 <= i < j < |actions| && actions[i].incident == actions[j].incident
      ==> actions[i].playbook != actions[j].playbook
  }

  ghost predicate RefsOk(db: Db) {
    forall i :: 0 <= i < |db.ledger| ==>
      db.ledger[i].refType == Some("action") && db.ledger[i].refId.Some? && db.ledger[i].refId.value < |db.actions|
  }

  const NOBODY := -1

  // The invariant of an open transaction in which only the busy action may be in flight.
  ghost predicate Open(h: Hasher<Payload>, db: Db, busy: int) {
    && Intact(h, db.ledger) && RefsOk(db)
    && (forall id :: 0 <= id < |db.actions| ==> ActionOk(db, id))
    && (forall id :: 0 <= id < |db.actions| && id != busy ==> Resting(db.actions[id].state))
    && KeysDiffer(db.actions) && OnePerPlaybook(db.actions)
    && (forall i :: 0 <= i < |db.incidents| ==> db.incidents[i].entity in db.entities)
  }

  // What every committed state satisfies.
  ghost predicate Committed(h: Hasher<Payload>, db: Db) {
    Open(h, db, NOBODY)
  }

  // How the tables change: actions keep their identity, finished actions are frozen, the ledger grows.
  ghost predicate Evolves(a: Db, b: Db) {
    && |a.actions| <= |b.actions| && a.ledger <= b.ledger && a.entities.Keys <= b.entities.Keys
    && (forall id :: 0 <= id < |a.actions| ==> SameIdentity(a.actions[id], b.actions[id]))
    && (forall id :: 0 <= id < |a.actions| && Finished(a.actions[id].state) ==> b.actions[id] == a.actions[id])
  }

  predicate SameIdentity(a: Action, b: Action) {
    a.incident == b.incident && a.playbook == b.playbook && a.actionType == b.actionType && a.blast == b.blast
    && a.entity == b.entity && a.createdAt == b.createdAt
  }

  // The effector of the action has set the entity's status: the action is executed, or it has failed
  // because its effector raised after that.
  predicate TookEffect(a: Action, id: nat, effectors: map<string, Effector>) {
    a.state == Executed || (a.state == Failed && a.actionType in effectors && id in effectors[a.actionType].raisesAfter)
  }

  // Action id of entity e has come to take effect between a and b.
  ghost predicate NewlyRan(a: Db, b: Db, id: nat, e: nat, effectors: map<string, Effector>) {
    && id < |b.actions| && b.actions[id].entity == e && TookEffect(b.actions[id], id, effectors)
    && (id < |a.actions| ==> !Finished(a.actions[id].state))
  }

  // An entity's status changes only together with an action on it coming to take effect.
  ghost predicate StatusFollows(a: Db, b: Db, effectors: map<string, Effector>) {
    forall e :: e in a.entities && e in b.entities && b.entities[e] != a.entities[e]
      ==> exists id: nat :: NewlyRan(a, b, id, e, effectors)
  }

  lemma EvolvesTransitive(a: Db, b: Db, c: Db, effectors: map<string, Effector>)
    requires Evolves(a, b) && Evolves(b, c)
    ensures Evolves(a, c)
    ensures StatusFollows(a, b, effectors) && StatusFollows(b, c, effectors) ==> StatusFollows(a, c, effectors)
  {
    if StatusFollows(a, b, effectors) && StatusFollows(b, c, effectors) {
      forall e | e in a.entities && e in c.entities && c.entities[e] != a.entities[e]
        ensures exists id: nat :: NewlyRan(a, c, id, e, effectors)
      {
        assert e in b.entities.Keys;
        if b.entities[e] != a.entities[e] {
          var id: nat :| NewlyRan(a, b, id, e, effectors);
          assert NewlyRan(a, c, id, e, effectors);
        } else {
          var id: nat :| NewlyRan(b, c, id, e, effectors);
          assert NewlyRan(a, c, id, e, effectors);
        }
      }
    }
  }

  lemma StatusKept(a: Db, b: Db, effectors: map<string, Effector>)
    requires forall e :: e in a.entities && e in b.entities ==> b.entities[e] == a.entities[e]
    ensures StatusFollows(a, b, effectors)
  {
  }

  // ---- one ledger entry -----------------------------------------------------------------------

  lemma LogTrail(h: Hasher<Payload>, db: Db, clock: Clock, actor: string, event: string, id: nat, p: Payload, j: nat)
    ensures var d := Log(h, db, clock, actor, event, id, p);
      && d.ledger != [] && db.ledger <= d.ledger
      && Trail(d.ledger, j) == Trail(db.ledger, j) + if j == id then [Last(d.ledger)] else []
  {
    var d := Log(h, db, clock, actor, event, id, p);
    assert Front(d.ledger) == db.ledger && Last(d.ledger).refId == Some(id);
  }

  lemma LogRow(h: Hasher<Payload>, db: Db, clock: Clock, actor: string, event: string, id: nat, p: Payload)
    requires |event| <= MAX_EVENT_TYPE
    ensures var row := Last(Log(h, db, clock, actor, event, id, p).ledger);
      && row.payload == p && row.eventType == event
      && (actor == SYSTEM ==> row.actor == SYSTEM) && (IsUser(actor) ==> IsUser(row.actor))
  {
    assert |SYSTEM| <= MAX_ACTOR;
  }

  lemma EventFits(s: State)
    ensures |"action_" + StateName(s)| <= MAX_EVENT_TYPE
  {
  }

  lemma LogIntact(h: Hasher<Payload>, db: Db, clock: Clock, actor: string, event: string, id: nat, p: Payload)
    requires Intact(h, db.ledger) && RefsOk(db) && id < |db.actions|
    ensures var d := Log(h, db, clock, actor, event, id, p); Intact(h, d.ledger) && RefsOk(d)
  {
    AppendKeepsIntact(h, db.ledger, |db.ledger| + 1, clock.iso, actor, event, Some("action"), Some(id), p);
  }

  lemma ReplaySnoc(kind: string, blast: Blast, trail: seq<Row<Payload>>, row: Row<Payload>)
    requires Replay(kind, blast, trail).Some? && WellMoved(Replay(kind, blast, trail).value.state, row)
    ensures var before := Replay(kind, blast, trail).value;
      Replay(kind, blast, trail + [row])
      == Some(Account(row.payload.to, before.attempts + if row.payload.to == Executing then 1 else 0))
  {
    assert Front(trail + [row]) == trail && Last(trail + [row]) == row;
  }

  // ---- one action changes ---------------------------------------------------------------------

  // Replacing one action keeps the invariant when the new version is itself in order.
  lemma Replaced(h: Hasher<Payload>, db: Db, d: Db, id: nat, busy: int, busy': int)
    requires Open(h, db, busy) && (busy == NOBODY || busy == id) && id < |db.actions|
    requires |d.actions| == |db.actions| && d.actions == db.actions[id := d.actions[id]]
    requires SameIdentity(db.actions[id], d.actions[id])
    requires d.actions[id].idemKey.Some? ==>
               forall j :: 0 <= j < |db.actions| && j != id ==> db.actions[j].idemKey != d.actions[id].idemKey
    requires d.incidents == db.incidents && db.entities.Keys <= d.entities.Keys
    requires Intact(h, d.ledger) && RefsOk(d)
    requires forall j :: 0 <= j < |db.actions| && j != id ==> Trail(d.ledger, j) == Trail(db.ledger, j)
    requires ActionOk(d, id)
    requires if Resting(d.actions[id].state) then busy' == NOBODY else busy' == id
    ensures Open(h, d, busy')
  {
    hide Replay, Trail, Intact;
    forall j | 0 <= j < |d.actions|
      ensures ActionOk(d, j)
    {
      if j != id {
        assert d.actions[j] == db.actions[j] && ActionOk(db, j);
      }
    }
    forall i | 0 <= i < |d.incidents|
      ensures d.incidents[i].entity in d.entities
    {
      assert db.incidents[i].entity in db.entities.Keys;
    }
  }

  predicate RightActor(to: State, actor: string) {
    if to == Queued || to == Rejected then IsUser(actor) else actor == SYSTEM
  }

  lemma MoveRow(h: Hasher<Payload>, db: Db, clock: Clock, id: nat, to: State, actor: string, extra: Extra)
    requires id < |db.actions| && Taken(db.actions[id].state, to) && RightActor(to, actor)
    ensures Move(h, db, clock, id, to, actor, extra).Some?
    ensures WellMoved(db.actions[id].state, Last(Move(h, db, clock, id, to, actor, extra).value.ledger))
  {
    EventFits(to);
    NamesIts(to);
    var moved := db.(actions := db.actions[id := MovedAction(db.actions[id], to, extra, clock)]);
    LogRow(h, moved, clock, actor, "action_" + StateName(to), id, Moved(db.actions[id].state, to, extra));
  }

  // A transition advances the trail of its own action and of no other.
  lemma MoveTrail(h: Hasher<Payload>, db: Db, clock: Clock, id: nat, to: State, actor: string, extra: Extra, busy: int)
    requires Open(h, db, busy) && id < |db.actions| && Taken(db.actions[id].state, to) && RightActor(to, actor)
    ensures var a := db.actions[id];
      var d := Move(h, db, clock, id, to, actor, extra).value;
      && Intact(h, d.ledger) && RefsOk(d) && db.ledger <= d.ledger
      && Replay(a.actionType, a.blast, Trail(d.ledger, id))
         == Some(Account(to, a.attempt + if to == Executing then 1 else 0))
      && forall j :: 0 <= j < |db.actions| && j != id ==> Trail(d.ledger, j) == Trail(db.ledger, j)
  {
    hide Intact, Replay, Trail, WellMoved;
    var a := db.actions[id];
    assert ActionOk(db, id);
    var moved := db.(actions := db.actions[id := MovedAction(a, to, extra, clock)]);
    var p := Moved(a.state, to, extra);
    var event := "action_" + StateName(to);
    MoveRow(h, db, clock, id, to, actor, extra);
    LogIntact(h, moved, clock, actor, event, id, p);
    var d := Log(h, moved, clock, actor, event, id, p);
    assert Move(h, db, clock, id, to, actor, extra) == Some(d);
    forall j: nat
      ensures Trail(d.ledger, j) == Trail(db.ledger, j) + if j == id then [Last(d.ledger)] else []
    {
      LogTrail(h, moved, clock, actor, event, id, p, j);
    }
    LogTrail(h, moved, clock, actor, event, id, p, id);
    LogRowPayload(h, moved, clock, actor, event, id, p);
    ReplaySnoc(a.actionType, a.blast, Trail(db.ledger, id), Last(d.ledger));
  }

  lemma LogRowPayload(h: Hasher<Payload>, db: Db, clock: Clock, actor: string, event: string, id: nat, p: Payload)
    ensures Log(h, db, clock, actor, event, id, p).ledger != []
    ensures Last(Log(h, db, clock, actor, event, id, p).ledger).payload == p
  {
  }

  lemma MoveOk(h: Hasher<Payload>, db: Db, clock: Clock, id: nat, to: State, actor: string, extra: Extra, busy: int)
    requires Open(h, db, busy) && (busy == NOBODY || busy == id) && id < |db.actions|
    requires Taken(db.actions[id].state, to) && RightActor(to, actor) && to != Executing
    ensures var d := Move(h, db, clock, id, to, actor, extra).value;
      Open(h, d, if Resting(to) then NOBODY else id) && Evolves(db, d)
  {
    hide Intact, Replay, Trail, RefsOk, WellMoved, AppendEntry, KeysDiffer, OnePerPlaybook, StateName;
    MoveTrail(h, db, clock, id, to, actor, extra, busy);
    var d := Move(h, db, clock, id, to, actor, extra).value;
    assert ActionOk(db, id) && d.entities == db.entities;
    assert ActionOk(d, id);
    Replaced(h, db, d, id, busy, if Resting(to) then NOBODY else id);
  }

  lemma StartOk(h: Hasher<Payload>, db: Db, clock: Clock, id: nat, busy: int)
    requires Open(h, db, busy) && (busy == NOBODY || busy == id) && id < |db.actions| && db.actions[id].state == Queued
    ensures Start(h, db, clock, id).Some?
    ensures var d := Start(h, db, clock, id).value;
      && Open(h, d, id) && Evolves(db, d) && d.entities == db.entities
      && d.actions == db.actions[id := db.actions[id].(state := Executing, attempt := db.actions[id].attempt + 1)]
  {
    hide Open, Evolves, Start, Move, Intact, Replay, Trail, RefsOk;
    MoveTrail(h, db, clock, id, Executing, SYSTEM, Nothing, busy);
    Started(h, db, clock, id);
    var d := Start(h, db, clock, id).value;
    OneChanged(db, d, id);
    StartedOk(h, db, d, id, busy);
    RefsFrame(Move(h, db, clock, id, Executing, SYSTEM, Nothing).value, d);
    Replaced(h, db, d, id, busy, id);
  }

  // A start is a move to executing that also counts the attempt.
  lemma Started(h: Hasher<Payload>, db: Db, clock: Clock, id: nat)
    requires id < |db.actions| && db.actions[id].state == Queued
    ensures Start(h, db, clock, id).Some? && Move(h, db, clock, id, Executing, SYSTEM, Nothing).Some?
    ensures var d, a := Start(h, db, clock, id).value, db.actions[id];
      && d.actions == db.actions[id := a.(state := Executing, attempt := a.attempt + 1)]
      && d.ledger == Move(h, db, clock, id, Executing, SYSTEM, Nothing).value.ledger
      && d.entities == db.entities && d.incidents == db.incidents
  {
    hide AppendEntry, StateName;
  }

  lemma StartedOk(h: Hasher<Payload>, db: Db, d: Db, id: nat, busy: int)
    requires Open(h, db, busy) && id < |db.actions| && db.actions[id].state == Queued
    requires d.actions == db.actions[id := db.actions[id].(state := Executing, attempt := db.actions[id].attempt + 1)]
    requires d.entities == db.entities
    requires var a := d.actions[id];
      Replay(a.actionType, a.blast, Trail(d.ledger, id)) == Some(Account(Executing, a.attempt))
    ensures ActionOk(d, id) && db.actions[id].idemKey == None
  {
    hide Intact, RefsOk, KeysDiffer, OnePerPlaybook, Replay, Trail;
    assert ActionOk(db, id);
  }

  // One unfinished action changes and the ledger grows.
  lemma OneChanged(db: Db, d: Db, id: nat)
    requires id < |db.actions| == |d.actions| && d.actions == db.actions[id := d.actions[id]]
    requires SameIdentity(db.actions[id], d.actions[id]) && !Finished(db.actions[id].state)
    requires db.ledger <= d.ledger && db.entities.Keys <= d.entities.Keys
    ensures Evolves(db, d)
  {
  }

  lemma RefsFrame(a: Db, b: Db)
    requires RefsOk(a) && a.ledger == b.ledger && |a.actions| <= |b.actions|
    ensures RefsOk(b)
  {
  }

  // Changing a status, a decision time or a key leaves the trail of the action alone.
  lemma TouchOk(h: Hasher<Payload>, db: Db, d: Db, id: nat, busy: int)
    requires Open(h, db, busy) && (busy == NOBODY || busy == id) && id < |db.actions|
    requires |d.actions| == |db.actions| && d.actions == db.actions[id := d.actions[id]]
    requires SameIdentity(db.actions[id], d.actions[id])
    requires d.actions[id].state == db.actions[id].state && d.actions[id].attempt == db.actions[id].attempt
    requires d.incidents == db.incidents && db.entities.Keys <= d.entities.Keys && d.ledger == db.ledger
    requires d.actions[id].idemKey != db.actions[id].idemKey ==>
               Finished(db.actions[id].state) && d.actions[id].idemKey.Some? && d.actions[id].idemKey.value != ""
               && FindKey(db.actions, d.actions[id].idemKey.value) == None
    requires Resting(db.actions[id].state) ==> busy == NOBODY
    ensures Open(h, d, busy)
  {
    hide Intact, Replay, Trail;
    assert ActionOk(db, id);
    RefsFrame(db, d);
    assert ActionOk(d, id);
    if d.actions[id].idemKey.Some? && d.actions[id].idemKey != db.actions[id].idemKey {
      forall j | 0 <= j < |db.actions|
        ensures db.actions[j].idemKey != d.actions[id].idemKey
      {
        assert !HoldsKey(db.actions[j], d.actions[id].idemKey.value);
      }
    }
    Replaced(h, db, d, id, busy, if Resting(d.actions[id].state) then NOBODY else id);
  }

  // ---- what backs an entity's status ----------------------------------------------------------

  ghost predicate Causes(db: Db, id: nat, e: nat)
    requires id < |db.actions| && e in db.entities
  {
    var a := db.actions[id];
    && a.entity == e && a.state == Executed
    && a.actionType in DEFAULT_EFFECTORS && DEFAULT_EFFECTORS[a.actionType].status == db.entities[e]
  }

  ghost predicate Caused(db: Db, e: nat)
    requires e in db.entities
  {
    exists id :: 0 <= id < |db.actions| && Causes(db, id, e)
  }

  // With the default effectors a changed status has an executed action behind it, and only actions
  // without an effector fail.
  ghost predicate Backed(db: Db) {
    && (forall e :: e in db.entities && db.entities[e] != Active ==> Caused(db, e))
    && (forall id :: 0 <= id < |db.actions| && db.actions[id].state == Failed
          ==> db.actions[id].actionType !in DEFAULT_EFFECTORS)
  }

  lemma BackedFrame(db: Db, d: Db)
    requires Backed(db) && Evolves(db, d)
    requires forall e :: e in d.entities ==>
      if e in db.entities then d.entities[e] == db.entities[e] else d.entities[e] == Active
    requires forall id :: 0 <= id < |d.actions| && d.actions[id].state == Failed
               ==> id < |db.actions| && db.actions[id].state == Failed
    ensures Backed(d)
  {
    forall e | e in d.entities && d.entities[e] != Active
      ensures Caused(d, e)
    {
      assert Caused(db, e);
      var id :| 0 <= id < |db.actions| && Causes(db, id, e);
      assert Causes(d, id, e);
    }
  }

  lemma MoveBacked(h: Hasher<Payload>, db: Db, clock: Clock, id: nat, to: State, actor: string, extra: Extra)
    requires Backed(db) && id < |db.actions| && to in Transitions(db.actions[id].state) && to != Failed
    requires Evolves(db, Move(h, db, clock, id, to, actor, extra).value)
    ensures Backed(Move(h, db, clock, id, to, actor, extra).value)
  {
    hide AppendEntry;
    BackedFrame(db, Move(h, db, clock, id, to, actor, extra).value);
  }

  // ---- execution ------------------------------------------------------------------------------

  lemma EffectOk(h: Hasher<Payload>, db: Db, e: Effector, id: nat)
    requires Open(h, db, id) && id < |db.actions| && db.actions[id].state == Executing
    ensures Open(h, RunEffector(e, db, id).db, id) && Evolves(db, RunEffector(e, db, id).db)
  {
    hide Intact, Replay, Trail, RefsOk;
    TouchOk(h, db, RunEffector(e, db, id).db, id, id);
  }

  lemma FinishOk(h: Hasher<Payload>, db: Db, clock: Clock, effectors: map<string, Effector>, id: nat)
    requires Open(h, db, id) && id < |db.actions| && db.actions[id].state == Executing
    ensures var d := Finish(h, db, clock, effectors, id).db;
      Open(h, d, NOBODY) && Evolves(db, d) && d.incidents == db.incidents && StatusFollows(db, d, effectors)
  {
    hide Open, Evolves, StatusFollows;
    var kind := db.actions[id].actionType;
    var d := Finish(h, db, clock, effectors, id).db;
    FinishStatus(h, db, clock, effectors, id);
    if kind !in effectors {
      MoveOk(h, db, clock, id, Failed, SYSTEM, Outcome("no effector registered for " + kind), id);
    } else {
      var r := RunEffector(effectors[kind], db, id);
      EffectOk(h, db, effectors[kind], id);
      if r.ok {
        MoveOk(h, r.db, clock, id, Executed, SYSTEM, Outcome("simulated"), id);
      } else {
        MoveOk(h, r.db, clock, id, Failed, SYSTEM, Outcome("effector raised"), id);
      }
      EvolvesTransitive(db, r.db, d, effectors);
    }
  }

  lemma FinishStatus(h: Hasher<Payload>, db: Db, clock: Clock, effectors: map<string, Effector>, id: nat)
    requires id < |db.actions| && db.actions[id].state == Executing
    ensures StatusFollows(db, Finish(h, db, clock, effectors, id).db, effectors)
    ensures Finish(h, db, clock, effectors, id).db.incidents == db.incidents
  {
    hide AppendEntry, StateName;
    var d, a := Finish(h, db, clock, effectors, id).db, db.actions[id];
    assert d.actions[id].actionType == a.actionType && d.actions[id].entity == a.entity;
    if a.actionType in effectors && a.entity in db.entities && id !in effectors[a.actionType].raisesOn {
      assert NewlyRan(db, d, id, a.entity, effectors);
    } else {
      StatusKept(db, d, effectors);
    }
  }

  lemma FinishBacked(h: Hasher<Payload>, db: Db, clock: Clock, id: nat)
    requires Open(h, db, id) && Backed(db) && id < |db.actions| && db.actions[id].state == Executing
    ensures Backed(Finish(h, db, clock, DEFAULT_EFFECTORS, id).db)
  {
    hide Open, Finish;
    ItsEntityExists(h, db, id);
    FinishedByDefault(h, db, clock, id);
    CausedByDefault(db, Finish(h, db, clock, DEFAULT_EFFECTORS, id).db, id);
  }

  lemma ItsEntityExists(h: Hasher<Payload>, db: Db, id: nat)
    requires Open(h, db, id) && id < |db.actions|
    ensures db.actions[id].entity in db.entities
  {
    hide Intact, Replay, Trail, RefsOk, KeysDiffer, OnePerPlaybook;
    assert ActionOk(db, id);
  }

  // What the default effectors make of an executing action.
  ghost predicate DefaultFinish(db: Db, d: Db, id: nat)
    requires id < |db.actions|
  {
    var a := db.actions[id];
    && |d.actions| == |db.actions| && d.actions == db.actions[id := d.actions[id]] && SameIdentity(a, d.actions[id])
    && if a.actionType in DEFAULT_EFFECTORS
       then d.actions[id].state == Executed
            && d.entities == db.entities[a.entity := DEFAULT_EFFECTORS[a.actionType].status]
       else d.actions[id].state == Failed && d.entities == db.entities
  }

  lemma FinishedByDefault(h: Hasher<Payload>, db: Db, clock: Clock, id: nat)
    requires id < |db.actions| && db.actions[id].state == Executing && db.actions[id].entity in db.entities
    ensures DefaultFinish(db, Finish(h, db, clock, DEFAULT_EFFECTORS, id).db, id)
  {
    hide AppendEntry, StateName;
  }

  lemma CausedByDefault(db: Db, d: Db, id: nat)
    requires Backed(db) && id < |db.actions| && db.actions[id].state == Executing && DefaultFinish(db, d, id)
    ensures Backed(d)
  {
    var a := db.actions[id];
    forall e | e in d.entities && d.entities[e] != Active
      ensures Caused(d, e)
    {
      if e == a.entity && a.actionType in DEFAULT_EFFECTORS {
        assert Causes(d, id, e);
      } else {
        assert Caused(db, e);
        var j :| 0 <= j < |db.actions| && Causes(db, j, e);
        assert Causes(d, j, e);
      }
    }
  }

  lemma ExecuteOk(h: Hasher<Payload>, db: Db, clock: Clock, effectors: map<string, Effector>, id: nat, busy: int)
    requires Open(h, db, busy) && (busy == NOBODY || busy == id) && id < |db.actions| && db.actions[id].state == Queued
    ensures var d := Execute(h, db, clock, effectors, id).db;
      && Open(h, d, NOBODY) && Evolves(db, d) && d.incidents == db.incidents && StatusFollows(db, d, effectors)
      && (Backed(db) && effectors == DEFAULT_EFFECTORS ==> Backed(d))
  {
    hide Open, Backed, Finish, AppendEntry, StatusFollows;
    StartOk(h, db, clock, id, busy);
    var e := Start(h, db, clock, id).value;
    StatusKept(db, e, effectors);
    FinishOk(h, e, clock, effectors, id);
    EvolvesTransitive(db, e, Finish(h, e, clock, effectors, id).db, effectors);
    if Backed(db) && effectors == DEFAULT_EFFECTORS {
      BackedFrame(db, e);
      FinishBacked(h, e, clock, id);
    }
  }

  // ---- a tick -----------------------------------------------------------------------------------

  lemma ExpireOk(h: Hasher<Payload>, db: Db, clock: Clock, id: nat)
    requires Committed(h, db) && id < |db.actions|
    ensures var d := Expire(h, db, clock, id);
      && Committed(h, d) && Evolves(db, d) && d.incidents == db.incidents && d.entities == db.entities
      && (Backed(db) ==> Backed(d))
  {
    hide Intact, Replay, Trail, RefsOk, ActionOk, AppendEntry, KeysDiffer, OnePerPlaybook;
    if Expired in Transitions(db.actions[id].state) {
      MoveOk(h, db, clock, id, Expired, SYSTEM, Nothing, NOBODY);
      if Backed(db) {
        MoveBacked(h, db, clock, id, Expired, SYSTEM, Nothing);
      }
    }
  }

  lemma {:induction false} ExpireAllOk(h: Hasher<Payload>, db: Db, clock: Clock, ids: seq<nat>)
    requires Committed(h, db) && forall i :: 0 <= i < |ids| ==> ids[i] < |db.actions|
    ensures var d := ExpireAll(h, db, clock, ids);
      && Committed(h, d) && Evolves(db, d) && d.incidents == db.incidents && d.entities == db.entities
      && (Backed(db) ==> Backed(d))
  {
    hide Committed, Backed, Expire;
    if ids != [] {
      ExpireAllOk(h, db, clock, Front(ids));
      var e := ExpireAll(h, db, clock, Front(ids));
      ExpireOk(h, e, clock, Last(ids));
      EvolvesTransitive(db, e, Expire(h, e, clock, Last(ids)), map[]);
    }
  }

  lemma {:induction false} TrailEmpty(ledger: seq<Row<Payload>>, id: nat)
    requires forall i :: 0 <= i < |ledger| ==> ledger[i].refId != Some(id)
    ensures Trail(ledger, id) == []
  {
    if ledger != [] {
      TrailEmpty(Front(ledger), id);
    }
  }

  ghost predicate FreshPlaybook(actions: seq<Action>, incident: nat, playbook: nat) {
    forall i :: 0 <= i < |actions| && actions[i].incident == incident ==> actions[i].playbook != playbook
  }

  lemma CreateTrail(h: Hasher<Payload>, db: Db, clock: Clock, inc: Incident, spec: Spec)
    requires Intact(h, db.ledger) && RefsOk(db)
    ensures var d := CreateAction(h, db, clock, inc, spec);
      && Intact(h, d.ledger) && RefsOk(d) && db.ledger <= d.ledger
      && Replay(spec.actionType, spec.blast, Trail(d.ledger, |db.actions|))
         == Some(Account(InitialState(spec.blast), 0))
      && forall j :: 0 <= j < |db.actions| ==> Trail(d.ledger, j) == Trail(db.ledger, j)
  {
    hide Intact;
    var id := |db.actions|;
    var wider := db.(actions := db.actions + [NewAction(inc, spec, clock)]);
    var p := Created(spec.actionType, spec.blast, InitialState(spec.blast), spec.reason);
    RefsFrame(db, wider);
    LogIntact(h, wider, clock, SYSTEM, "action_created", id, p);
    LogRow(h, wider, clock, SYSTEM, "action_created", id, p);
    var d := Log(h, wider, clock, SYSTEM, "action_created", id, p);
    forall j: nat
      ensures Trail(d.ledger, j) == Trail(db.ledger, j) + if j == id then [Last(d.ledger)] else []
    {
      LogTrail(h, wider, clock, SYSTEM, "action_created", id, p, j);
    }
    LogTrail(h, wider, clock, SYSTEM, "action_created", id, p, id);
    TrailEmpty(db.ledger, id);
  }

  lemma CreateOk(h: Hasher<Payload>, db: Db, clock: Clock, inc: Incident, spec: Spec)
    requires Committed(h, db) && inc.entity in db.entities && FreshPlaybook(db.actions, inc.id, spec.playbook)
    ensures var d := CreateAction(h, db, clock, inc, spec);
      && Open(h, d, if spec.blast == Low then |db.actions| else NOBODY) && Evolves(db, d)
      && d.actions == db.actions + [NewAction(inc, spec, clock)] && d.incidents == db.incidents
      && (Backed(db) ==> Backed(d))
  {
    hide Intact, Replay, Trail, RefsOk, AppendEntry;
    CreateTrail(h, db, clock, inc, spec);
    var d := CreateAction(h, db, clock, inc, spec);
    forall j | 0 <= j < |d.actions|
      ensures ActionOk(d, j)
    {
      assert j < |db.actions| ==> ActionOk(db, j) && d.actions[j] == db.actions[j];
    }
    if Backed(db) {
      hide ActionOk, KeysDiffer, OnePerPlaybook;
      BackedFrame(db, d);
    }
  }

  // Every action of the incident came from one of the specs.
  ghost predicate Covers(actions: seq<Action>, incident: nat, specs: seq<Spec>) {
    forall i :: 0 <= i < |actions| && actions[i].incident == incident
      ==> exists j :: 0 <= j < |specs| && specs[j].playbook == actions[i].playbook
  }

  lemma CarryOk(h: Hasher<Payload>, p: Progress, clock: Clock, effectors: map<string, Effector>, inc: Incident,
                spec: Spec)
    requires Committed(h, p.db) && inc.entity in p.db.entities && FreshPlaybook(p.db.actions, inc.id, spec.playbook)
    ensures var d := Carry(h, p, clock, effectors, inc, spec).db;
      && Committed(h, d) && Evolves(p.db, d) && d.incidents == p.db.incidents && StatusFollows(p.db, d, effectors)
      && |d.actions| == |p.db.actions| + 1 && SameIdentity(NewAction(inc, spec, clock), Last(d.actions))
      && (Backed(p.db) && effectors == DEFAULT_EFFECTORS ==> Backed(d))
  {
    hide Open, Backed, Execute, FreshPlaybook, AppendEntry, StatusFollows;
    CreateOk(h, p.db, clock, inc, spec);
    var e := CreateAction(h, p.db, clock, inc, spec);
    StatusKept(p.db, e, effectors);
    if spec.blast == Low {
      ExecuteOk(h, e, clock, effectors, |p.db.actions|, |p.db.actions|);
      EvolvesTransitive(p.db, e, Execute(h, e, clock, effectors, |p.db.actions|).db, effectors);
    }
  }

  lemma {:induction false} CarryAllOk(h: Hasher<Payload>, p: Progress, clock: Clock, effectors: map<string, Effector>,
                                      inc: Incident, specs: seq<Spec>)
    requires Committed(h, p.db) && inc.entity in p.db.entities
    requires !Answered(p.db.actions, inc.id) && DistinctPlaybooks(specs)
    ensures var d := CarryAll(h, p, clock, effectors, inc, specs).db;
      && Committed(h, d) && Evolves(p.db, d) && d.incidents == p.db.incidents && Covers(d.actions, inc.id, specs)
      && StatusFollows(p.db, d, effectors)
      && (Backed(p.db) && effectors == DEFAULT_EFFECTORS ==> Backed(d))
  {
    hide Committed, Backed, Carry, StatusFollows;
    StatusKept(p.db, p.db, effectors);
    if specs != [] {
      var f := Front(specs);
      CarryAllOk(h, p, clock, effectors, inc, f);
      var q := CarryAll(h, p, clock, effectors, inc, f);
      assert inc.entity in q.db.entities.Keys;
      assert FreshPlaybook(q.db.actions, inc.id, Last(specs).playbook);
      CarryOk(h, q, clock, effectors, inc, Last(specs));
      var d := Carry(h, q, clock, effectors, inc, Last(specs)).db;
      EvolvesTransitive(p.db, q.db, d, effectors);
      CoversOneMore(q.db, d, inc, f, Last(specs), clock);
      assert f + [Last(specs)] == specs;
    }
  }

  lemma CoversOneMore(q: Db, d: Db, inc: Incident, f: seq<Spec>, last: Spec, clock: Clock)
    requires Covers(q.actions, inc.id, f) && Evolves(q, d) && |d.actions| == |q.actions| + 1
    requires SameIdentity(NewAction(inc, last, clock), Last(d.actions))
    ensures Covers(d.actions, inc.id, f + [last])
  {
    var all := f + [last];
    forall i | 0 <= i < |d.actions| && d.actions[i].incident == inc.id
      ensures exists j :: 0 <= j < |all| && all[j].playbook == d.actions[i].playbook
    {
      if i < |q.actions| {
        assert SameIdentity(q.actions[i], d.actions[i]);
        var j :| 0 <= j < |f| && f[j].playbook == q.actions[i].playbook;
        assert all[j] == f[j];
      } else {
        assert all[|f|] == last;
      }
    }
  }

  lemma {:induction false} HandleAllOk(h: Hasher<Payload>, p: Progress, clock: Clock, policy: Policy,
                                       effectors: map<string, Effector>, incs: seq<Incident>)
    requires Committed(h, p.db) && SoundPolicy(policy)
    requires forall i :: 0 <= i < |incs| ==> incs[i].entity in p.db.entities
    ensures var d := HandleAll(h, p, clock, policy, effectors, incs).db;
      && Committed(h, d) && Evolves(p.db, d) && d.incidents == p.db.incidents && StatusFollows(p.db, d, effectors)
      && (Backed(p.db) && effectors == DEFAULT_EFFECTORS ==> Backed(d))
  {
    hide Committed, Backed, CarryAll, Answered, StatusFollows;
    StatusKept(p.db, p.db, effectors);
    if incs != [] {
      HandleAllOk(h, p, clock, policy, effectors, Front(incs));
      var q := HandleAll(h, p, clock, policy, effectors, Front(incs));
      var inc := Last(incs);
      assert inc.entity in p.db.entities.Keys;
      if !Answered(q.db.actions, inc.id) {
        CarryAllOk(h, q, clock, effectors, inc, SpecsFor(policy, inc.id));
        EvolvesTransitive(p.db, q.db, CarryAll(h, q, clock, effectors, inc, SpecsFor(policy, inc.id)).db, effectors);
      }
    }
  }

  lemma {:induction false} NewerMembers(incs: seq<Incident>, cursor: nat)
    ensures forall x :: x in Newer(incs, cursor) ==> x in incs && x.id > cursor
  {
    if incs != [] {
      NewerMembers(Front(incs), cursor);
      FrontLast(incs);
    }
  }

  lemma CursorOk(h: Hasher<Payload>, db: Db, cursor: nat)
    requires Committed(h, db)
    ensures Committed(h, db.(cursor := cursor)) && (Backed(db) ==> Backed(db.(cursor := cursor)))
  {
    hide Intact, Replay, Trail, KeysDiffer, OnePerPlaybook;
    var d := db.(cursor := cursor);
    RefsFrame(db, d);
    assert forall id :: 0 <= id < |db.actions| ==> ActionOk(db, id) ==> ActionOk(d, id);
    if Backed(db) {
      BackedFrame(db, d);
    }
  }

  lemma StatusOfSame(a: Db, b: Db, c: Db, effectors: map<string, Effector>)
    requires StatusFollows(a, b, effectors) && c.entities == b.entities && |c.actions| == |b.actions|
    requires forall id :: 0 <= id < |b.actions| ==> SameIdentity(b.actions[id], c.actions[id])
    requires forall id :: 0 <= id < |b.actions| ==> c.actions[id].state == b.actions[id].state
    ensures StatusFollows(a, c, effectors)
  {
    forall e | e in a.entities && e in c.entities && c.entities[e] != a.entities[e]
      ensures exists id: nat :: NewlyRan(a, c, id, e, effectors)
    {
      var id: nat :| NewlyRan(a, b, id, e, effectors);
      assert NewlyRan(a, c, id, e, effectors);
    }
  }

  lemma TickOk(h: Hasher<Payload>, s: Settings, db: Db, clock: Clock, policy: Policy, effectors: map<string, Effector>)
    requires Committed(h, db) && SoundPolicy(policy)
    ensures var d := TickDb(h, s, db, clock, policy, effectors);
      && Committed(h, d) && Evolves(db, d) && StatusFollows(db, d, effectors)
      && (Backed(db) && effectors == DEFAULT_EFFECTORS ==> Backed(d))
  {
    hide Committed, Evolves, StatusFollows, Backed, HandleAll, ExpireAll, Stale, TickRows, MaxId;
    ExpireAllOk(h, db, clock, Stale(db.actions, |db.actions|, clock.worker - s.approvalTimeout));
    var e := ExpireStale(h, s, db, clock);
    var rows := TickRows(s, db);
    RowsHaveEntities(h, s, db, e);
    HandleAllOk(h, Progress(e, 0), clock, policy, effectors, rows);
    var d := HandleAll(h, Progress(e, 0), clock, policy, effectors, rows).db;
    StatusKept(db, e, effectors);
    EvolvesTransitive(db, e, d, effectors);
    CursorOk(h, d, MaxId(rows, db.cursor));
    CursorFollows(db, d, MaxId(rows, db.cursor), effectors);
  }

  lemma RowsHaveEntities(h: Hasher<Payload>, s: Settings, db: Db, e: Db)
    requires Committed(h, db) && Evolves(db, e)
    ensures forall i :: 0 <= i < |TickRows(s, db)| ==> TickRows(s, db)[i].entity in e.entities
  {
    hide Intact, RefsOk, ActionOk, KeysDiffer, OnePerPlaybook, Newer;
    var rows := TickRows(s, db);
    NewerMembers(db.incidents, db.cursor);
    forall i | 0 <= i < |rows|
      ensures rows[i].entity in e.entities
    {
      assert rows[i] in Newer(db.incidents, db.cursor);
      var j :| 0 <= j < |db.incidents| && db.incidents[j] == rows[i];
      assert db.incidents[j].entity in db.entities.Keys;
    }
  }

  lemma CursorFollows(db: Db, d: Db, cursor: nat, effectors: map<string, Effector>)
    requires Evolves(db, d) && StatusFollows(db, d, effectors)
    ensures Evolves(db, d.(cursor := cursor)) && StatusFollows(db, d.(cursor := cursor), effectors)
  {
    StatusOfSame(db, d, d.(cursor := cursor), effectors);
  }

  // ---- decisions --------------------------------------------------------------------------------

  lemma StampOk(h: Hasher<Payload>, db: Db, clock: Clock, id: nat, busy: int)
    requires Open(h, db, busy) && (busy == NOBODY || busy == id) && id < |db.actions|
    requires Resting(db.actions[id].state) ==> busy == NOBODY
    ensures Open(h, StampDecision(db, id, clock), busy)
  {
    hide Intact, Replay, Trail, RefsOk;
    TouchOk(h, db, StampDecision(db, id, clock), id, busy);
  }

  // Only the decided action may differ in more than its frozen part.
  lemma StampEvolves(a: Db, b: Db, id: nat, clock: Clock)
    requires Evolves(a, b) && id < |a.actions| && !Finished(a.actions[id].state)
    ensures Evolves(a, StampDecision(b, id, clock))
  {
  }

  lemma ApproveOk(h: Hasher<Payload>, db: Db, clock: Clock, effectors: map<string, Effector>, v: Verdict)
    requires Committed(h, db) && v.id < |db.actions| && db.actions[v.id].state == PendingApproval
    ensures var d := Approve(h, db, clock, effectors, v);
      && Committed(h, d) && Evolves(db, d) && d.incidents == db.incidents && StatusFollows(db, d, effectors)
      && (Backed(db) && effectors == DEFAULT_EFFECTORS ==> Backed(d))
  {
    hide Open, Backed, Execute, AppendEntry, StatusFollows;
    var x := Decided(v.approver, Truncate(v.reason, MAX_REASON));
    MoveOk(h, db, clock, v.id, Queued, UserActor(v.email), x, NOBODY);
    var q := Move(h, db, clock, v.id, Queued, UserActor(v.email), x).value;
    StampOk(h, q, clock, v.id, v.id);
    StampEvolves(db, q, v.id, clock);
    var t := StampDecision(q, v.id, clock);
    ExecuteOk(h, t, clock, effectors, v.id, v.id);
    StatusKept(db, t, effectors);
    EvolvesTransitive(db, t, Execute(h, t, clock, effectors, v.id).db, effectors);
    if Backed(db) {
      BackedFrame(db, t);
    }
  }

  lemma RejectOk(h: Hasher<Payload>, db: Db, clock: Clock, v: Verdict)
    requires Committed(h, db) && v.id < |db.actions| && db.actions[v.id].state == PendingApproval
    ensures var d := Reject(h, db, clock, v);
      && Committed(h, d) && Evolves(db, d) && d.incidents == db.incidents && d.entities == db.entities
      && (Backed(db) ==> Backed(d))
  {
    hide Open, Backed, AppendEntry;
    var x := Decided(v.approver, Truncate(v.reason, MAX_REASON));
    MoveOk(h, db, clock, v.id, Rejected, UserActor(v.email), x, NOBODY);
    var q := Move(h, db, clock, v.id, Rejected, UserActor(v.email), x).value;
    StampOk(h, q, clock, v.id, NOBODY);
    StampEvolves(db, q, v.id, clock);
    if Backed(db) {
      BackedFrame(db, StampDecision(q, v.id, clock));
    }
  }

  lemma RuleOk(h: Hasher<Payload>, db: Db, clock: Clock, effectors: map<string, Effector>, v: Verdict)
    requires Committed(h, db) && Rule(h, db, clock, effectors, v).Ruled?
    ensures var d := Rule(h, db, clock, effectors, v).db;
      && Committed(h, d) && Evolves(db, d) && d.incidents == db.incidents
      && Finished(d.actions[v.id].state) && db.actions[v.id].state == PendingApproval && StatusFollows(db, d, effectors)
      && (Backed(db) && effectors == DEFAULT_EFFECTORS ==> Backed(d))
  {
    hide Committed, Backed, AppendEntry, StatusFollows;
    if v.decision == "approve" {
      ApproveOk(h, db, clock, effectors, v);
    } else {
      RejectOk(h, db, clock, v);
      StatusKept(db, Reject(h, db, clock, v), effectors);
    }
  }

  lemma ServeOk(h: Hasher<Payload>, db: Db, clock: Clock, v: Verdict, header: Option<string>)
    requires Committed(h, db)
    ensures var d := Serve(h, db, clock, v, header).db;
      Committed(h, d) && Evolves(db, d) && StatusFollows(db, d, DEFAULT_EFFECTORS) && (Backed(db) ==> Backed(d))
  {
    hide Committed, Evolves, StatusFollows, Backed, Rule, SetKey, FindKey;
    Unchanged(db, DEFAULT_EFFECTORS);
    var r := Rule(h, db, clock, DEFAULT_EFFECTORS, v);
    var key := Truthy(header);
    if r.Ruled? && (key.Some? ==> FindKey(db.actions, key.value) == None) {
      RuleOk(h, db, clock, DEFAULT_EFFECTORS, v);
      if key.Some? {
        RuleKeys(h, db, clock, DEFAULT_EFFECTORS, v);
        KeyStillFree(db.actions, r.db.actions, key.value);
      }
      RecordOk(h, db, r.db, v.id, key);
    }
  }

  lemma Unchanged(db: Db, effectors: map<string, Effector>)
    ensures Evolves(db, db) && StatusFollows(db, db, effectors)
  {
  }

  // Recording a free key at the action that was just decided.
  lemma RecordOk(h: Hasher<Payload>, db: Db, d: Db, id: nat, key: Option<string>)
    requires Committed(h, d) && Evolves(db, d) && StatusFollows(db, d, DEFAULT_EFFECTORS)
    requires id < |db.actions| == |d.actions| && !Finished(db.actions[id].state) && Finished(d.actions[id].state)
    requires key.Some? ==> key.value != "" && FindKey(d.actions, key.value) == None
    ensures var kept := SetKey(d, id, key);
      && Committed(h, kept) && Evolves(db, kept) && StatusFollows(db, kept, DEFAULT_EFFECTORS)
      && (Backed(d) ==> Backed(kept))
  {
    hide Open, StatusFollows, Backed;
    var kept := SetKey(d, id, key);
    TouchOk(h, d, kept, id, NOBODY);
    StatusOfSame(db, d, kept, DEFAULT_EFFECTORS);
    if Backed(d) {
      SetKeyBacked(d, id, key);
    }
  }

  lemma SetKeyBacked(d: Db, id: nat, key: Option<string>)
    requires Backed(d) && id < |d.actions|
    ensures Backed(SetKey(d, id, key))
  {
    var k := SetKey(d, id, key);
    forall e | e in k.entities && k.entities[e] != Active
      ensures Caused(k, e)
    {
      assert Caused(d, e);
      var j :| 0 <= j < |d.actions| && Causes(d, j, e);
      assert Causes(k, j, e);
    }
  }

  ghost predicate SameKeys(a: seq<Action>, b: seq<Action>) {
    |a| == |b| && forall i :: 0 <= i < |a| ==> a[i].idemKey == b[i].idemKey
  }

  lemma MoveKeys(h: Hasher<Payload>, db: Db, clock: Clock, id: nat, to: State, actor: string, extra: Extra)
    requires id < |db.actions| && to in Transitions(db.actions[id].state)
    ensures SameKeys(db.actions, Move(h, db, clock, id, to, actor, extra).value.actions)
  {
    hide AppendEntry;
  }

  lemma ExecuteKeys(h: Hasher<Payload>, db: Db, clock: Clock, effectors: map<string, Effector>, id: nat)
    requires id < |db.actions|
    ensures SameKeys(db.actions, Execute(h, db, clock, effectors, id).db.actions)
  {
    hide Move;
    if Executing in Transitions(db.actions[id].state) {
      MoveKeys(h, db, clock, id, Executing, SYSTEM, Nothing);
      var e := Start(h, db, clock, id).value;
      var kind := e.actions[id].actionType;
      if kind !in effectors {
        MoveKeys(h, e, clock, id, Failed, SYSTEM, Outcome("no effector registered for " + kind));
      } else {
        var r := RunEffector(effectors[kind], e, id);
        if r.ok {
          MoveKeys(h, r.db, clock, id, Executed, SYSTEM, Outcome("simulated"));
        } else {
          MoveKeys(h, r.db, clock, id, Failed, SYSTEM, Outcome("effector raised"));
        }
      }
    }
  }

  // Ruling on an action records no key.
  lemma RuleKeys(h: Hasher<Payload>, db: Db, clock: Clock, effectors: map<string, Effector>, v: Verdict)
    requires Rule(h, db, clock, effectors, v).Ruled?
    ensures SameKeys(db.actions, Rule(h, db, clock, effectors, v).db.actions)
  {
    hide Move, Execute;
    var x := Decided(v.approver, Truncate(v.reason, MAX_REASON));
    if v.decision == "approve" {
      MoveKeys(h, db, clock, v.id, Queued, UserActor(v.email), x);
      var t := StampDecision(Move(h, db, clock, v.id, Queued, UserActor(v.email), x).value, v.id, clock);
      ExecuteKeys(h, t, clock, effectors, v.id);
    } else {
      MoveKeys(h, db, clock, v.id, Rejected, UserActor(v.email), x);
    }
  }

  lemma KeyStillFree(a: seq<Action>, after: seq<Action>, key: string)
    requires SameKeys(a, after) && FindKey(a, key) == None
    ensures FindKey(after, key) == None
  {
    forall i | 0 <= i < |after|
      ensures !HoldsKey(after[i], key)
    {
      assert !HoldsKey(a[i], key);
    }
  }

  // ---- every run ----------------------------------------------------------------------------

  lemma StepOk(h: Hasher<Payload>, s: Settings, db: Db, step: Step)
    requires Committed(h, db) && SoundStep(step)
    ensures var d := Apply(h, s, db, step);
      && Committed(h, d) && Evolves(db, d) && StatusFollows(db, d, EffectorsOf(step))
      && (Backed(db) && UsesDefaults(step) ==> Backed(d))
  {
    hide Committed, Evolves, StatusFollows, Backed, SoundPolicy, TickDb, Rule, Serve, MaxId;
    Unchanged(db, EffectorsOf(step));
    match step
    case Orchestrate(clock, policy, effectors) => TickOk(h, s, db, clock, policy, effectors);
    case Decide(clock, effectors, v) =>
      if Rule(h, db, clock, effectors, v).Ruled? {
        RuleOk(h, db, clock, effectors, v);
      }
    case Request(clock, v, header) => ServeOk(h, db, clock, v, header);
    case Observe(e) =>
      if e !in db.entities {
        assert db.incidents + [] == db.incidents;
        WidenedOk(h, db, db.(entities := db.entities[e := Active]), []);
      }
    case Arrive(i) =>
      if i.entity in db.entities {
        WidenedOk(h, db, db.(incidents := db.incidents + [i]), [i]);
      }
  }

  // New active entities and new incidents of known entities.
  lemma WidenedOk(h: Hasher<Payload>, db: Db, d: Db, added: seq<Incident>)
    requires Committed(h, db) && d.actions == db.actions && d.ledger == db.ledger
    requires d.incidents == db.incidents + added && forall i :: 0 <= i < |added| ==> added[i].entity in db.entities
    requires forall e :: e in db.entities ==> e in d.entities && d.entities[e] == db.entities[e]
    requires forall e :: e in d.entities && e !in db.entities ==> d.entities[e] == Active
    ensures Committed(h, d) && Evolves(db, d) && StatusFollows(db, d, map[]) && (Backed(db) ==> Backed(d))
  {
    hide Intact, KeysDiffer, OnePerPlaybook, Replay, Trail, Backed;
    StatusKept(db, d, map[]);
    RefsFrame(db, d);
    forall id | 0 <= id < |d.actions|
      ensures ActionOk(d, id)
    {
      assert ActionOk(db, id);
    }
    if Backed(db) {
      BackedFrame(db, d);
    }
  }

  ghost predicate UsesDefaults(step: Step) {
    && (step.Orchestrate? ==> step.effectors == DEFAULT_EFFECTORS)
    && (step.Decide? ==> step.effectors == DEFAULT_EFFECTORS)
  }

  ghost predicate AllDefaults(steps: seq<Step>) {
    forall i :: 0 <= i < |steps| ==> UsesDefaults(steps[i])
  }

  // Whatever the steps, a run from a committed state ends in one, and finished actions are frozen.
  lemma {:induction false} RunKeeps(h: Hasher<Payload>, s: Settings, db: Db, steps: seq<Step>)
    requires Committed(h, db) && Admissible(steps)
    ensures Committed(h, Run(h, s, db, steps)) && Evolves(db, Run(h, s, db, steps))
    ensures Backed(db) && AllDefaults(steps) ==> Backed(Run(h, s, db, steps))
  {
    hide Committed, Backed, Apply;
    if steps != [] {
      RunKeeps(h, s, db, Front(steps));
      assert SoundStep(steps[|steps| - 1]);
      var d := Run(h, s, db, Front(steps));
      StepOk(h, s, d, Last(steps));
      EvolvesTransitive(db, d, Apply(h, s, d, Last(steps)), map[]);
    }
  }

  lemma EveryRun(h: Hasher<Payload>, s: Settings, steps: seq<Step>)
    requires Admissible(steps)
    ensures Committed(h, Run(h, s, EMPTY_DB, steps))
    ensures AllDefaults(steps) ==> Backed(Run(h, s, EMPTY_DB, steps))
  {
    RunKeeps(h, s, EMPTY_DB, steps);
  }

  // ---- the ledger is the ground truth -----------------------------------------------------------

  function Target(p: Payload): State {
    match p
    case Created(_, _, state, _) => state
    case Moved(_, to, _) => to
  }

  // The entries chain through the transition table from the creation to the current state.
  ghost predicate Accounts(a: Action, trail: seq<Row<Payload>>) {
    && trail != [] && trail[0].payload.Created? && trail[0].payload.state == InitialState(a.blast)
    && trail[0].payload.blast == a.blast && trail[0].payload.actionType == a.actionType
    && (forall i :: 0 < i < |trail| ==> EdgeAt(trail, i))
    && Target(Last(trail).payload) == a.state
    && a.attempt == Starts(trail)
  }

  ghost predicate EdgeAt(trail: seq<Row<Payload>>, i: nat)
    requires 0 < i < |trail|
  {
    trail[i].payload.Moved? && trail[i].payload.from == Target(trail[i - 1].payload)
    && trail[i].payload.to in Transitions(trail[i].payload.from)
  }

  ghost predicate MovedAt(trail: seq<Row<Payload>>, i: nat)
    requires 0 < i < |trail|
  {
    WellMoved(Target(trail[i - 1].payload), trail[i])
  }

  function Starts(trail: seq<Row<Payload>>): nat {
    if trail == [] then 0
    else Starts(Front(trail)) + if Last(trail).eventType == "action_executing" then 1 else 0
  }

  lemma NamesDiffer(s: State)
    ensures "action_" + StateName(s) == "action_executing" <==> s == Executing
    ensures "action_created" != "action_executing"
  {
    var e := "action_" + StateName(s);
    assert e[7..] == StateName(s) && "action_executing"[7..] == "executing";
    assert "action_created"[7] == 'c' && "action_executing"[7] == 'e';
    assert StateName(s) == "executing" <==> s == Executing by {
      assert StateName(Executed)[6] == 't' || |StateName(Executed)| == 8;
      assert |"executing"| == 9;
    }
  }

  lemma {:induction false} ReplayAccounts(kind: string, blast: Blast, trail: seq<Row<Payload>>)
    requires Replay(kind, blast, trail).Some?
    ensures var acc := Replay(kind, blast, trail).value;
      && trail != [] && Birth(kind, blast, trail[0])
      && (forall i :: 0 < i < |trail| ==> MovedAt(trail, i))
      && Target(Last(trail).payload) == acc.state && Starts(trail) == acc.attempts
      && |trail| + Rank(acc.state) <= 1 + Rank(InitialState(blast))
      && (|trail| > 1 ==> Rank(acc.state) < Rank(InitialState(blast)))
  {
    hide StateName, Transitions;
    if |trail| == 1 {
      NamesDiffer(InitialState(blast));
      assert Front(trail) == [];
    } else {
      var f := Front(trail);
      ReplayAccounts(kind, blast, f);
      NamesDiffer(Last(trail).payload.to);
      forall i | 0 < i < |trail|
        ensures MovedAt(trail, i)
      {
        if i < |f| {
          assert MovedAt(f, i);
        }
      }
    }
  }

  // Falls on every edge that the code takes, although the table has the cycle failed -> queued.
  function Rank(s: State): nat {
    match s
    case PendingApproval => 3
    case Queued => 2
    case Executing => 1
    case _ => 0
  }

  // In every committed state the ledger entries of each action start with its creation, follow
  // the transition table edge by edge, and end in its current state.
  lemma LedgerIsGroundTruth(h: Hasher<Payload>, s: Settings, steps: seq<Step>, id: nat)
    requires Admissible(steps) && id < |Run(h, s, EMPTY_DB, steps).actions|
    ensures var db := Run(h, s, EMPTY_DB, steps); Accounts(db.actions[id], Trail(db.ledger, id))
  {
    hide Replay, Trail, Run, Intact, RefsOk, KeysDiffer, OnePerPlaybook;
    EveryRun(h, s, steps);
    var db := Run(h, s, EMPTY_DB, steps);
    var a := db.actions[id];
    var trail := Trail(db.ledger, id);
    assert ActionOk(db, id);
    ReplayAccounts(a.actionType, a.blast, trail);
    forall i | 0 < i < |trail|
      ensures EdgeAt(trail, i)
    {
      assert MovedAt(trail, i);
    }
  }

  // The ledger of every run verifies from end to end.
  lemma LedgerVerifies(h: Hasher<Payload>, s: Settings, steps: seq<Step>)
    requires Admissible(steps)
    ensures Intact(h, Run(h, s, EMPTY_DB, steps).ledger)
  {
    hide Intact, Run;
    EveryRun(h, s, steps);
  }

  // ---- bounded life -----------------------------------------------------------------------------

  function States(trail: seq<Row<Payload>>): seq<State> {
    seq(|trail|, i requires 0 <= i < |trail| => Target(trail[i].payload))
  }

  // The complete lives of an action.
  predicate Life(blast: Blast, states: seq<State>) {
    match blast
    case High =>
      states in {[PendingApproval], [PendingApproval, Rejected], [PendingApproval, Expired],
                 [PendingApproval, Queued, Executing, Executed], [PendingApproval, Queued, Executing, Failed]}
    case Low => states in {[Queued, Executing, Executed], [Queued, Executing, Failed]}
  }

  // The lives in the middle of a transaction, and how often each was started.
  predicate Course(blast: Blast, states: seq<State>, acc: Account) {
    && states != [] && Last(states) == acc.state
    && (Life(blast, states)
        || (blast == High && states in {[PendingApproval, Queued], [PendingApproval, Queued, Executing]})
        || (blast == Low && states in {[Queued], [Queued, Executing]}))
    && acc.attempts == if Executing in states then 1 else 0
  }

  lemma CourseStep(blast: Blast, states: seq<State>, acc: Account, to: State)
    requires Course(blast, states, acc) && Taken(acc.state, to)
    ensures Course(blast, states + [to], Account(to, acc.attempts + if to == Executing then 1 else 0))
  {
    var next := states + [to];
    match acc.state
    case PendingApproval =>
      assert states == [PendingApproval];
      assert next == [PendingApproval, to];
    case Queued =>
      if blast == High {
        assert next == [PendingApproval, Queued, Executing];
      } else {
        assert next == [Queued, Executing];
      }
    case Executing =>
      if blast == High {
        assert next == [PendingApproval, Queued, Executing, to];
      } else {
        assert next == [Queued, Executing, to];
      }
  }

  lemma {:induction false} ReplayCourse(kind: string, blast: Blast, trail: seq<Row<Payload>>)
    requires Replay(kind, blast, trail).Some?
    ensures Course(blast, States(trail), Replay(kind, blast, trail).value)
  {
    hide Course, StateName, IsUser;
    if |trail| == 1 {
      assert States(trail) == [InitialState(blast)];
      assert Course(blast, States(trail), Account(InitialState(blast), 0)) by { FirstCourse(blast); }
    } else {
      var f := Front(trail);
      ReplayCourse(kind, blast, f);
      var to := Last(trail).payload.to;
      CourseStep(blast, States(f), Replay(kind, blast, f).value, to);
      assert States(trail) == States(f) + [to];
    }
  }

  lemma FirstCourse(blast: Blast)
    ensures Course(blast, [InitialState(blast)], Account(InitialState(blast), 0))
  {
  }

  // What the trail of an action shows in every committed state.
  lemma TrailOf(h: Hasher<Payload>, s: Settings, steps: seq<Step>, id: nat)
    requires Admissible(steps) && id < |Run(h, s, EMPTY_DB, steps).actions|
    ensures var db := Run(h, s, EMPTY_DB, steps); var a := db.actions[id]; var trail := Trail(db.ledger, id);
      && Course(a.blast, States(trail), Account(a.state, a.attempt)) && Resting(a.state)
      && Birth(a.actionType, a.blast, trail[0])
      && forall i :: 0 < i < |trail| ==> MovedAt(trail, i)
  {
    hide Replay, Trail, Run, Intact, RefsOk, KeysDiffer, OnePerPlaybook, Course, MovedAt;
    EveryRun(h, s, steps);
    var db := Run(h, s, EMPTY_DB, steps);
    var a := db.actions[id];
    assert ActionOk(db, id);
    ReplayAccounts(a.actionType, a.blast, Trail(db.ledger, id));
    ReplayCourse(a.actionType, a.blast, Trail(db.ledger, id));
  }

  // No committed state holds an action in flight or dead; every action is started at most once,
  // and has lived exactly one of the complete lives.
  lemma LivesAreBounded(h: Hasher<Payload>, s: Settings, steps: seq<Step>, id: nat)
    requires Admissible(steps) && id < |Run(h, s, EMPTY_DB, steps).actions|
    ensures var db := Run(h, s, EMPTY_DB, steps); var a := db.actions[id];
      && a.state !in {Queued, Executing, Dead} && a.attempt <= 1
      && Life(a.blast, States(Trail(db.ledger, id)))
      && (a.attempt == 1 <==> a.state in {Executed, Failed})
  {
    hide Run, Trail, MovedAt;
    TrailOf(h, s, steps, id);
  }

  // A high-blast action is started only after a ledger entry in which a user approved it.
  lemma ApprovalComesFirst(h: Hasher<Payload>, s: Settings, steps: seq<Step>, id: nat)
    requires Admissible(steps) && id < |Run(h, s, EMPTY_DB, steps).actions|
    requires Run(h, s, EMPTY_DB, steps).actions[id].blast == High && Run(h, s, EMPTY_DB, steps).actions[id].attempt > 0
    ensures var trail := Trail(Run(h, s, EMPTY_DB, steps).ledger, id);
      && |trail| == 4 && trail[0].eventType == "action_created"
      && trail[1].eventType == "action_queued" && IsUser(trail[1].actor)
      && trail[2].eventType == "action_executing"
  {
    hide Run, Trail, Course, MovedAt;
    TrailOf(h, s, steps, id);
    var db := Run(h, s, EMPTY_DB, steps);
    var trail := Trail(db.ledger, id);
    StartedCourse(States(trail), Account(db.actions[id].state, db.actions[id].attempt));
    MovedName(trail, 1);
    MovedName(trail, 2);
  }

  lemma StartedCourse(states: seq<State>, acc: Account)
    requires Course(High, states, acc) && Resting(acc.state) && acc.attempts > 0
    ensures |states| == 4 && states[1] == Queued && states[2] == Executing
  {
  }

  lemma MovedName(trail: seq<Row<Payload>>, i: nat)
    requires 0 < i < |trail| && MovedAt(trail, i)
    ensures States(trail)[i] == Queued ==> trail[i].eventType == "action_queued" && IsUser(trail[i].actor)
    ensures States(trail)[i] == Executing ==> trail[i].eventType == "action_executing"
  {
    assert "action_" + StateName(Queued) == "action_queued" && "action_" + StateName(Executing) == "action_executing";
  }

  // An executed action of the type that sets this status stands behind the entity's status.
  ghost predicate PutThereBy(db: Db, id: nat, e: nat) {
    && id < |db.actions| && e in db.entities
    && db.actions[id].entity == e && db.actions[id].state == Executed
    && ((db.entities[e] == Quarantined && db.actions[id].actionType == "quarantine_host")
        || (db.entities[e] == Blocked && db.actions[id].actionType == "block_ip"))
  }

  // With the default effectors, an entity that is not active is quarantined or blocked, an executed
  // quarantine or block of that entity put it there, and a user approved that action when its blast
  // is high.
  lemma StatusIsAccountedFor(h: Hasher<Payload>, s: Settings, steps: seq<Step>, e: nat)
    requires Admissible(steps) && AllDefaults(steps)
    requires var db := Run(h, s, EMPTY_DB, steps); e in db.entities && db.entities[e] != Active
    ensures var db := Run(h, s, EMPTY_DB, steps);
      exists id: nat :: PutThereBy(db, id, e)
        && (db.actions[id].blast == High ==> ApprovedBefore(Trail(db.ledger, id)))
  {
    hide Run, Trail, Committed, ApprovedBefore;
    EveryRun(h, s, steps);
    var db := Run(h, s, EMPTY_DB, steps);
    assert Caused(db, e);
    var id :| 0 <= id < |db.actions| && Causes(db, id, e);
    assert PutThereBy(db, id, e);
    LivesAreBounded(h, s, steps, id);
    if db.actions[id].blast == High {
      ApprovalComesFirst(h, s, steps, id);
      assert ApprovedBefore(Trail(db.ledger, id)) by { ApprovedIntro(Trail(db.ledger, id)); }
    }
  }

  // An entry of a user that queues the action comes before the first start.
  ghost predicate ApprovedBefore(trail: seq<Row<Payload>>) {
    exists i :: 0 <= i < |trail| && QueuedBy(trail[i])
                && forall j :: 0 <= j <= i ==> trail[j].eventType != "action_executing"
  }

  predicate QueuedBy(row: Row<Payload>) {
    row.eventType == "action_queued" && IsUser(row.actor)
  }

  lemma ApprovedIntro(trail: seq<Row<Payload>>)
    requires |trail| == 4 && QueuedBy(trail[1])
    requires trail[0].eventType == "action_created"
    ensures ApprovedBefore(trail)
  {
  }

  // The effectors that a step runs.
  function EffectorsOf(step: Step): map<string, Effector> {
    match step
    case Orchestrate(_, _, effectors) => effectors
    case Decide(_, effectors, _) => effectors
    case Request(_, _, _) => DEFAULT_EFFECTORS
    case _ => map[]
  }

  // In every run, a step changes an entity's status only together with an action on that entity
  // coming to be executed, or to fail because its effector raised after setting the status: no
  // rejected, expired or otherwise failed action ever does.
  lemma StatusChangesNeedExecution(h: Hasher<Payload>, s: Settings, steps: seq<Step>, step: Step, e: nat)
    requires Admissible(steps) && SoundStep(step)
    requires var db := Run(h, s, EMPTY_DB, steps);
      e in db.entities && e in Apply(h, s, db, step).entities && Apply(h, s, db, step).entities[e] != db.entities[e]
    ensures var db := Run(h, s, EMPTY_DB, steps);
      exists id: nat :: NewlyRan(db, Apply(h, s, db, step), id, e, EffectorsOf(step))
  {
    hide Run, Committed, Apply;
    EveryRun(h, s, steps);
    StepOk(h, s, Run(h, s, EMPTY_DB, steps), step);
  }

  // With the default effectors only an action that is neither a quarantine nor a block ends as failed.
  lemma FailuresLackAnEffector(h: Hasher<Payload>, s: Settings, steps: seq<Step>, id: nat)
    requires Admissible(steps) && AllDefaults(steps) && id < |Run(h, s, EMPTY_DB, steps).actions|
    ensures var a := Run(h, s, EMPTY_DB, steps).actions[id];
      a.state == Failed ==> a.actionType != "quarantine_host" && a.actionType != "block_ip"
  {
    hide Run, Committed;
    EveryRun(h, s, steps);
  }

  // An incident gets at most one action per playbook.
  lemma OneActionPerPlaybook(h: Hasher<Payload>, s: Settings, steps: seq<Step>, i: nat, j: nat)
    requires Admissible(steps) && i < j < |Run(h, s, EMPTY_DB, steps).actions|
    ensures var acts := Run(h, s, EMPTY_DB, steps).actions;
      !(acts[i].incident == acts[j].incident && acts[i].playbook == acts[j].playbook)
  {
    hide Run, ActionOk, Intact, RefsOk;
    EveryRun(h, s, steps);
  }

  // ---- keyed decisions ----------------------------------------------------------------------------

  lemma OnlyHolder(h: Hasher<Payload>, db: Db, id: nat, key: string)
    requires Committed(h, db) && id < |db.actions| && HoldsKey(db.actions[id], key)
    ensures FindKey(db.actions, key) == Some(id)
  {
    hide ActionOk, Intact, RefsOk;
    assert FindKey(db.actions, key).Some?;
  }

  lemma DecisionRecordsKey(h: Hasher<Payload>, db: Db, clock: Clock, v: Verdict, header: Option<string>)
    requires Committed(h, db) && header.Some? && header.value != ""
    requires var r := Serve(h, db, clock, v, header).response; r.Answer? && !r.replayed
    ensures var served := Serve(h, db, clock, v, header); var id := served.response.id;
      && id < |served.db.actions| && served.db.actions[id] == served.response.action
      && served.db.actions[id].idemKey == header
  {
    hide Rule, Committed, Backed, Evolves, StatusFollows;
    RuleOk(h, db, clock, DEFAULT_EFFECTORS, v);
    RuleKeys(h, db, clock, DEFAULT_EFFECTORS, v);
    if db.actions[v.id].idemKey.Some? {
      KeyedIsFinished(h, db, v.id);
    }
  }

  // After one successful keyed decision, whatever else happens, every request with that key on an
  // existing action changes nothing and returns the recorded outcome.
  lemma KeyedDecisionHappensOnce(h: Hasher<Payload>, s: Settings, db: Db, clock: Clock, v: Verdict,
                                 header: Option<string>, later: seq<Step>, clock': Clock, v': Verdict)
    requires Committed(h, db) && header.Some? && header.value != "" && Admissible(later)
    requires var r := Serve(h, db, clock, v, header).response; r.Answer? && !r.replayed
    ensures var first := Serve(h, db, clock, v, header);
      var now := Run(h, s, first.db, later);
      v'.id < |now.actions| ==>
        Serve(h, now, clock', v', header) == Served(now, first.response.(replayed := true))
  {
    hide Committed, Run, Rule, AppendEntry;
    var first := Serve(h, db, clock, v, header);
    DecisionRecordsKey(h, db, clock, v, header);
    ServeOk(h, db, clock, v, header);
    RunKeeps(h, s, first.db, later);
    KeyedIsFinished(h, first.db, first.response.id);
    OnlyHolder(h, Run(h, s, first.db, later), first.response.id, header.value);
  }

  lemma KeyedIsFinished(h: Hasher<Payload>, db: Db, id: nat)
    requires Committed(h, db) && id < |db.actions| && db.actions[id].idemKey.Some?
    ensures Finished(db.actions[id].state)
  {
    hide Intact, RefsOk, Replay, Trail, KeysDiffer, OnePerPlaybook;
    assert ActionOk(db, id);
  }

  // No two actions share a key, and a pending action has none.
  lemma KeysAreUnique(h: Hasher<Payload>, s: Settings, steps: seq<Step>, i: nat, j: nat)
    requires Admissible(steps) && i < j < |Run(h, s, EMPTY_DB, steps).actions|
    ensures var acts := Run(h, s, EMPTY_DB, steps).actions;
      && (acts[i].idemKey.Some? ==> acts[i].idemKey != acts[j].idemKey)
      && (acts[i].state == PendingApproval ==> acts[i].idemKey == None)
  {
    hide Run, Intact, RefsOk, Replay, Trail;
    EveryRun(h, s, steps);
    assert ActionOk(Run(h, s, EMPTY_DB, steps), i);
  }
}
