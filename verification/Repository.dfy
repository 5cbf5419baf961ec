/**
 The event repository: entities keyed by (type, identifier) and events with a unique event id.
 Inserting is idempotent, so at-least-once delivery stores each event once.
 */
module Repository {
  import opened Common

  // The key columns of an entity.
  datatype EntityRef = EntityRef(kind: string, identifier: string)

  // A canonical event; body stands for the columns that no other table reads.
  datatype Event = Event(eventId: string, src: EntityRef, dst: Option<EntityRef>, body: string)

  datatype EntityRow = EntityRow(id: nat, lastSeen: int)

  datatype EventRow = EventRow(eventId: string, srcId: nat, dstId: Option<nat>, body: string)

  datatype Tables = Tables(entities: map<EntityRef, EntityRow>, nextEntity: nat, events: seq<EventRow>)

  const EMPTY := Tables(map[], 1, [])

  datatype InsertReport = InsertReport(inserted: nat, duplicates: nat)

  // ---- entity references -----------------------------------------------------------------------

  function AddRef(refs: seq<EntityRef>, r: EntityRef): seq<EntityRef> {
    if r in refs then refs else refs + [r]
  }

  // The source's set of references, listed in order of first appearance.
  function EntityRefs(events: seq<Event>): seq<EntityRef> {
    if events == [] then []
    else
      var e, before := Last(events), AddRef(EntityRefs(Front(events)), Last(events).src);
      if e.dst.Some? then AddRef(before, e.dst.value) else before
  }

  predicate Mentions(e: Event, r: EntityRef) {
    e.src == r || e.dst == Some(r)
  }

  lemma AddRefMembers(refs: seq<EntityRef>, r: EntityRef, x: EntityRef)
    ensures x in AddRef(refs, r) <==> x in refs || x == r
    ensures Distinct(refs) ==> Distinct(AddRef(refs, r))
  {
  }

  // Exactly the mentioned entities are listed, each once.
  lemma {:induction false} RefsAreMentions(events: seq<Event>, r: EntityRef)
    ensures r in EntityRefs(events) <==> exists i :: 0 <= i < |events| && Mentions(events[i], r)
    ensures Distinct(EntityRefs(events))
  {
    if events != [] {
      var f, e := Front(events), Last(events);
      RefsAreMentions(f, r);
      var before := EntityRefs(f);
      AddRefMembers(before, e.src, r);
      if e.dst.Some? {
        AddRefMembers(AddRef(before, e.src), e.dst.value, r);
      }
      if exists i :: 0 <= i < |f| && Mentions(f[i], r) {
        var i :| 0 <= i < |f| && Mentions(f[i], r);
        assert Mentions(events[i], r);
      }
      if Mentions(e, r) {
        assert Mentions(events[|events| - 1], r);
      }
    }
  }

  method ExtractEntityRefs(events: seq<Event>) returns (refs: seq<EntityRef>)
    ensures refs == EntityRefs(events)
  {
    refs := [];
    for i := 0 to |events|
      invariant refs == EntityRefs(events[..i])
    {
      assert Front(events[..i + 1]) == events[..i];
      refs := AddRef(refs, events[i].src);
      if events[i].dst.Some? {
        refs := AddRef(refs, events[i].dst.value);
      }
    }
    assert events[..|events|] == events;
  }

  // ---- the order of the upsert ----------------------------------------------------------------

  // Lexicographic order by code point.
  predicate StringLe(a: string, b: string) {
    a == "" || (b != "" && (a[0] < b[0] || (a[0] == b[0] && StringLe(a[1..], b[1..]))))
  }

  // The key (type, identifier).
  predicate RefLe(a: EntityRef, b: EntityRef) {
    if a.kind == b.kind then StringLe(a.identifier, b.identifier) else StringLe(a.kind, b.kind)
  }

  lemma {:induction false} StringLeTotal(a: string, b: string)
    ensures StringLe(a, b) || StringLe(b, a)
    ensures StringLe(a, b) && StringLe(b, a) ==> a == b
  {
    if a != "" && b != "" {
      StringLeTotal(a[1..], b[1..]);
      assert a == [a[0]] + a[1..] && b == [b[0]] + b[1..];
    }
  }

  lemma {:induction false} StringLeTransitive(a: string, b: string, c: string)
    requires StringLe(a, b) && StringLe(b, c)
    ensures StringLe(a, c)
  {
    if a != "" && a[0] == b[0] && b[0] == c[0] {
      StringLeTransitive(a[1..], b[1..], c[1..]);
    }
  }

  lemma RefLeTransitive(a: EntityRef, b: EntityRef, c: EntityRef)
    requires RefLe(a, b) && RefLe(b, c)
    ensures RefLe(a, c)
  {
    hide StringLe;
    if a.kind == b.kind == c.kind {
      StringLeTransitive(a.identifier, b.identifier, c.identifier);
    } else if a.kind != b.kind && b.kind != c.kind {
      StringLeTransitive(a.kind, b.kind, c.kind);
      StringLeTotal(a.kind, b.kind);
    }
  }

  lemma RefLeIsTotal()
    ensures TotalPreorder(RefLe)
  {
    hide StringLe;
    forall a, b
      ensures RefLe(a, b) || RefLe(b, a)
    {
      StringLeTotal(a.kind, b.kind);
      StringLeTotal(a.identifier, b.identifier);
    }
    forall a, b, c | RefLe(a, b) && RefLe(b, c)
      ensures RefLe(a, c)
    {
      RefLeTransitive(a, b, c);
    }
  }

  // A batch's references in the order in which they are upserted.
  function UniqueRefs(events: seq<Event>): seq<EntityRef> {
    Sorted(RefLe, EntityRefs(events))
  }

  // Exactly the mentioned entities, each once, ascending by key.
  lemma UniqueRefsProperties(events: seq<Event>, r: EntityRef)
    ensures r in UniqueRefs(events) <==> exists i :: 0 <= i < |events| && Mentions(events[i], r)
    ensures SortedBy(RefLe, UniqueRefs(events)) && Distinct(UniqueRefs(events))
  {
    hide RefLe, EntityRefs;
    var refs := EntityRefs(events);
    RefsAreMentions(events, r);
    RefLeIsTotal();
    SortedProperties(RefLe, refs);
    DistinctMultiplicity(refs);
    DistinctMultiplicity(UniqueRefs(events));
    assert r in UniqueRefs(events) <==> r in multiset(UniqueRefs(events));
    assert r in refs <==> r in multiset(refs);
  }

  // ---- upserting entities ------------------------------------------------------------------------

  function Greatest(a: int, b: int): int {
    if a < b then b else a
  }

  function UpsertOne(t: Tables, r: EntityRef, now: int): Tables {
    if r in t.entities then
      var row := t.entities[r];
      t.(entities := t.entities[r := row.(lastSeen := Greatest(row.lastSeen, now))])
    else t.(entities := t.entities[r := EntityRow(t.nextEntity, now)], nextEntity := t.nextEntity + 1)
  }

  function Upsert(t: Tables, refs: seq<EntityRef>, now: int): Tables {
    if refs == [] then t else UpsertOne(Upsert(t, Front(refs), now), Last(refs), now)
  }

  // Entity ids are below the counter, and different entities have different ids.
  ghost predicate EntitiesOk(t: Tables) {
    && (forall r :: r in t.entities ==> t.entities[r].id < t.nextEntity)
    && (forall r, s :: r in t.entities && s in t.entities && t.entities[r].id == t.entities[s].id ==> r == s)
  }

  // What u has beyond t: the listed references, seen no earlier than now.
  ghost predicate Upserted(t: Tables, u: Tables, refs: seq<EntityRef>, now: int) {
    && u.events == t.events
    && (forall r :: r in u.entities <==> r in t.entities || r in refs)
    && (forall r :: r in t.entities ==> u.entities[r].id == t.entities[r].id)
    && (forall r :: r in t.entities ==> u.entities[r].lastSeen >= t.entities[r].lastSeen)
    && (forall r :: r in refs ==> u.entities[r].lastSeen >= now)
  }

  lemma UpsertOneMore(t: Tables, u: Tables, refs: seq<EntityRef>, r: EntityRef, now: int)
    requires Upserted(t, u, refs, now)
    ensures Upserted(t, UpsertOne(u, r, now), refs + [r], now)
  {
  }

  lemma UpsertOneIds(u: Tables, r: EntityRef, now: int)
    requires EntitiesOk(u)
    ensures EntitiesOk(UpsertOne(u, r, now))
  {
  }

  lemma {:induction false} UpsertProperties(t: Tables, refs: seq<EntityRef>, now: int)
    requires EntitiesOk(t)
    ensures EntitiesOk(Upsert(t, refs, now)) && Upserted(t, Upsert(t, refs, now), refs, now)
  {
    hide UpsertOne, EntitiesOk;
    if refs != [] {
      UpsertProperties(t, Front(refs), now);
      var u := Upsert(t, Front(refs), now);
      FrontLast(refs);
      UpsertOneMore(t, u, Front(refs), Last(refs), now);
      UpsertOneIds(u, Last(refs), now);
    }
  }

  // Exactly what an upsert does to one entity: a listed one is seen now unless it was seen later, a
  // new one gets a fresh id, and others stay as they were.
  lemma {:induction false} UpsertIs(t: Tables, refs: seq<EntityRef>, now: int, r: EntityRef)
    ensures var u := Upsert(t, refs, now);
      && u.nextEntity >= t.nextEntity
      && (r in refs && r in t.entities ==>
            r in u.entities && u.entities[r].id == t.entities[r].id
            && u.entities[r].lastSeen == if t.entities[r].lastSeen < now then now else t.entities[r].lastSeen)
      && (r in refs && r !in t.entities ==>
            r in u.entities && t.nextEntity <= u.entities[r].id < u.nextEntity && u.entities[r].lastSeen == now)
      && (r !in refs ==> (r in u.entities <==> r in t.entities))
      && (r !in refs && r in t.entities ==> u.entities[r] == t.entities[r])
  {
    if refs != [] {
      FrontLast(refs);
      UpsertIs(t, Front(refs), now, r);
    }
  }

  // New entities are numbered in the order of the references.
  lemma {:induction false} NewIdsFollowOrder(t: Tables, refs: seq<EntityRef>, now: int, i: nat, j: nat)
    requires i < j < |refs| && Distinct(refs) && refs[i] !in t.entities && refs[j] !in t.entities
    ensures var u := Upsert(t, refs, now);
      refs[i] in u.entities && refs[j] in u.entities && u.entities[refs[i]].id < u.entities[refs[j]].id
  {
    var f, l := Front(refs), Last(refs);
    UpsertIs(t, f, now, refs[i]);
    UpsertIs(t, f, now, refs[j]);
    if j < |f| {
      NewIdsFollowOrder(t, f, now, i, j);
    } else {
      assert refs[j] !in f && refs[i] == f[i];
    }
  }

  // The key order is that of the first difference, a prefix coming first.
  lemma {:induction false} StringLeIs(a: string, b: string)
    ensures StringLe(a, b) <==> a <= b || exists i :: FirstDifference(a, b, i) && a[i] < b[i]
  {
    if a != "" && b != "" {
      var c, d := a[1..], b[1..];
      StringLeIs(c, d);
      assert a == [a[0]] + c && b == [b[0]] + d;
      if a[0] != b[0] {
        assert FirstDifference(a, b, 0);
        assert forall i :: FirstDifference(a, b, i) ==> i == 0;
      } else {
        forall i
          ensures FirstDifference(c, d, i) ==> FirstDifference(a, b, i + 1)
        {
          assert FirstDifference(c, d, i) ==> a[..i + 1] == [a[0]] + c[..i] && b[..i + 1] == [b[0]] + d[..i];
        }
        forall i
          ensures FirstDifference(a, b, i) ==> i > 0 && FirstDifference(c, d, i - 1)
        {
          assert FirstDifference(a, b, i) && i > 0 ==> c[..i - 1] == a[..i][1..] && d[..i - 1] == b[..i][1..];
        }
      }
    }
  }

  predicate FirstDifference(a: string, b: string, i: int) {
    0 <= i < |a| && i < |b| && a[..i] == b[..i] && a[i] != b[i]
  }

  // ---- inserting events --------------------------------------------------------------------------

  predicate HasEvent(rows: seq<EventRow>, eventId: string) {
    exists i :: 0 <= i < |rows| && rows[i].eventId == eventId
  }

  predicate Resolves(entities: map<EntityRef, EntityRow>, e: Event) {
    e.src in entities && (e.dst.Some? ==> e.dst.value in entities)
  }

  function RowOf(entities: map<EntityRef, EntityRow>, e: Event): EventRow
    requires Resolves(entities, e)
  {
    EventRow(e.eventId, entities[e.src].id, if e.dst.Some? then Some(entities[e.dst.value].id) else None, e.body)
  }

  function InsertOne(rows: seq<EventRow>, row: EventRow): seq<EventRow> {
    if HasEvent(rows, row.eventId) then rows else rows + [row]
  }

  // Insert, do nothing on conflict.
  function InsertRows(rows: seq<EventRow>, values: seq<EventRow>): seq<EventRow> {
    if values == [] then rows else InsertOne(InsertRows(rows, Front(values)), Last(values))
  }

  function RowsOf(entities: map<EntityRef, EntityRow>, events: seq<Event>): (rows: seq<EventRow>)
    requires forall i :: 0 <= i < |events| ==> Resolves(entities, events[i])
    ensures |rows| == |events| && forall i :: 0 <= i < |rows| ==> rows[i] == RowOf(entities, events[i])
  {
    if events == [] then [] else RowsOf(entities, Front(events)) + [RowOf(entities, Last(events))]
  }

  // The effect of one committed batch.
  function Persist(t: Tables, events: seq<Event>, now: int): Tables {
    var u := Upsert(t, UniqueRefs(events), now);
    if forall i :: 0 <= i < |events| ==> Resolves(u.entities, events[i])
    then u.(events := InsertRows(u.events, RowsOf(u.entities, events)))
    else t
  }

  // No event id has two rows.
  ghost predicate OneRowEach(rows: seq<EventRow>) {
    forall i, j :: 0 <= i < j < |rows| ==> rows[i].eventId != rows[j].eventId
  }

  lemma {:induction false} InsertProperties(rows: seq<EventRow>, values: seq<EventRow>)
    requires OneRowEach(rows)
    ensures var all := InsertRows(rows, values);
      && OneRowEach(all) && rows <= all && |all| <= |rows| + |values|
      && (forall id :: HasEvent(all, id) <==> HasEvent(rows, id) || HasEvent(values, id))
      && (forall i :: |rows| <= i < |all| ==> all[i] in values)
  {
    if values != [] {
      var f, v := Front(values), Last(values);
      InsertProperties(rows, f);
      var before, all := InsertRows(rows, f), InsertRows(rows, values);
      forall id
        ensures HasEvent(all, id) <==> HasEvent(rows, id) || HasEvent(values, id)
      {
        HasEventSnoc(before, v, id);
        HasEventSnoc(f, v, id);
        FrontLast(values);
      }
    }
  }

  lemma HasEventSnoc(rows: seq<EventRow>, row: EventRow, id: string)
    ensures HasEvent(rows + [row], id) <==> HasEvent(rows, id) || row.eventId == id
  {
    if HasEvent(rows, id) {
      var i :| 0 <= i < |rows| && rows[i].eventId == id;
      assert (rows + [row])[i].eventId == id;
    }
    if row.eventId == id {
      assert (rows + [row])[|rows|].eventId == id;
    }
  }

  // A second attempt at a committed batch inserts nothing.
  lemma {:induction false} InsertAgain(rows: seq<EventRow>, values: seq<EventRow>)
    requires forall i :: 0 <= i < |values| ==> HasEvent(rows, values[i].eventId)
    ensures InsertRows(rows, values) == rows
  {
    if values != [] {
      InsertAgain(rows, Front(values));
      assert HasEvent(rows, values[|values| - 1].eventId);
    }
  }

  // ---- the methods ---------------------------------------------------------------------------------

  class Session {
    var db: Tables

    constructor (db: Tables)
      ensures this.db == db
    {
      this.db := db;
    }
  }

  method UpsertEntities(session: Session, refs: seq<EntityRef>, now: int)
    modifies session
    ensures session.db == Upsert(old(session.db), Sorted(RefLe, refs), now)
  {
    var uniqueRefs := Sorted(RefLe, refs);
    for i := 0 to |uniqueRefs|
      invariant session.db == Upsert(old(session.db), uniqueRefs[..i], now)
    {
      assert Front(uniqueRefs[..i + 1]) == uniqueRefs[..i];
      session.db := UpsertOne(session.db, uniqueRefs[i], now);
    }
    assert uniqueRefs[..|uniqueRefs|] == uniqueRefs;
  }

  method InsertEventsBatch(session: Session, events: seq<Event>) returns (report: InsertReport)
    requires forall i :: 0 <= i < |events| ==> Resolves(session.db.entities, events[i])
    modifies session
    ensures session.db
         == old(session.db).(events := InsertRows(old(session.db).events, RowsOf(old(session.db).entities, events)))
    ensures report.inserted == |session.db.events| - |old(session.db).events|
    ensures report.inserted + report.duplicates == |events|
  {
    hide HasEvent, RowOf;
    if events == [] {
      return InsertReport(0, 0);
    }
    var values: seq<EventRow> := [];
    for i := 0 to |events|
      invariant values == RowsOf(session.db.entities, events)[..i]
    {
      values := values + [RowOf(session.db.entities, events[i])];
    }
    ghost var rows := RowsOf(session.db.entities, events);
    assert values == rows;
    var inserted := 0;
    for i := 0 to |values|
      invariant session.db == old(session.db).(events := InsertRows(old(session.db).events, values[..i]))
      invariant inserted == |session.db.events| - |old(session.db).events| && inserted <= i
    {
      assert Front(values[..i + 1]) == values[..i];
      if !HasEvent(session.db.events, values[i].eventId) {
        session.db := session.db.(events := session.db.events + [values[i]]);
        inserted := inserted + 1;
      }
    }
    assert values[..|values|] == values;
    report := InsertReport(inserted, |events| - inserted);
  }

  lemma RefsResolve(t: Tables, events: seq<Event>, now: int)
    requires EntitiesOk(t)
    ensures forall i :: 0 <= i < |events| ==> Resolves(Upsert(t, UniqueRefs(events), now).entities, events[i])
  {
    hide UniqueRefs, Upsert;
    var refs := UniqueRefs(events);
    UpsertProperties(t, refs, now);
    forall i | 0 <= i < |events|
      ensures Resolves(Upsert(t, refs, now).entities, events[i])
    {
      UniqueRefsProperties(events, events[i].src);
      assert Mentions(events[i], events[i].src);
      if events[i].dst.Some? {
        UniqueRefsProperties(events, events[i].dst.value);
        assert Mentions(events[i], events[i].dst.value);
      }
    }
  }

  // Resolves the entities and inserts the events in one transaction.
  method PersistBatch(session: Session, events: seq<Event>, now: int) returns (report: InsertReport)
    requires EntitiesOk(session.db)
    modifies session
    ensures session.db == Persist(old(session.db), events, now)
    ensures report.inserted == |session.db.events| - |old(session.db).events|
    ensures report.inserted + report.duplicates == |events|
  {
    hide Upsert, EntityRefs, InsertRows, RowsOf, EntitiesOk, RefLe;
    RefsResolve(session.db, events, now);
    UpsertProperties(session.db, UniqueRefs(events), now);
    var refs := ExtractEntityRefs(events);
    UpsertEntities(session, refs, now);
    report := InsertEventsBatch(session, events);
  }

  // ---- what one batch does to the tables --------------------------------------------------------

  ghost predicate TablesOk(t: Tables) {
    EntitiesOk(t) && OneRowEach(t.events)
  }

  // The row holds the event's columns and refers to the entities that it mentions.
  predicate RowFor(t: Tables, row: EventRow, e: Event) {
    && row.eventId == e.eventId && row.body == e.body
    && e.src in t.entities && row.srcId == t.entities[e.src].id
    && match e.dst
       case None => row.dstId == None
       case Some(r) => r in t.entities && row.dstId == Some(t.entities[r].id)
  }

  lemma RowOfIsFor(t: Tables, e: Event)
    requires Resolves(t.entities, e)
    ensures RowFor(t, RowOf(t.entities, e), e)
  {
  }

  // One committed batch: earlier rows stay, every event of the batch has its row, every new row
  // refers to the right entities, entities keep their ids, and no event id has two rows.
  lemma PersistProperties(t: Tables, events: seq<Event>, now: int)
    requires TablesOk(t)
    ensures var u := Persist(t, events, now);
      && TablesOk(u) && t.events <= u.events && |u.events| <= |t.events| + |events|
      && (forall id :: HasEvent(u.events, id) <==> HasEvent(t.events, id) || HasId(events, id))
      && (forall i :: |t.events| <= i < |u.events| ==>
            exists k :: 0 <= k < |events| && RowFor(u, u.events[i], events[k]))
      && (forall r :: r in t.entities ==> r in u.entities && u.entities[r].id == t.entities[r].id)
  {
    hide UniqueRefs, Upsert, InsertRows, RowOf, OneRowEach, EntitiesOk, HasEvent, HasId;
    RefsResolve(t, events, now);
    UpsertProperties(t, UniqueRefs(events), now);
    var v := Upsert(t, UniqueRefs(events), now);
    var rows := RowsOf(v.entities, events);
    InsertProperties(t.events, rows);
    var u := Persist(t, events, now);
    assert u == v.(events := InsertRows(t.events, rows));
    EntitiesFrame(v, u);
    forall id
      ensures HasEvent(rows, id) <==> HasId(events, id)
    {
      RowsHold(v.entities, events, id);
    }
    forall i | |t.events| <= i < |u.events|
      ensures exists k :: 0 <= k < |events| && RowFor(u, u.events[i], events[k])
    {
      var k :| 0 <= k < |rows| && rows[k] == u.events[i];
      assert Resolves(v.entities, events[k]);
      RowOfIsFor(u, events[k]);
    }
  }

  lemma {:induction false} FirstRowWins(rows: seq<EventRow>, values: seq<EventRow>, k: nat)
    requires k < |values| && !HasEvent(rows, values[k].eventId)
    requires forall j :: 0 <= j < k ==> values[j].eventId != values[k].eventId
    ensures values[k] in InsertRows(rows, values)
  {
    var f := Front(values);
    if k < |f| {
      FirstRowWins(rows, f, k);
    } else {
      NotYetInserted(rows, f, values[k].eventId);
    }
  }

  lemma {:induction false} NotYetInserted(rows: seq<EventRow>, values: seq<EventRow>, id: string)
    requires !HasEvent(rows, id) && forall j :: 0 <= j < |values| ==> values[j].eventId != id
    ensures !HasEvent(InsertRows(rows, values), id)
  {
    if values != [] {
      NotYetInserted(rows, Front(values), id);
      HasEventSnoc(InsertRows(rows, Front(values)), Last(values), id);
    }
  }

  // Of the events of one id that a batch brings anew, the first is the one stored.
  lemma FirstEventIsStored(t: Tables, events: seq<Event>, now: int, k: nat)
    requires TablesOk(t) && k < |events| && !HasEvent(t.events, events[k].eventId)
    requires forall j :: 0 <= j < k ==> events[j].eventId != events[k].eventId
    ensures var u := Persist(t, events, now);
      exists i :: |t.events| <= i < |u.events| && RowFor(u, u.events[i], events[k])
  {
    hide UniqueRefs, Upsert, InsertRows, OneRowEach, EntitiesOk;
    RefsResolve(t, events, now);
    UpsertProperties(t, UniqueRefs(events), now);
    var u, v := Persist(t, events, now), Upsert(t, UniqueRefs(events), now);
    var rows := RowsOf(v.entities, events);
    InsertProperties(t.events, rows);
    FirstRowWins(t.events, rows, k);
    RowOfIsFor(u, events[k]);
    var i :| 0 <= i < |u.events| && u.events[i] == rows[k];
    assert forall j :: 0 <= j < |t.events| ==> u.events[j] == t.events[j] && t.events[j].eventId != events[k].eventId;
    assert |t.events| <= i;
  }

  lemma EntitiesFrame(v: Tables, u: Tables)
    requires EntitiesOk(v) && u.entities == v.entities && u.nextEntity == v.nextEntity
    ensures EntitiesOk(u)
  {
  }

  predicate HasId(events: seq<Event>, id: string) {
    exists i :: 0 <= i < |events| && events[i].eventId == id
  }

  lemma RowsHold(entities: map<EntityRef, EntityRow>, events: seq<Event>, id: string)
    requires forall i :: 0 <= i < |events| ==> Resolves(entities, events[i])
    ensures HasEvent(RowsOf(entities, events), id) <==> HasId(events, id)
  {
    var rows := RowsOf(entities, events);
    if HasEvent(rows, id) {
      var i :| 0 <= i < |rows| && rows[i].eventId == id;
      assert events[i].eventId == id;
    }
    if HasId(events, id) {
      var i :| 0 <= i < |events| && events[i].eventId == id;
      assert rows[i].eventId == id;
    }
  }

  // Delivering a batch again stores nothing: the event table stays as it was.
  lemma PersistTwice(t: Tables, events: seq<Event>, now: int, later: int)
    requires TablesOk(t)
    ensures var u := Persist(t, events, now); Persist(u, events, later).events == u.events
  {
    hide UniqueRefs, Upsert, InsertRows;
    PersistProperties(t, events, now);
    var u := Persist(t, events, now);
    RefsResolve(u, events, later);
    UpsertProperties(u, UniqueRefs(events), later);
    var v := Upsert(u, UniqueRefs(events), later);
    var rows := RowsOf(v.entities, events);
    forall i | 0 <= i < |rows|
      ensures HasEvent(u.events, rows[i].eventId)
    {
      assert HasId(events, events[i].eventId);
    }
    InsertAgain(u.events, rows);
  }
}
