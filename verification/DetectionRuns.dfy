/**
 Whole runs of the detection worker: events arrive, ticks of any batch size commit or abort.
 Whatever the schedule, the tables equal one fold of each detector over the consumed events.
 */
module DetectionRuns {
  import opened Common
  import opened DetectorBase
  import opened DetectionWorker

  datatype Action = Arrive(event: Event) | Tick(limit: nat, commits: bool)

  ghost predicate ValidRegistry(ds: seq<Detector>) {
    && (forall d :: d in ds ==> d.Valid())
    && (forall i, j :: 0 <= i < j < |ds| ==> ds[i].Name() != ds[j].Name())
  }

  // Event ids become visible in increasing order.
  function Apply(ds: seq<Detector>, db: Db, a: Action): Db
    requires forall d :: d in ds ==> d.Valid()
  {
    match a
    case Arrive(e) => if e.id > MaxId(db.events) then db.(events := db.events + [e]) else db
    case Tick(limit, commits) => if commits then TickDb(ds, limit, db) else db
  }

  function RunActions(ds: seq<Detector>, actions: seq<Action>): Db
    requires forall d :: d in ds ==> d.Valid()
  {
    if actions == [] then EMPTY_DB else Apply(ds, RunActions(ds, Front(actions)), Last(actions))
  }

  // ---- one fold of each detector --------------------------------------------------------

  // The detections caused by the events of b after those of v, in event order; every event
  // is judged against the history of its own entity.
  ghost function Emitted(d: Detector, v: seq<Event>, b: seq<Event>): seq<Detection>
    requires d.Valid()
  {
    if b == [] then []
    else
      var e := Last(b);
      Emitted(d, v, Front(b)) + Listed(d.Step(StateAfter(d, BySource(v + Front(b), e.src)), e).detection)
  }

  ghost function AllEmitted(ds: seq<Detector>, v: seq<Event>, b: seq<Event>): multiset<Detection>
    requires forall d :: d in ds ==> d.Valid()
  {
    if ds == [] then multiset{}
    else AllEmitted(Front(ds), v, b) + multiset(Emitted(Last(ds), v, b))
  }

  // The tables are one fold of every detector over the consumed events.
  ghost predicate IsOneFold(ds: seq<Detector>, db: Db)
    requires forall d :: d in ds ==> d.Valid()
  {
    var consumed := Visible(db.events, db.cursor);
    && (forall d, src :: d in ds ==> Load(d, db.metrics, src) == StateAfter(d, BySource(consumed, src)))
    && multiset(db.detections) == AllEmitted(ds, [], consumed)
  }

  // ---- grouping a batch by entity loses nothing -----------------------------------------

  lemma {:induction false} BySourceAppend(a: seq<Event>, b: seq<Event>, src: nat)
    ensures BySource(a + b, src) == BySource(a, src) + BySource(b, src)
  {
    if b == [] {
      assert a + b == a;
    } else {
      BySourceAppend(a, Front(b), src);
      assert Front(a + b) == a + Front(b) && Last(a + b) == Last(b);
    }
  }

  ghost function EntityDetections(d: Detector, v: seq<Event>, b: seq<Event>, src: nat): seq<Detection>
    requires d.Valid()
  {
    RunFrom(d, StateAfter(d, BySource(v, src)), BySource(b, src)).detections
  }

  ghost function GroupedDetections(d: Detector, v: seq<Event>, b: seq<Event>, order: seq<nat>): seq<Detection>
    requires d.Valid()
  {
    if order == [] then []
    else GroupedDetections(d, v, b, Front(order)) + EntityDetections(d, v, b, Last(order))
  }

  lemma EntitySnoc(d: Detector, v: seq<Event>, b: seq<Event>, e: Event, src: nat)
    requires d.Valid()
    ensures EntityDetections(d, v, b + [e], src)
         == EntityDetections(d, v, b, src)
            + if src == e.src then Listed(d.Step(StateAfter(d, BySource(v + b, e.src)), e).detection) else []
  {
    assert Front(b + [e]) == b && Last(b + [e]) == e;
    if src == e.src {
      var mine := BySource(b, src);
      assert Front(mine + [e]) == mine && Last(mine + [e]) == e;
      BySourceAppend(v, b, src);
      RunAppend(d, NEW_METRIC, BySource(v, src), mine);
    } else {
      assert BySource(b, src) + [] == BySource(b, src);
    }
  }

  // One more event adds its detection to its own entity's share, once.
  lemma {:induction false} GroupedSnoc(d: Detector, v: seq<Event>, b: seq<Event>, e: Event, order: seq<nat>)
    requires d.Valid() && Distinct(order)
    ensures var found := Listed(d.Step(StateAfter(d, BySource(v + b, e.src)), e).detection);
      multiset(GroupedDetections(d, v, b + [e], order))
      == multiset(GroupedDetections(d, v, b, order)) + if e.src in order then multiset(found) else multiset{}
  {
    hide StateAfter, Detector.Step, Listed, BySource, EntityDetections;
    if order != [] {
      FrontLast(order);
      GroupedSnoc(d, v, b, e, Front(order));
      EntitySnoc(d, v, b, e, Last(order));
      var found := Listed(d.Step(StateAfter(d, BySource(v + b, e.src)), e).detection);
      var old_, new_ := EntityDetections(d, v, b, Last(order)), EntityDetections(d, v, b + [e], Last(order));
      assert multiset(new_) == multiset(old_) + if Last(order) == e.src then multiset(found) else multiset{};
      if Last(order) == e.src {
        assert e.src !in Front(order);
      }
    }
  }

  lemma {:induction false} GroupedIsEmitted(d: Detector, v: seq<Event>, b: seq<Event>, order: seq<nat>)
    requires d.Valid() && Distinct(order)
    requires forall e :: e in b ==> e.src in order
    ensures multiset(GroupedDetections(d, v, b, order)) == multiset(Emitted(d, v, b))
  {
    if b == [] {
      NothingGrouped(d, v, order);
    } else {
      FrontLast(b);
      GroupedIsEmitted(d, v, Front(b), order);
      GroupedSnoc(d, v, Front(b), Last(b), order);
    }
  }

  lemma {:induction false} NothingGrouped(d: Detector, v: seq<Event>, order: seq<nat>)
    requires d.Valid()
    ensures GroupedDetections(d, v, [], order) == []
  {
    if order != [] {
      NothingGrouped(d, v, Front(order));
    }
  }

  // What processing a batch in entity order leaves in the metric table and returns.
  lemma {:induction false} ProcessIsFold(d: Detector, metrics: map<MetricKey, Metric>, v: seq<Event>, b: seq<Event>,
                                         order: seq<nat>)
    requires d.Valid() && Distinct(order)
    requires forall src :: Load(d, metrics, src) == StateAfter(d, BySource(v, src))
    ensures var p := ProcessOver(d, metrics, b, order);
      && p.detections == GroupedDetections(d, v, b, order)
      && (forall src :: Load(d, p.metrics, src)
                        == StateAfter(d, if src in order then BySource(v + b, src) else BySource(v, src)))
      && (forall other: Detector, src :: other.Name() != d.Name() ==>
            Load(other, p.metrics, src) == Load(other, metrics, src))
  {
    hide BySource, RunFrom;
    if order != [] {
      FrontLast(order);
      ProcessIsFold(d, metrics, v, b, Front(order));
      var src := Last(order);
      BySourceAppend(v, b, src);
      RunAppend(d, NEW_METRIC, BySource(v, src), BySource(b, src));
    }
  }

  lemma {:induction false} SourceListed(evs: seq<Event>, e: Event)
    requires e in evs
    ensures e.src in Sources(evs)
  {
    FrontLast(evs);
    if e != Last(evs) {
      SourceListed(Front(evs), e);
    }
  }

  lemma BatchOfOne(d: Detector, metrics: map<MetricKey, Metric>, v: seq<Event>, b: seq<Event>)
    requires d.Valid()
    requires forall src :: Load(d, metrics, src) == StateAfter(d, BySource(v, src))
    ensures var p := ProcessOver(d, metrics, b, SortedSources(b));
      && multiset(p.detections) == multiset(Emitted(d, v, b))
      && (forall src :: Load(d, p.metrics, src) == StateAfter(d, BySource(v + b, src)))
      && (forall other: Detector, src :: other.Name() != d.Name() ==>
            Load(other, p.metrics, src) == Load(other, metrics, src))
  {
    SortedSourcesProperties(b);
    ProcessIsFold(d, metrics, v, b, SortedSources(b));
    forall e | e in b
      ensures e.src in SortedSources(b)
    {
      SourceListed(b, e);
    }
    GroupedIsEmitted(d, v, b, SortedSources(b));
    var p := ProcessOver(d, metrics, b, SortedSources(b));
    forall src
      ensures Load(d, p.metrics, src) == StateAfter(d, BySource(v + b, src))
    {
      if src !in SortedSources(b) {
        BySourceAppend(v, b, src);
        assert BySource(v, src) + [] == BySource(v, src);
      }
    }
  }

  lemma {:induction false} BatchOfAll(ds: seq<Detector>, metrics: map<MetricKey, Metric>, v: seq<Event>, b: seq<Event>)
    requires ValidRegistry(ds)
    requires forall d, src :: d in ds ==> Load(d, metrics, src) == StateAfter(d, BySource(v, src))
    ensures var p := ProcessAll(ds, metrics, b);
      && multiset(p.detections) == AllEmitted(ds, v, b)
      && (forall d, src :: d in ds ==> Load(d, p.metrics, src) == StateAfter(d, BySource(v + b, src)))
      && (forall other: Detector, src :: (forall d :: d in ds ==> d.Name() != other.Name())
                                         ==> Load(other, p.metrics, src) == Load(other, metrics, src))
  {
    hide Load, StateAfter, BySource, ProcessOver, Emitted, SortedSources;
    if ds != [] {
      FrontLast(ds);
      BatchOfAll(Front(ds), metrics, v, b);
      var p := ProcessAll(Front(ds), metrics, b);
      var d := Last(ds);
      assert d.Valid();
      forall src
        ensures Load(d, p.metrics, src) == StateAfter(d, BySource(v, src))
      {
        assert Load(d, p.metrics, src) == Load(d, metrics, src);
      }
      BatchOfOne(d, p.metrics, v, b);
    }
  }

  lemma {:induction false} EmittedAppend(d: Detector, v: seq<Event>, b: seq<Event>)
    requires d.Valid()
    ensures Emitted(d, [], v + b) == Emitted(d, [], v) + Emitted(d, v, b)
  {
    if b == [] {
      EmptyParts(v);
      EmptyParts(Emitted(d, [], v));
    } else {
      hide StateAfter, Detector.Step, BySource, Listed, Emitted;
      var f, e := Front(b), Last(b);
      FrontLast(b);
      EmittedAppend(d, v, f);
      EmittedSnoc(d, [], v + f, e);
      EmittedSnoc(d, v, f, e);
      Associative(v, f, [e]);
      EmptyParts(v + f);
      var more := Listed(d.Step(StateAfter(d, BySource(v + f, e.src)), e).detection);
      Associative(Emitted(d, [], v), Emitted(d, v, f), more);
    }
  }

  lemma EmittedSnoc(d: Detector, v: seq<Event>, b: seq<Event>, e: Event)
    requires d.Valid()
    ensures Emitted(d, v, b + [e])
         == Emitted(d, v, b) + Listed(d.Step(StateAfter(d, BySource(v + b, e.src)), e).detection)
  {
    hide StateAfter, Detector.Step, BySource, Listed;
    Snoc(b, e);
  }

  lemma {:induction false} AllEmittedAppend(ds: seq<Detector>, v: seq<Event>, b: seq<Event>)
    requires forall d :: d in ds ==> d.Valid()
    ensures AllEmitted(ds, [], v + b) == AllEmitted(ds, [], v) + AllEmitted(ds, v, b)
  {
    if ds != [] {
      FrontLast(ds);
      AllEmittedAppend(Front(ds), v, b);
      assert Last(ds).Valid();
      EmittedAppend(Last(ds), v, b);
    }
  }

  // ---- the conflict branch of the insert is never taken -----------------------------------

  ghost predicate IncreasingIds(evs: seq<Event>) {
    forall i, j :: 0 <= i < j < |evs| ==> evs[i].id < evs[j].id
  }

  ghost predicate DistinctKeys(ds: seq<Detection>) {
    forall i, j :: 0 <= i < j < |ds| ==> KeyOf(ds[i]) != KeyOf(ds[j])
  }

  ghost predicate UniqueKeys(m: multiset<Detection>) {
    forall x, y :: x in m && y in m && KeyOf(x) == KeyOf(y) ==> x == y && m[x] == 1
  }

  // Every detection carries the id of its event and its detector's own name.
  lemma StepKeys(d: Detector, m: Metric, e: Event)
    requires d.Valid()
    ensures var o := d.Step(m, e).detection;
      o.Some? ==> o.value.eventId == e.id && o.value.detector == d.Name()
  {
  }

  ghost predicate FromBatch(x: Detection, d: Detector, b: seq<Event>) {
    x.detector == d.Name() && exists i :: 0 <= i < |b| && b[i].id == x.eventId
  }

  lemma {:induction false} EmittedKeys(d: Detector, v: seq<Event>, b: seq<Event>)
    requires d.Valid() && IncreasingIds(b)
    ensures forall x :: x in Emitted(d, v, b) ==> FromBatch(x, d, b)
    ensures DistinctKeys(Emitted(d, v, b))
  {
    hide StateAfter, Detector.Step, BySource, Detector.Name;
    if b != [] {
      var f, e := Front(b), Last(b);
      EmittedKeys(d, v, f);
      StepKeys(d, StateAfter(d, BySource(v + f, e.src)), e);
      assert b[|b| - 1].id == e.id;
      forall x | x in Emitted(d, v, f)
        ensures x.eventId < e.id && FromBatch(x, d, b)
      {
        var i :| 0 <= i < |f| && f[i].id == x.eventId;
        assert b[i].id == x.eventId;
      }
    }
  }

  lemma UniqueFromDistinct(s: seq<Detection>)
    requires DistinctKeys(s)
    ensures UniqueKeys(multiset(s))
  {
    assert Distinct(s);
    DistinctMultiplicity(s);
    forall x, y | x in multiset(s) && y in multiset(s) && KeyOf(x) == KeyOf(y)
      ensures x == y && multiset(s)[x] == 1
    {
      var i :| 0 <= i < |s| && s[i] == x;
      var j :| 0 <= j < |s| && s[j] == y;
    }
  }

  lemma DistinctFromUnique(s: seq<Detection>)
    requires UniqueKeys(multiset(s))
    ensures DistinctKeys(s)
  {
    forall i, j | 0 <= i < j < |s| && KeyOf(s[i]) == KeyOf(s[j])
      ensures false
    {
      assert s[i] in multiset(s) && s[j] in multiset(s);
      CountTwice(s, i, j);
    }
  }

  lemma UniqueSum(a: multiset<Detection>, b: multiset<Detection>, name: string)
    requires UniqueKeys(a) && UniqueKeys(b)
    requires forall x :: x in a ==> x.detector != name
    requires forall x :: x in b ==> x.detector == name
    ensures UniqueKeys(a + b)
  {
    forall x, y | x in a + b && y in a + b && KeyOf(x) == KeyOf(y)
      ensures x == y && (a + b)[x] == 1
    {
      if x in a {
        assert x !in b && y in a;
      } else {
        assert x in b && y in b;
      }
    }
  }

  ghost predicate NamedBy(x: Detection, ds: seq<Detector>) {
    exists d :: d in ds && d.Name() == x.detector
  }

  lemma {:induction false} AllEmittedUnique(ds: seq<Detector>, evs: seq<Event>)
    requires ValidRegistry(ds) && IncreasingIds(evs)
    ensures UniqueKeys(AllEmitted(ds, [], evs))
    ensures forall x :: x in AllEmitted(ds, [], evs) ==> NamedBy(x, ds)
  {
    hide Emitted, Detector.Name, UniqueKeys;
    if ds == [] {
      EmptyUnique();
    } else {
      FrontLast(ds);
      AllEmittedUnique(Front(ds), evs);
      var d := Last(ds);
      assert d in ds;
      EmittedKeys(d, [], evs);
      UniqueFromDistinct(Emitted(d, [], evs));
      var a, b := AllEmitted(Front(ds), [], evs), multiset(Emitted(d, [], evs));
      forall x | x in a
        ensures x.detector != d.Name() && NamedBy(x, ds)
      {
        var o :| o in Front(ds) && o.Name() == x.detector;
        assert o in ds;
      }
      forall x | x in b
        ensures x.detector == d.Name() && NamedBy(x, ds)
      {
        assert x in Emitted(d, [], evs);
      }
      UniqueSum(a, b, d.Name());
    }
  }

  lemma EmptyUnique()
    ensures UniqueKeys(multiset{})
  {
  }

  lemma {:induction false} RecordAll(table: seq<Detection>, dets: seq<Detection>)
    requires DistinctKeys(table + dets)
    ensures Record(table, dets) == table + dets
  {
    if dets != [] {
      FrontLast(dets);
      var all := table + dets;
      assert table + Front(dets) == Front(all) && Last(all) == Last(dets);
      RecordAll(table, Front(dets));
    }
  }

  // ---- the cursor splits the event table ---------------------------------------------------

  lemma {:induction false} MaxIdIsLast(evs: seq<Event>)
    requires IncreasingIds(evs)
    ensures MaxId(evs) == if evs == [] then 0 else Last(evs).id
  {
    if evs != [] {
      MaxIdIsLast(Front(evs));
      if Front(evs) != [] {
        assert Last(Front(evs)) == evs[|evs| - 2];
      }
    }
  }

  lemma {:induction false} VisiblePrefix(evs: seq<Event>, n: nat, cursor: nat)
    requires n <= |evs| && forall i :: 0 <= i < |evs| ==> (i < n <==> evs[i].id <= cursor)
    ensures Visible(evs, cursor) == evs[..n]
  {
    if n == |evs| > 0 {
      VisiblePrefix(Front(evs), n - 1, cursor);
      assert evs[..n] == Front(evs)[..n - 1] + [Last(evs)];
    } else if evs != [] {
      VisiblePrefix(Front(evs), n, cursor);
      assert evs[..n] == Front(evs)[..n] + [];
    }
  }

  lemma {:induction false} PendingSuffix(evs: seq<Event>, n: nat, cursor: nat)
    requires n <= |evs| && forall i :: 0 <= i < |evs| ==> (i < n <==> evs[i].id <= cursor)
    ensures Pending(evs, cursor) == evs[n..]
  {
    if n == |evs| > 0 {
      PendingSuffix(Front(evs), n - 1, cursor);
      assert evs[n..] == Front(evs)[n - 1..] + [];
    } else if evs != [] {
      PendingSuffix(Front(evs), n, cursor);
      assert evs[n..] == Front(evs)[n..] + [Last(evs)];
    }
  }

  // The events with id at most the cursor are the first n of the table.
  ghost predicate CursorAt(db: Db, n: nat) {
    && IncreasingIds(db.events) && n <= |db.events|
    && (forall i :: 0 <= i < |db.events| ==> db.events[i].id > 0)
    && db.cursor == if n == 0 then 0 else db.events[n - 1].id
  }

  // With increasing ids the consumed events are a prefix and the pending ones the rest.
  lemma CursorView(db: Db, n: nat)
    requires CursorAt(db, n)
    ensures Visible(db.events, db.cursor) == db.events[..n] && Pending(db.events, db.cursor) == db.events[n..]
  {
    VisiblePrefix(db.events, n, db.cursor);
    PendingSuffix(db.events, n, db.cursor);
  }

  // The position of the cursor after a tick, and the batch it consumes.
  lemma TickAdvances(ds: seq<Detector>, limit: nat, db: Db, n: nat) returns (n': nat)
    requires ValidRegistry(ds) && CursorAt(db, n)
    ensures n <= n' <= |db.events| && Limit(Pending(db.events, db.cursor), limit) == db.events[n..n']
    ensures CursorAt(TickDb(ds, limit, db), n')
  {
    hide ProcessAll, Record, Visible, Pending;
    CursorView(db, n);
    var views := Limit(db.events[n..], limit);
    n' := n + |views|;
    assert views == db.events[n..n'];
    if views != [] {
      MaxIdIsLast(views);
      assert Last(views) == db.events[n' - 1];
    }
  }

  // The effect of a tick on the rows: everything the detectors emit is inserted.
  lemma TickInserts(ds: seq<Detector>, limit: nat, db: Db, n: nat, n': nat)
    requires ValidRegistry(ds) && CursorAt(db, n) && IsOneFold(ds, db)
    requires n < n' <= |db.events| && Limit(Pending(db.events, db.cursor), limit) == db.events[n..n']
    ensures var db', v, b := TickDb(ds, limit, db), db.events[..n], db.events[n..n'];
      && db'.detections == db.detections + ProcessAll(ds, db.metrics, b).detections
      && multiset(db'.detections) == AllEmitted(ds, [], v + b)
      && (forall d, src :: d in ds ==> Load(d, db'.metrics, src) == StateAfter(d, BySource(v + b, src)))
  {
    hide Load, StateAfter, BySource, Emitted, AllEmitted, ProcessAll, Record, Visible, Pending, MaxId;
    var v, b := db.events[..n], db.events[n..n'];
    CursorView(db, n);
    assert v + b == db.events[..n'];
    BatchOfAll(ds, db.metrics, v, b);
    AllEmittedAppend(ds, v, b);
    AllEmittedUnique(ds, v + b);
    var dets := ProcessAll(ds, db.metrics, b).detections;
    MultisetOfBoth(db.detections, dets);
    DistinctFromUnique(db.detections + dets);
    RecordAll(db.detections, dets);
  }

  lemma TickKeepsFold(ds: seq<Detector>, limit: nat, db: Db, n: nat) returns (n': nat)
    requires ValidRegistry(ds) && CursorAt(db, n) && IsOneFold(ds, db)
    ensures n <= n' <= |db.events| && Limit(Pending(db.events, db.cursor), limit) == db.events[n..n']
    ensures var db' := TickDb(ds, limit, db);
      && CursorAt(db', n') && IsOneFold(ds, db')
      && db'.detections == db.detections + ProcessAll(ds, db.metrics, db.events[n..n']).detections
  {
    hide Load, StateAfter, BySource, Emitted, AllEmitted, ProcessAll, Record, Visible, Pending, MaxId;
    n' := TickAdvances(ds, limit, db, n);
    if n < n' {
      TickInserts(ds, limit, db, n, n');
      CursorView(TickDb(ds, limit, db), n');
      assert db.events[..n'] == db.events[..n] + db.events[n..n'];
    } else {
      assert db.events[n..n'] == [];
      NothingToProcess(ds, db.metrics);
      assert db.detections + [] == db.detections;
    }
  }

  // In every run a committed tick consumes the next events, as many as the batch allows, and no others.
  lemma TickConsumes(ds: seq<Detector>, actions: seq<Action>, limit: nat)
    requires ValidRegistry(ds)
    ensures var db := RunActions(ds, actions);
      var after := TickDb(ds, limit, db);
      var n := |Visible(db.events, db.cursor)|;
      var m := if |db.events| - n <= limit then |db.events| else n + limit;
      && n <= |db.events| && after.events == db.events
      && Visible(db.events, db.cursor) == db.events[..n] && Visible(after.events, after.cursor) == db.events[..m]
      && after.cursor == (if m == 0 then 0 else db.events[m - 1].id)
  {
    hide RunActions, TickDb, IsOneFold, Visible, Pending;
    var db := RunActions(ds, actions);
    var n := EveryRunIsOneFold(ds, actions);
    var m := TickKeepsFold(ds, limit, db, n);
    TickFrame(ds, limit, db);
    CursorView(db, n);
    CursorView(TickDb(ds, limit, db), m);
  }

  lemma TickFrame(ds: seq<Detector>, limit: nat, db: Db)
    requires forall d :: d in ds ==> d.Valid()
    ensures TickDb(ds, limit, db).events == db.events
  {
    hide ProcessAll, Record, Pending, MaxId;
  }

  lemma MultisetOfBoth<T>(a: seq<T>, b: seq<T>)
    ensures multiset(a + b) == multiset(a) + multiset(b)
  {
  }

  lemma ArriveKeepsFold(ds: seq<Detector>, db: Db, n: nat, e: Event)
    requires ValidRegistry(ds) && CursorAt(db, n) && IsOneFold(ds, db) && e.id > MaxId(db.events)
    ensures CursorAt(db.(events := db.events + [e]), n) && IsOneFold(ds, db.(events := db.events + [e]))
  {
    hide Load, StateAfter, BySource, Emitted, AllEmitted, Visible, Pending, MaxId, IsOneFold, CursorAt;
    var db' := db.(events := db.events + [e]);
    ArriveKeepsCursor(db, n, e);
    CursorView(db, n);
    CursorView(db', n);
    SameConsumed(ds, db, db');
  }

  lemma ArriveKeepsCursor(db: Db, n: nat, e: Event)
    requires CursorAt(db, n) && e.id > MaxId(db.events)
    ensures CursorAt(db.(events := db.events + [e]), n)
    ensures n <= |db.events| && (db.events + [e])[..n] == db.events[..n]
  {
    hide MaxId;
    MaxIdIsLast(db.events);
  }

  lemma SameConsumed(ds: seq<Detector>, db: Db, db': Db)
    requires ValidRegistry(ds) && IsOneFold(ds, db)
    requires db'.metrics == db.metrics && db'.detections == db.detections
    requires Visible(db'.events, db'.cursor) == Visible(db.events, db.cursor)
    ensures IsOneFold(ds, db')
  {
    hide Load, StateAfter, BySource, AllEmitted, Visible;
  }

  // In every reachable state, for every batching and every pattern of aborted ticks, the
  // committed tables equal one fold of each detector over the events up to the cursor.
  lemma {:induction false} EveryRunIsOneFold(ds: seq<Detector>, actions: seq<Action>) returns (n: nat)
    requires ValidRegistry(ds)
    ensures CursorAt(RunActions(ds, actions), n)
    ensures IsOneFold(ds, RunActions(ds, actions))
  {
    if actions == [] {
      n := 0;
      EmptyIsOneFold(ds);
    } else {
      n := EveryRunIsOneFold(ds, Front(actions));
      var db := RunActions(ds, Front(actions));
      match Last(actions) {
        case Arrive(e) =>
          if e.id > MaxId(db.events) {
            ArriveKeepsFold(ds, db, n, e);
          }
        case Tick(limit, commits) =>
          if commits {
            n := TickKeepsFold(ds, limit, db, n);
          }
      }
    }
  }

  lemma {:induction false} EmptyIsOneFold(ds: seq<Detector>)
    requires forall d :: d in ds ==> d.Valid()
    ensures IsOneFold(ds, EMPTY_DB)
  {
    if ds != [] {
      FrontLast(ds);
      EmptyIsOneFold(Front(ds));
      assert Last(ds).Valid();
      assert Emitted(Last(ds), [], []) == [];
      assert Visible([], 0) == [];
    }
  }

  // In every reachable state the next tick inserts every detection it emits: the uniqueness
  // constraint never has to absorb a duplicate.
  lemma NoConflicts(ds: seq<Detector>, actions: seq<Action>, limit: nat)
    requires ValidRegistry(ds)
    ensures var db := RunActions(ds, actions);
      var views := Limit(Pending(db.events, db.cursor), limit);
      TickDb(ds, limit, db).detections == db.detections + ProcessAll(ds, db.metrics, views).detections
  {
    var n := EveryRunIsOneFold(ds, actions);
    var n' := TickKeepsFold(ds, limit, RunActions(ds, actions), n);
  }

  lemma {:induction false} NothingToProcess(ds: seq<Detector>, metrics: map<MetricKey, Metric>)
    requires forall d :: d in ds ==> d.Valid()
    ensures ProcessAll(ds, metrics, []) == Processed(metrics, [])
  {
    if ds != [] {
      FrontLast(ds);
      NothingToProcess(Front(ds), metrics);
      assert Last(ds).Valid();
      assert SortedSources([]) == [];
    }
  }

  // ---- the committed rows, entity by entity --------------------------------------------------

  ghost function ExpectedOver(d: Detector, evs: seq<Event>, order: seq<nat>): seq<Detection>
    requires d.Valid()
  {
    if order == [] then []
    else ExpectedOver(d, evs, Front(order)) + ExpectedAll(d, BySource(evs, Last(order)))
  }

  ghost function ExpectedRows(ds: seq<Detector>, evs: seq<Event>): multiset<Detection>
    requires forall d :: d in ds ==> d.Valid()
  {
    if ds == [] then multiset{}
    else ExpectedRows(Front(ds), evs) + multiset(ExpectedOver(Last(ds), evs, SortedSources(evs)))
  }

  lemma {:induction false} GroupedIsExpected(d: Detector, evs: seq<Event>, order: seq<nat>)
    requires d.Valid()
    ensures GroupedDetections(d, [], evs, order) == ExpectedOver(d, evs, order)
  {
    if order != [] {
      GroupedIsExpected(d, evs, Front(order));
      assert BySource([], Last(order)) == [];
      StreamingRefines(d, BySource(evs, Last(order)));
    }
  }

  lemma {:induction false} EmittedIsExpected(ds: seq<Detector>, evs: seq<Event>)
    requires forall d :: d in ds ==> d.Valid()
    ensures AllEmitted(ds, [], evs) == ExpectedRows(ds, evs)
  {
    if ds != [] {
      var d := Last(ds);
      FrontLast(ds);
      EmittedIsExpected(Front(ds), evs);
      assert d.Valid();
      SortedSourcesProperties(evs);
      forall e | e in evs
        ensures e.src in SortedSources(evs)
      {
        SourceListed(evs, e);
      }
      GroupedIsEmitted(d, [], evs, SortedSources(evs));
      GroupedIsExpected(d, evs, SortedSources(evs));
    }
  }

  // After any run the detection table holds exactly what the declarative reading of every
  // entity's consumed events asks of every detector.
  lemma CommittedRowsAreExpected(ds: seq<Detector>, actions: seq<Action>)
    requires ValidRegistry(ds)
    ensures var db := RunActions(ds, actions);
      multiset(db.detections) == ExpectedRows(ds, Visible(db.events, db.cursor))
  {
    var n := EveryRunIsOneFold(ds, actions);
    var db := RunActions(ds, actions);
    EmittedIsExpected(ds, Visible(db.events, db.cursor));
  }
}
