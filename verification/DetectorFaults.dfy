/**
 One bad detector does not stall the stream: in every run, whatever the others do, a detector that
 never raises finds and saves what it would in the run in which none does.
 */
module DetectorFaults {
  import opened Common
  import opened DetectorBase
  import opened DetectionWorker
  import opened DetectionRuns
  import opened CommittedReports

  datatype FaultyAction = Arriving(e: Event) | Ticking(limit: nat, commits: bool, faults: map<nat, nat>)

  function RunFaulty(ds: seq<Detector>, actions: seq<FaultyAction>): Db
    requires forall d :: d in ds ==> d.Valid()
  {
    if actions == [] then EMPTY_DB
    else
      var db := RunFaulty(ds, Front(actions));
      match Last(actions)
      case Arriving(e) => if e.id > MaxId(db.events) then db.(events := db.events + [e]) else db
      case Ticking(limit, commits, faults) => if commits then TickFaulty(ds, limit, db, faults) else db
  }

  function WithoutFault(a: FaultyAction): Action {
    match a
    case Arriving(e) => Arrive(e)
    case Ticking(limit, commits, _) => Tick(limit, commits)
  }

  // The same run with no detector raising.
  function WithoutFaults(actions: seq<FaultyAction>): seq<Action> {
    if actions == [] then [] else WithoutFaults(Front(actions)) + [WithoutFault(Last(actions))]
  }

  // Detector i never raises.
  ghost predicate Spared(actions: seq<FaultyAction>, i: nat) {
    forall k :: 0 <= k < |actions| && actions[k].Ticking? ==> i !in actions[k].faults
  }

  // ---- the rows of one detector ----------------------------------------------------------------

  function RowsOf(rows: seq<Detection>, name: string): seq<Detection> {
    if rows == [] then []
    else RowsOf(Front(rows), name) + if Last(rows).detector == name then [Last(rows)] else []
  }

  lemma RowsOfSnoc(rows: seq<Detection>, r: Detection, name: string)
    ensures RowsOf(rows + [r], name) == RowsOf(rows, name) + if r.detector == name then [r] else []
  {
    Snoc(rows, r);
  }

  lemma {:induction false} RowsOfAppend(a: seq<Detection>, b: seq<Detection>, name: string)
    ensures RowsOf(a + b, name) == RowsOf(a, name) + RowsOf(b, name)
  {
    if b == [] {
      assert a + b == a;
    } else {
      hide RowsOf;
      var f, l := Front(b), Last(b);
      FrontLast(b);
      RowsOfAppend(a, f, name);
      RowsOfSnoc(a + f, l, name);
      RowsOfSnoc(f, l, name);
      assert a + b == (a + f) + [l];
    }
  }

  lemma {:induction false} RowsOfOthers(rows: seq<Detection>, own: string, src: nat, name: string)
    requires AllOwn(rows, own, src) && own != name
    ensures RowsOf(rows, name) == []
  {
    if rows != [] {
      RowsOfOthers(Front(rows), own, src, name);
    }
  }

  lemma {:induction false} OwnRowsOfRows(rows: seq<Detection>, name: string, src: nat)
    ensures OwnRows(rows, name, src) == OwnRows(RowsOf(rows, name), name, src)
  {
    if rows != [] {
      hide RowsOf, OwnRows;
      var f, l := Front(rows), Last(rows);
      var own := RowsOf(f, name);
      FrontLast(rows);
      OwnRowsOfRows(f, name, src);
      RowsOfSnoc(f, l, name);
      OwnRowsSnoc(f, l, name, src);
      OwnRowsSnoc(own, l, name, src);
      assert own + [] == own && OwnRows(own, name, src) + [] == OwnRows(own, name, src);
    }
  }

  // The uniqueness constraint works detector by detector.
  ghost predicate HasKey(rows: seq<Detection>, key: DetectionKey) {
    exists i :: 0 <= i < |rows| && KeyOf(rows[i]) == key
  }

  lemma {:induction false} KeyInRows(rows: seq<Detection>, key: DetectionKey)
    ensures HasKey(RowsOf(rows, key.detector), key) <==> HasKey(rows, key)
  {
    if rows != [] {
      var f, l := Front(rows), Last(rows);
      var own := RowsOf(f, key.detector);
      KeyInRows(f, key);
      FrontLast(rows);
      HasKeySnoc(f, l, key);
      HasKeySnoc(own, l, key);
      assert own + [] == own;
    }
  }

  lemma HasKeySnoc(rows: seq<Detection>, r: Detection, key: DetectionKey)
    ensures HasKey(rows + [r], key) <==> HasKey(rows, key) || KeyOf(r) == key
  {
    var all := rows + [r];
    assert all[|rows|] == r;
    if HasKey(rows, key) {
      var i :| 0 <= i < |rows| && KeyOf(rows[i]) == key;
      assert KeyOf(all[i]) == key;
    }
  }

  lemma RecordSnoc(table: seq<Detection>, dets: seq<Detection>, d: Detection)
    ensures var t := Record(table, dets);
      Record(table, dets + [d]) == if HasKey(t, KeyOf(d)) then t else t + [d]
  {
    Snoc(dets, d);
  }

  lemma {:induction false} RecordRows(table: seq<Detection>, dets: seq<Detection>, name: string)
    ensures RowsOf(Record(table, dets), name) == Record(RowsOf(table, name), RowsOf(dets, name))
  {
    if dets != [] {
      var f, l := Front(dets), Last(dets);
      RecordRows(table, f, name);
      NextRecord(table, f, l, name);
      FrontLast(dets);
    }
  }

  lemma NextRecord(table: seq<Detection>, f: seq<Detection>, l: Detection, name: string)
    requires RowsOf(Record(table, f), name) == Record(RowsOf(table, name), RowsOf(f, name))
    ensures RowsOf(Record(table, f + [l]), name) == Record(RowsOf(table, name), RowsOf(f + [l], name))
  {
    hide Record, RowsOf, HasKey;
    RecordSnoc(table, f, l);
    RowsOfSnoc(f, l, name);
    RowsOfSnoc(Record(table, f), l, name);
    if l.detector == name {
      RecordSnoc(RowsOf(table, name), RowsOf(f, name), l);
      KeyInRows(Record(table, f), KeyOf(l));
    } else {
      assert RowsOf(f, name) + [] == RowsOf(f, name);
      assert RowsOf(Record(table, f), name) + [] == RowsOf(Record(table, f), name);
    }
  }

  // ---- one batch -----------------------------------------------------------------------------

  // Two tables of metrics in which detector d finds the same state for every entity.
  ghost predicate SameStates(d: Detector, a: map<MetricKey, Metric>, b: map<MetricKey, Metric>) {
    forall src :: Load(d, a, src) == Load(d, b, src)
  }

  lemma {:induction false} SameFold(d: Detector, a: map<MetricKey, Metric>, b: map<MetricKey, Metric>, evs: seq<Event>,
                                    order: seq<nat>)
    requires d.Valid() && SameStates(d, a, b)
    ensures ProcessOver(d, a, evs, order).detections == ProcessOver(d, b, evs, order).detections
    ensures SameStates(d, ProcessOver(d, a, evs, order).metrics, ProcessOver(d, b, evs, order).metrics)
  {
    hide RunFrom;
    if order != [] {
      SameFold(d, a, b, evs, Front(order));
      var p, q := ProcessOver(d, a, evs, Front(order)), ProcessOver(d, b, evs, Front(order));
      var src := Last(order);
      var m := Load(d, p.metrics, src);
      assert m == Load(d, q.metrics, src);
      SavedAlike(d, p.metrics, q.metrics, src, RunFrom(d, m, BySource(evs, src)).metric);
    }
  }

  lemma SavedAlike(d: Detector, a: map<MetricKey, Metric>, b: map<MetricKey, Metric>, src: nat, m: Metric)
    requires SameStates(d, a, b)
    ensures SameStates(d, a[MetricKey(src, d.Name()) := m], b[MetricKey(src, d.Name()) := m])
  {
    var a', b' := a[MetricKey(src, d.Name()) := m], b[MetricKey(src, d.Name()) := m];
    forall s
      ensures Load(d, a', s) == Load(d, b', s)
    {
      assert Load(d, a, s) == Load(d, b, s);
    }
  }

  lemma {:induction false} OtherFold(l: Detector, metrics: map<MetricKey, Metric>, evs: seq<Event>, order: seq<nat>,
                                     d: Detector)
    requires l.Valid() && l.Name() != d.Name()
    ensures SameStates(d, ProcessOver(l, metrics, evs, order).metrics, metrics)
    ensures RowsOf(ProcessOver(l, metrics, evs, order).detections, d.Name()) == []
  {
    hide RunFrom, BySource, RowsOf;
    if order == [] {
      assert RowsOf([], d.Name()) == [] by { RowsOfOthers([], l.Name(), 0, d.Name()); }
    } else {
      var src, before := Last(order), ProcessOver(l, metrics, evs, Front(order));
      OtherFold(l, metrics, evs, Front(order), d);
      var m := Load(l, before.metrics, src);
      var found := RunFrom(l, m, BySource(evs, src)).detections;
      BySourceIsOwn(evs, src);
      RunWritesOwn(l, m, BySource(evs, src), src);
      RowsOfOthers(found, l.Name(), src, d.Name());
      RowsOfAppend(before.detections, found, d.Name());
    }
  }

  // Detector d stands at most once among the first ones, and does not raise.
  ghost predicate SparedIn(ds: seq<Detector>, faults: map<nat, nat>, d: Detector) {
    forall i :: 0 <= i < |ds| && ds[i].Name() == d.Name() ==> ds[i] == d && i !in faults
  }

  lemma NothingProcessed(ds: seq<Detector>, a: map<MetricKey, Metric>, b: map<MetricKey, Metric>, evs: seq<Event>,
                         faults: map<nat, nat>)
    ensures ds == [] ==>
      ProcessFaulty(ds, a, evs, faults) == Processed(a, []) && ProcessAll(ds, b, evs) == Processed(b, [])
  {
  }

  lemma AllNext(ds: seq<Detector>, metrics: map<MetricKey, Metric>, evs: seq<Event>)
    requires ds != [] && forall d :: d in ds ==> d.Valid()
    ensures var p := ProcessAll(Front(ds), metrics, evs);
      var q := ProcessOver(Last(ds), p.metrics, evs, SortedSources(evs));
      ProcessAll(ds, metrics, evs) == Processed(q.metrics, p.detections + q.detections)
  {
    hide ProcessOver;
  }

  // Others that raise change nothing for d.
  lemma {:induction false} BatchIsIsolated(ds: seq<Detector>, a: map<MetricKey, Metric>, b: map<MetricKey, Metric>,
                                           evs: seq<Event>, faults: map<nat, nat>, d: Detector)
    requires (forall x :: x in ds ==> x.Valid()) && d.Valid() && SparedIn(ds, faults, d) && SameStates(d, a, b)
    ensures var p, q := ProcessFaulty(ds, a, evs, faults), ProcessAll(ds, b, evs);
      SameStates(d, p.metrics, q.metrics) && RowsOf(p.detections, d.Name()) == RowsOf(q.detections, d.Name())
  {
    hide ProcessFaulty, ProcessAll, ProcessOver, RowsOf, SameStates, Reached, SortedSources;
    NothingProcessed(ds, a, b, evs, faults);
    if ds != [] {
      var f, l := Front(ds), Last(ds);
      FrontLast(ds);
      assert ds[..|f|] == f && ds[..|f| + 1] == ds && l == ds[|f|];
      FaultyNext(ds, a, evs, faults, |f|);
      AllNext(ds, b, evs);
      assert SparedIn(f, faults, d);
      BatchIsIsolated(f, a, b, evs, faults, d);
      TurnIsIsolated(l, ProcessFaulty(f, a, evs, faults), ProcessAll(f, b, evs), evs,
                     if |f| in faults then Some(faults[|f|]) else None, d);
    }
  }

  // One more detector has its turn: d itself, which does not raise, or another.
  lemma TurnIsIsolated(l: Detector, p: Processed, q: Processed, evs: seq<Event>, fault: Option<nat>, d: Detector)
    requires l.Valid() && (l.Name() == d.Name() ==> l == d && fault == None)
    requires SameStates(d, p.metrics, q.metrics) && RowsOf(p.detections, d.Name()) == RowsOf(q.detections, d.Name())
    ensures var p', q' := ProcessOver(l, p.metrics, evs, Reached(evs, fault)),
                          ProcessOver(l, q.metrics, evs, SortedSources(evs));
      && SameStates(d, p'.metrics, q'.metrics)
      && RowsOf(if fault.Some? then p.detections else p.detections + p'.detections, d.Name())
         == RowsOf(q.detections + q'.detections, d.Name())
  {
    hide ProcessOver, RowsOf, SameStates, SortedSources;
    var p', q' := ProcessOver(l, p.metrics, evs, Reached(evs, fault)),
                  ProcessOver(l, q.metrics, evs, SortedSources(evs));
    RowsOfAppend(p.detections, p'.detections, d.Name());
    RowsOfAppend(q.detections, q'.detections, d.Name());
    if l.Name() == d.Name() {
      SameFold(d, p.metrics, q.metrics, evs, SortedSources(evs));
    } else {
      OtherTurn(l, p.metrics, q.metrics, evs, Reached(evs, fault), SortedSources(evs), d);
    }
  }

  // Whatever another detector gets through, d finds the same states and no rows of its own.
  lemma OtherTurn(l: Detector, a: map<MetricKey, Metric>, b: map<MetricKey, Metric>, evs: seq<Event>, some: seq<nat>,
                  all: seq<nat>, d: Detector)
    requires l.Valid() && l.Name() != d.Name() && SameStates(d, a, b)
    ensures var p, q := ProcessOver(l, a, evs, some), ProcessOver(l, b, evs, all);
      && SameStates(d, p.metrics, q.metrics)
      && RowsOf(p.detections, d.Name()) == [] && RowsOf(q.detections, d.Name()) == []
  {
    hide ProcessOver, RowsOf, SameStates;
    OtherFold(l, a, evs, some, d);
    OtherFold(l, b, evs, all, d);
    StatesAlong(d, ProcessOver(l, a, evs, some).metrics, a, b, ProcessOver(l, b, evs, all).metrics);
  }

  lemma NoRowsOf(name: string)
    ensures RowsOf([], name) == []
  {
  }

  lemma StatesAlong(d: Detector, a: map<MetricKey, Metric>, b: map<MetricKey, Metric>, c: map<MetricKey, Metric>,
                    e: map<MetricKey, Metric>)
    requires SameStates(d, a, b) && SameStates(d, b, c) && SameStates(d, e, c)
    ensures SameStates(d, a, e)
  {
    hide Load;
  }

  // ---- what a raising detector leaves ----------------------------------------------------------

  // The entity is in the batch, and fewer than k other entities of the batch lie below it.
  ghost predicate AmongLowest(evs: seq<Event>, src: nat, k: nat) {
    (exists e :: e in evs && e.src == src) && |set e | e in evs && e.src < src :: e.src| < k
  }

  // The entities of a batch below one.
  ghost function SourcesBelow(evs: seq<Event>, src: nat): set<nat> {
    set e | e in evs && e.src < src :: e.src
  }

  lemma {:induction false} RankInOrder(order: seq<nat>, n: nat, s: set<nat>)
    requires n <= |order| && Distinct(order)
    requires forall x :: x in s <==> exists j :: 0 <= j < n && order[j] == x
    ensures |s| == n
  {
    if n == 0 {
      assert s == {};
    } else {
      var x := order[n - 1];
      assert x in s;
      RankInOrder(order, n - 1, s - {x});
    }
  }

  // Entities are taken in ascending order: one is among the first k when fewer than k lie below it.
  lemma ReachedIff(evs: seq<Event>, k: nat, src: nat)
    ensures src in Reached(evs, Some(k)) <==> src in SortedSources(evs) && |SourcesBelow(evs, src)| < k
    ensures Distinct(Reached(evs, Some(k)))
  {
    var order := SortedSources(evs);
    SortedSourcesProperties(evs);
    SortedProperties((a: nat, b: nat) => a <= b, Sources(evs));
    hide SortedSources, Sources;
    if src in order {
      var i :| 0 <= i < |order| && order[i] == src;
      forall x
        ensures x in SourcesBelow(evs, src) <==> exists j :: 0 <= j < i && order[j] == x
      {
        BelowIff(evs, order, i, x);
      }
      RankInOrder(order, i, SourcesBelow(evs, src));
    }
  }

  lemma BelowIff(evs: seq<Event>, order: seq<nat>, i: nat, x: nat)
    requires i < |order| && Distinct(order) && SortedBy((a: nat, b: nat) => a <= b, order)
    requires forall y :: y in order <==> BySource(evs, y) != []
    ensures x in SourcesBelow(evs, order[i]) <==> exists j :: 0 <= j < i && order[j] == x
  {
    HasSourceIff(evs, x);
    if x in SourcesBelow(evs, order[i]) {
      var j :| 0 <= j < |order| && order[j] == x;
      assert j < i;
    }
    if j :| 0 <= j < i && order[j] == x {
      assert order[j] in order && order[j] <= order[i] && order[j] != order[i];
    }
  }

  lemma {:induction false} HasSourceIff(evs: seq<Event>, src: nat)
    ensures BySource(evs, src) != [] <==> exists e :: e in evs && e.src == src
  {
    if evs != [] {
      FrontLast(evs);
      HasSourceIff(Front(evs), src);
    }
  }

  // What a fold over some entities saves: the run of each of them, and nothing else.
  lemma {:induction false} SavesEach(d: Detector, metrics: map<MetricKey, Metric>, evs: seq<Event>, order: seq<nat>,
                                     src: nat)
    requires d.Valid() && Distinct(order)
    ensures Load(d, ProcessOver(d, metrics, evs, order).metrics, src)
         == if src in order then RunFrom(d, Load(d, metrics, src), BySource(evs, src)).metric else Load(d, metrics, src)
  {
    hide RunFrom, BySource;
    if order != [] {
      FrontLast(order);
      SavesEach(d, metrics, evs, Front(order), src);
      SavesEach(d, metrics, evs, Front(order), Last(order));
    }
  }

  // A detector that raises after k entities of a batch has saved the states of the k lowest entities of
  // the batch, keeps those of the others, and adds no row.
  lemma {:induction false} RaisingSavesTheLowest(ds: seq<Detector>, metrics: map<MetricKey, Metric>, evs: seq<Event>,
                                                 faults: map<nat, nat>, i: nat, src: nat)
    requires ValidRegistry(ds) && i < |ds| && i in faults
    ensures var p := ProcessFaulty(ds, metrics, evs, faults);
      && Load(ds[i], p.metrics, src)
         == (if AmongLowest(evs, src, faults[i])
             then RunFrom(ds[i], Load(ds[i], metrics, src), BySource(evs, src)).metric
             else Load(ds[i], metrics, src))
      && RowsOf(p.detections, ds[i].Name()) == []
  {
    hide ProcessFaulty, ProcessOver, RowsOf, RunFrom, Load, Reached, BySource, SameStates, AmongLowest;
    var f, l, d := Front(ds), Last(ds), ds[i];
    FrontLast(ds);
    var n := |f|;
    var before := ProcessFaulty(f, metrics, evs, faults);
    var fault := if n in faults then Some(faults[n]) else None;
    var turn := ProcessOver(l, before.metrics, evs, Reached(evs, fault));
    FaultyNext(ds, metrics, evs, faults, n);
    assert ds[..n] == f && ds[..n + 1] == ds && l == ds[n];
    if i < n {
      RaisingSavesTheLowest(f, metrics, evs, faults, i, src);
      assert ds[i].Name() != ds[n].Name();
      OtherFold(l, before.metrics, evs, Reached(evs, fault), d);
      RowsOfAppend(before.detections, turn.detections, d.Name());
      StateOf(d, turn.metrics, before.metrics, src);
    } else {
      OthersBefore(f, metrics, evs, faults, d);
      SavesTheLowest(d, before.metrics, evs, faults[i], src);
      StateOf(d, before.metrics, metrics, src);
    }
  }

  lemma StateOf(d: Detector, a: map<MetricKey, Metric>, b: map<MetricKey, Metric>, src: nat)
    requires SameStates(d, a, b)
    ensures Load(d, a, src) == Load(d, b, src)
  {
  }

  lemma SavesTheLowest(d: Detector, metrics: map<MetricKey, Metric>, evs: seq<Event>, k: nat, src: nat)
    requires d.Valid()
    ensures Load(d, ProcessOver(d, metrics, evs, Reached(evs, Some(k))).metrics, src)
         == if AmongLowest(evs, src, k)
            then RunFrom(d, Load(d, metrics, src), BySource(evs, src)).metric else Load(d, metrics, src)
  {
    hide ProcessOver, RunFrom, Load, Reached, SortedSources, BySource;
    assert SourcesBelow(evs, src) == set e | e in evs && e.src < src :: e.src;
    ReachedIff(evs, k, src);
    SavesEach(d, metrics, evs, Reached(evs, Some(k)), src);
    SortedSourcesProperties(evs);
    HasSourceIff(evs, src);
  }

  lemma {:induction false} OthersBefore(ds: seq<Detector>, metrics: map<MetricKey, Metric>, evs: seq<Event>,
                                        faults: map<nat, nat>, d: Detector)
    requires forall x :: x in ds ==> x.Valid() && x.Name() != d.Name()
    ensures var p := ProcessFaulty(ds, metrics, evs, faults);
      SameStates(d, p.metrics, metrics) && RowsOf(p.detections, d.Name()) == []
  {
    hide ProcessOver, RowsOf, Load, Reached;
    NoRowsOf(d.Name());
    if ds != [] {
      var f, l := Front(ds), Last(ds);
      FrontLast(ds);
      OthersBefore(f, metrics, evs, faults, d);
      var before := ProcessFaulty(f, metrics, evs, faults);
      var fault := if |f| in faults then Some(faults[|f|]) else None;
      var turn := ProcessOver(l, before.metrics, evs, Reached(evs, fault));
      OtherFold(l, before.metrics, evs, Reached(evs, fault), d);
      RowsOfAppend(before.detections, if fault.Some? then [] else turn.detections, d.Name());
    }
  }

  // ---- every run -------------------------------------------------------------------------------

  // What detector d can tell apart of two databases.
  ghost predicate SameFor(d: Detector, a: Db, b: Db) {
    && a.events == b.events && a.cursor == b.cursor && SameStates(d, a.metrics, b.metrics)
    && RowsOf(a.detections, d.Name()) == RowsOf(b.detections, d.Name())
  }

  lemma TickIsIsolated(ds: seq<Detector>, limit: nat, a: Db, b: Db, faults: map<nat, nat>, d: Detector)
    requires (forall x :: x in ds ==> x.Valid()) && d.Valid() && SparedIn(ds, faults, d) && SameFor(d, a, b)
    ensures SameFor(d, TickFaulty(ds, limit, a, faults), TickDb(ds, limit, b))
  {
    hide ProcessFaulty, ProcessAll, Record, RowsOf, SameStates, Pending, MaxId;
    var views := Limit(Pending(a.events, a.cursor), limit);
    var p, q := ProcessFaulty(ds, a.metrics, views, faults), ProcessAll(ds, b.metrics, views);
    BatchIsIsolated(ds, a.metrics, b.metrics, views, faults, d);
    RecordRows(a.detections, p.detections, d.Name());
    RecordRows(b.detections, q.detections, d.Name());
  }

  // A detector that never raises ends in the states, and writes the rows, of the run in which no
  // detector raises, and the cursor does not wait for the ones that do.
  lemma {:induction false} FaultsAreIsolated(ds: seq<Detector>, actions: seq<FaultyAction>, i: nat)
    requires ValidRegistry(ds) && i < |ds| && Spared(actions, i)
    ensures SameFor(ds[i], RunFaulty(ds, actions), RunActions(ds, WithoutFaults(actions)))
  {
    hide TickDb, TickFaulty, MaxId, RowsOf, SameStates;
    var d := ds[i];
    if actions == [] {
      NothingApart(d);
    } else {
      FaultsAreIsolated(ds, Front(actions), i);
      Snoc(WithoutFaults(Front(actions)), WithoutFault(Last(actions)));
      var a, b := RunFaulty(ds, Front(actions)), RunActions(ds, WithoutFaults(Front(actions)));
      match Last(actions)
      case Arriving(e) =>
      case Ticking(limit, commits, faults) =>
        if commits {
          assert actions[|actions| - 1].Ticking?;
          TickIsIsolated(ds, limit, a, b, faults, d);
        }
    }
  }

  lemma NothingApart(d: Detector)
    ensures SameFor(d, EMPTY_DB, EMPTY_DB)
  {
  }

  // So after any run in which others raise, a detector that never did has in the table, entity by
  // entity and in order, the reports that the consumed events deserve.
  lemma SparedRowsAreExpected(ds: seq<Detector>, actions: seq<FaultyAction>, i: nat, src: nat)
    requires ValidRegistry(ds) && i < |ds| && Spared(actions, i)
    ensures var db := RunFaulty(ds, actions);
      OwnRows(db.detections, ds[i].Name(), src) == ExpectedAll(ds[i], BySource(Visible(db.events, db.cursor), src))
  {
    hide RunFaulty, RunActions, OwnRows, RowsOf, SameStates, ExpectedAll, BySource, Visible;
    var a, b := RunFaulty(ds, actions), RunActions(ds, WithoutFaults(actions));
    FaultsAreIsolated(ds, actions, i);
    OwnRowsOfRows(a.detections, ds[i].Name(), src);
    OwnRowsOfRows(b.detections, ds[i].Name(), src);
    OwnRowsAreExpected(ds, WithoutFaults(actions), ds[i], src);
  }
}
