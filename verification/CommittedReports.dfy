/**
 What the detection table holds after any run, bucket by bucket: the reports that the events of
 each entity deserve, and nothing else.
 */
module CommittedReports {
  import opened Common
  import opened DetectorBase
  import opened BucketHistory
  import opened DetectionWorker
  import opened DetectionRuns
  import Rate = RateDeviation
  import Ports = PortVelocity

  // The rows of one detector for one entity, in table order.
  function OwnRows(table: seq<Detection>, name: string, src: nat): seq<Detection> {
    if table == [] then []
    else
      OwnRows(Front(table), name, src)
      + if Last(table).detector == name && Last(table).entityId == src then [Last(table)] else []
  }

  ghost predicate AllOwn(rows: seq<Detection>, name: string, src: nat) {
    forall i :: 0 <= i < |rows| ==> rows[i].detector == name && rows[i].entityId == src
  }

  lemma OwnRowsSnoc(rows: seq<Detection>, r: Detection, name: string, src: nat)
    ensures OwnRows(rows + [r], name, src)
         == OwnRows(rows, name, src) + if r.detector == name && r.entityId == src then [r] else []
  {
    assert Front(rows + [r]) == rows && Last(rows + [r]) == r;
  }

  lemma {:induction false} OwnRowsAppend(a: seq<Detection>, b: seq<Detection>, name: string, src: nat)
    ensures OwnRows(a + b, name, src) == OwnRows(a, name, src) + OwnRows(b, name, src)
  {
    if b == [] {
      assert a + b == a;
    } else {
      hide OwnRows;
      var f, l := Front(b), Last(b);
      FrontLast(b);
      OwnRowsAppend(a, f, name, src);
      OwnRowsSnoc(a + f, l, name, src);
      OwnRowsSnoc(f, l, name, src);
      assert a + b == (a + f) + [l];
    }
  }

  lemma {:induction false} OwnOfOwn(rows: seq<Detection>, own: string, mine: nat, name: string, src: nat)
    requires AllOwn(rows, own, mine)
    ensures OwnRows(rows, name, src) == if name == own && src == mine then rows else []
  {
    if rows != [] {
      OwnOfOwn(Front(rows), own, mine, name, src);
      FrontLast(rows);
    }
  }

  // ---- whose rows a batch writes -------------------------------------------------------------

  lemma {:induction false} RunWritesOwn(d: Detector, m: Metric, evs: seq<Event>, src: nat)
    requires d.Valid() && forall i :: 0 <= i < |evs| ==> evs[i].src == src
    ensures AllOwn(RunFrom(d, m, evs).detections, d.Name(), src)
  {
    if evs != [] {
      RunWritesOwn(d, m, Front(evs), src);
      StepWritesOwn(d, RunFrom(d, m, Front(evs)).metric, Last(evs));
    }
  }

  lemma StepWritesOwn(d: Detector, m: Metric, e: Event)
    requires d.Valid()
    ensures AllOwn(Listed(d.Step(m, e).detection), d.Name(), e.src)
  {
    hide Roll;
  }

  lemma {:induction false} BySourceIsOwn(evs: seq<Event>, src: nat)
    ensures forall i :: 0 <= i < |BySource(evs, src)| ==> BySource(evs, src)[i].src == src
  {
    if evs != [] {
      BySourceIsOwn(Front(evs), src);
    }
  }

  lemma EntityWritesOwn(d: Detector, v: seq<Event>, b: seq<Event>, src: nat)
    requires d.Valid()
    ensures AllOwn(EntityDetections(d, v, b, src), d.Name(), src)
  {
    BySourceIsOwn(b, src);
    RunWritesOwn(d, StateAfter(d, BySource(v, src)), BySource(b, src), src);
  }

  lemma {:induction false} GroupWritesOwn(d: Detector, v: seq<Event>, b: seq<Event>, order: seq<nat>, name: string,
                                          src: nat)
    requires d.Valid() && Distinct(order)
    ensures OwnRows(GroupedDetections(d, v, b, order), name, src)
         == if name == d.Name() && src in order then EntityDetections(d, v, b, src) else []
  {
    hide EntityDetections, OwnRows;
    if order == [] {
      OwnOfOwn([], "", 0, name, src);
    } else {
      var f, l := Front(order), Last(order);
      FrontLast(order);
      GroupWritesOwn(d, v, b, f, name, src);
      OwnRowsAppend(GroupedDetections(d, v, b, f), EntityDetections(d, v, b, l), name, src);
      EntityWritesOwn(d, v, b, l);
      OwnOfOwn(EntityDetections(d, v, b, l), d.Name(), l, name, src);
      assert l !in f;
    }
  }

  lemma AbsentIsEmpty(evs: seq<Event>, src: nat)
    requires src !in SortedSources(evs)
    ensures BySource(evs, src) == []
  {
    SortedSourcesProperties(evs);
  }

  lemma BatchWritesOwn(d: Detector, metrics: map<MetricKey, Metric>, v: seq<Event>, b: seq<Event>, name: string,
                       src: nat)
    requires d.Valid()
    requires forall s :: Load(d, metrics, s) == StateAfter(d, BySource(v, s))
    ensures OwnRows(ProcessOver(d, metrics, b, SortedSources(b)).detections, name, src)
         == if name == d.Name() then EntityDetections(d, v, b, src) else []
  {
    hide StateAfter, ProcessOver, GroupedDetections, OwnRows, Load;
    SortedSourcesProperties(b);
    ProcessIsFold(d, metrics, v, b, SortedSources(b));
    GroupWritesOwn(d, v, b, SortedSources(b), name, src);
    if src !in SortedSources(b) {
      AbsentIsEmpty(b, src);
    }
  }

  // A batch writes for each detector and entity what their own run over the batch reports.
  lemma {:induction false} TickWritesOwn(ds: seq<Detector>, metrics: map<MetricKey, Metric>, v: seq<Event>,
                                         b: seq<Event>, d: Detector, src: nat)
    requires ValidRegistry(ds) && d.Valid()
    requires forall x, s :: x in ds ==> Load(x, metrics, s) == StateAfter(x, BySource(v, s))
    requires d in ds || forall x :: x in ds ==> x.Name() != d.Name()
    ensures OwnRows(ProcessAll(ds, metrics, b).detections, d.Name(), src)
         == if d in ds then EntityDetections(d, v, b, src) else []
  {
    hide StateAfter, ProcessOver, EntityDetections, OwnRows, Load, BySource;
    if ds == [] {
      OwnOfOwn([], "", 0, d.Name(), src);
    } else {
      var f, l := Front(ds), Last(ds);
      FrontLast(ds);
      NamesApart(ds, d);
      TickWritesOwn(f, metrics, v, b, d, src);
      BatchOfAll(f, metrics, v, b);
      var p := ProcessAll(f, metrics, b);
      forall s
        ensures Load(l, p.metrics, s) == StateAfter(l, BySource(v, s))
      {
        assert Load(l, p.metrics, s) == Load(l, metrics, s);
      }
      BatchWritesOwn(l, p.metrics, v, b, d.Name(), src);
      OwnRowsAppend(p.detections, ProcessOver(l, p.metrics, b, SortedSources(b)).detections, d.Name(), src);
    }
  }

  // The last detector's name is its own.
  lemma NamesApart(ds: seq<Detector>, d: Detector)
    requires ValidRegistry(ds) && ds != []
    requires d in ds || forall x :: x in ds ==> x.Name() != d.Name()
    ensures ValidRegistry(Front(ds)) && Last(ds).Valid() && Last(ds) in ds
    ensures forall x :: x in Front(ds) ==> x in ds && x.Name() != Last(ds).Name()
    ensures d.Name() == Last(ds).Name() ==> d == Last(ds) && d !in Front(ds)
    ensures d in Front(ds) || (forall x :: x in Front(ds) ==> x.Name() != d.Name())
    ensures d in ds <==> d in Front(ds) || d == Last(ds)
  {
    FrontLast(ds);
    assert Last(ds) in ds;
    if d in ds {
      var i :| 0 <= i < |ds| && ds[i] == d;
    }
  }

  // ---- every run ---------------------------------------------------------------------------

  lemma ExpectedAppend(d: Detector, v: seq<Event>, b: seq<Event>, src: nat)
    requires d.Valid()
    ensures ExpectedAll(d, BySource(v + b, src)) == ExpectedAll(d, BySource(v, src)) + EntityDetections(d, v, b, src)
  {
    hide ExpectedAll, Detector.Describes, BySource;
    BySourceAppend(v, b, src);
    StreamingRefines(d, BySource(v, src));
    StreamingRefines(d, BySource(v + b, src));
    RunAppend(d, NEW_METRIC, BySource(v, src), BySource(b, src));
  }

  lemma OwnRowsAfterTick(ds: seq<Detector>, limit: nat, db: Db, n: nat, d: Detector, src: nat)
    requires ValidRegistry(ds) && d in ds && CursorAt(db, n) && IsOneFold(ds, db)
    requires OwnRows(db.detections, d.Name(), src) == ExpectedAll(d, BySource(Visible(db.events, db.cursor), src))
    ensures var db' := TickDb(ds, limit, db);
      OwnRows(db'.detections, d.Name(), src) == ExpectedAll(d, BySource(Visible(db'.events, db'.cursor), src))
  {
    hide Load, StateAfter, BySource, Emitted, AllEmitted, ProcessAll, Record, Visible, Pending, MaxId, OwnRows,
         ExpectedAll, EntityDetections;
    var n' := TickKeepsFold(ds, limit, db, n);
    var db' := TickDb(ds, limit, db);
    var v, b := db.events[..n], db.events[n..n'];
    CursorView(db, n);
    CursorView(db', n');
    assert db'.events == db.events && v + b == db.events[..n'];
    TickWritesOwn(ds, db.metrics, v, b, d, src);
    OwnRowsAppend(db.detections, ProcessAll(ds, db.metrics, b).detections, d.Name(), src);
    ExpectedAppend(d, v, b, src);
  }

  // After any run the rows of each detector for each entity are, in order, the reports that the
  // entity's consumed events deserve.
  lemma {:induction false} OwnRowsAreExpected(ds: seq<Detector>, actions: seq<Action>, d: Detector, src: nat)
    requires ValidRegistry(ds) && d in ds
    ensures var db := RunActions(ds, actions);
      OwnRows(db.detections, d.Name(), src) == ExpectedAll(d, BySource(Visible(db.events, db.cursor), src))
  {
    hide TickDb, MaxId, OwnRows, ExpectedAll, BySource, Visible, IsOneFold, CursorAt;
    if actions == [] {
      NothingExpected(d, src);
    } else {
      OwnRowsAreExpected(ds, Front(actions), d, src);
      var n := EveryRunIsOneFold(ds, Front(actions));
      var db := RunActions(ds, Front(actions));
      match Last(actions)
      case Arrive(e) =>
        if e.id > MaxId(db.events) {
          ArriveUnseen(db, n, e);
        }
      case Tick(limit, commits) =>
        if commits {
          OwnRowsAfterTick(ds, limit, db, n, d, src);
        }
    }
  }

  lemma NothingExpected(d: Detector, src: nat)
    requires d.Valid()
    ensures OwnRows([], d.Name(), src) == ExpectedAll(d, BySource(Visible([], 0), src)) == []
  {
  }

  lemma ArriveUnseen(db: Db, n: nat, e: Event)
    requires CursorAt(db, n) && e.id > MaxId(db.events)
    ensures Visible(db.events + [e], db.cursor) == Visible(db.events, db.cursor)
  {
    hide MaxId;
    MaxIdIsLast(db.events);
    assert Front(db.events + [e]) == db.events && Last(db.events + [e]) == e;
    assert db.cursor < e.id;
  }

  // The entity's events that the committed cursor has passed.
  function Consumed(ds: seq<Detector>, actions: seq<Action>, src: nat): seq<Event>
    requires forall d :: d in ds ==> d.Valid()
  {
    var db := RunActions(ds, actions);
    BySource(Visible(db.events, db.cursor), src)
  }

  // The committed reports of one detector, entity and bucket start, in table order.
  ghost function ReportsCommitted(ds: seq<Detector>, actions: seq<Action>, name: string, src: nat, start: int)
    : seq<Details>
    requires forall d :: d in ds ==> d.Valid()
  {
    ReportsFor(OwnRows(RunActions(ds, actions).detections, name, src), start)
  }

  // After any run, an entity's bucket has in the table exactly the one rate report that it deserves:
  // at its least count that is unusual against the history of all earlier buckets, or none.
  lemma RateBucketsCommitted(ds: seq<Detector>, actions: seq<Action>, c: Rate.Config, src: nat, k: nat)
    requires ValidRegistry(ds) && RateDetector(c) in ds
    ensures RateDetector(c).Valid()
    ensures var evs := Consumed(ds, actions, src);
      ReportsCommitted(ds, actions, Rate.NAME, src, k * Span(c.window))
      == if evs == [] then [] else Rate.BucketReport(c, evs, k)
  {
    hide RunActions, OwnRows, BySource, Visible;
    var d := RateDetector(c);
    var evs := Consumed(ds, actions, src);
    assert d.Valid();
    OwnRowsAreExpected(ds, actions, d, src);
    ExpectedIsOwn(d, evs);
    if evs != [] {
      Rate.OncePerBucket(c, evs, k);
    }
  }

  // After any run, an entity's bucket has exactly one sweep report in the table, of threshold + 1
  // ports, if it ever held more than threshold distinct ports, and none otherwise.
  lemma PortBucketsCommitted(ds: seq<Detector>, actions: seq<Action>, c: Ports.Config, src: nat, k: nat)
    requires ValidRegistry(ds) && PortDetector(c) in ds
    ensures PortDetector(c).Valid()
    ensures var reports := ReportsCommitted(ds, actions, Ports.NAME, src, k * Span(c.window));
      var ports := Ports.PortsIn(Consumed(ds, actions, src), k, c.window);
      if |ports| > c.threshold
      then |reports| == 1 && Ports.SweepReport(c, reports[0], k * Span(c.window), ports)
      else reports == []
  {
    hide RunActions, OwnRows, BySource, Visible;
    var d := PortDetector(c);
    assert d.Valid();
    OwnRowsAreExpected(ds, actions, d, src);
    ExpectedIsOwn(d, Consumed(ds, actions, src));
    Ports.OncePerBucket(c, Consumed(ds, actions, src), k);
  }

  // After any run, the committed buckets of a detector for an entity strictly increase.
  lemma CommittedBucketsIncrease(ds: seq<Detector>, actions: seq<Action>, d: Detector, src: nat)
    requires ValidRegistry(ds) && d in ds
    ensures BucketsStrictlyIncrease(OwnRows(RunActions(ds, actions).detections, d.Name(), src))
  {
    hide RunActions, OwnRows, BySource, Visible;
    var evs := Consumed(ds, actions, src);
    assert d.Valid();
    OwnRowsAreExpected(ds, actions, d, src);
    ExpectedIsOwn(d, evs);
    if evs != [] {
      match d
      case RateDetector(c) => Rate.BucketsIncrease(c, evs);
      case PortDetector(c) => Ports.BucketsIncrease(c, evs);
    }
  }
}
