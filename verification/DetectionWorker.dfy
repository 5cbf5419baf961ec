/**
 The detection worker: reads events past a cursor, runs every detector over the batch and
 commits metric states, detections and the cursor in one transaction.
 */
module DetectionWorker {
  import opened Common
  import opened DetectorBase
  import opened BucketHistory
  import Rate = RateDeviation
  import Ports = PortVelocity

  datatype Detector = RateDetector(rate: Rate.Config) | PortDetector(ports: Ports.Config) {
    predicate Valid() {
      Window() > 0
    }

    function Window(): nat {
      match this
      case RateDetector(c) => c.window
      case PortDetector(c) => c.window
    }

    function Name(): string {
      if RateDetector? then Rate.NAME else Ports.NAME
    }

    function Step(m: Metric, e: Event): Outcome
      requires Valid()
    {
      match this
      case RateDetector(c) => Rate.Step(c, m, e)
      case PortDetector(c) => Ports.Step(c, m, e)
    }

    ghost function Expected(p: seq<Event>, e: Event): Option<Detection>
      requires Valid()
    {
      match this
      case RateDetector(c) => Rate.Expected(c, p, e)
      case PortDetector(c) => Ports.Expected(c, p, e)
    }

    ghost predicate Describes(evs: seq<Event>, m: Metric)
      requires Valid()
    {
      match this
      case RateDetector(c) => Rate.Describes(c, evs, m)
      case PortDetector(c) => Ports.Describes(c, evs, m)
    }
  }

  // ---- the tables ------------------------------------------------------------------------

  datatype MetricKey = MetricKey(entityId: nat, metric: string)

  datatype Db = Db(events: seq<Event>, metrics: map<MetricKey, Metric>, detections: seq<Detection>, cursor: nat)

  const EMPTY_DB := Db([], map[], [], 0)

  // The columns of the uniqueness constraint on detections.
  datatype DetectionKey = DetectionKey(eventId: nat, detector: string, version: int)

  function KeyOf(d: Detection): DetectionKey {
    DetectionKey(d.eventId, d.detector, d.detectorVersion)
  }

  function Load(d: Detector, metrics: map<MetricKey, Metric>, src: nat): Metric {
    var key := MetricKey(src, d.Name());
    if key in metrics then metrics[key] else NEW_METRIC
  }

  // ---- one fold per entity -----------------------------------------------------------------

  datatype Run = Run(metric: Metric, detections: seq<Detection>)

  function RunFrom(d: Detector, m: Metric, evs: seq<Event>): Run
    requires d.Valid()
  {
    if evs == [] then Run(m, [])
    else
      var r := RunFrom(d, m, Front(evs));
      var o := d.Step(r.metric, Last(evs));
      Run(o.metric, r.detections + Listed(o.detection))
  }

  function StateAfter(d: Detector, evs: seq<Event>): Metric
    requires d.Valid()
  {
    RunFrom(d, NEW_METRIC, evs).metric
  }

  lemma {:induction false} RunAppend(d: Detector, m: Metric, a: seq<Event>, b: seq<Event>)
    requires d.Valid()
    ensures var first := RunFrom(d, m, a); var second := RunFrom(d, first.metric, b);
      RunFrom(d, m, a + b) == Run(second.metric, first.detections + second.detections)
  {
    hide Rate.Step, Ports.Step;
    if b == [] {
      assert a + b == a;
    } else {
      RunAppend(d, m, a, Front(b));
      assert Front(a + b) == a + Front(b) && Last(a + b) == Last(b);
    }
  }

  // The detections a detector owes an entity, by the declarative reading.
  ghost function ExpectedAll(d: Detector, evs: seq<Event>): seq<Detection>
    requires d.Valid()
  {
    if evs == [] then [] else ExpectedAll(d, Front(evs)) + Listed(d.Expected(Front(evs), Last(evs)))
  }

  // Streaming over an entity's events reports exactly what the declarative reading expects,
  // and leaves a metric that the events alone determine.
  lemma {:induction false} StreamingRefines(d: Detector, evs: seq<Event>)
    requires d.Valid()
    ensures d.Describes(evs, StateAfter(d, evs))
    ensures RunFrom(d, NEW_METRIC, evs).detections == ExpectedAll(d, evs)
  {
    if evs != [] {
      FrontLast(evs);
      StreamingRefines(d, Front(evs));
      var m := StateAfter(d, Front(evs));
      match d
      case RateDetector(c) => Rate.StepRefines(c, Front(evs), m, Last(evs));
      case PortDetector(c) => Ports.StepRefines(c, Front(evs), m, Last(evs));
    }
  }

  lemma {:induction false} ExpectedIsOwn(d: Detector, evs: seq<Event>)
    requires d.Valid()
    ensures d.RateDetector? ==> ExpectedAll(d, evs) == Rate.ExpectedAll(d.rate, evs)
    ensures d.PortDetector? ==> ExpectedAll(d, evs) == Ports.ExpectedAll(d.ports, evs)
  {
    if evs != [] {
      ExpectedIsOwn(d, Front(evs));
    }
  }

  // The number of events a metric accounts for: n * mean finalized ones and the live ones.
  function EventTotal(s: Stats, live: real): real {
    s.mean * s.n as real + live
  }

  // For the rate detector every accepted event is in the history sum or in the live count.
  lemma EventsConserved(c: Rate.Config, evs: seq<Event>)
    requires c.window > 0 && evs != []
    ensures var m := StateAfter(RateDetector(c), evs);
      EventTotal(m.stats, m.value) == |Accepted(evs, c.window)| as real
  {
    var m := StateAfter(RateDetector(c), evs);
    StreamingRefines(RateDetector(c), evs);
    DescribedParts(c, evs, m);
    HistoryTotal(evs, c.window);
  }

  lemma HistoryTotal(evs: seq<Event>, window: nat)
    requires window > 0 && evs != []
    ensures First(evs, window) <= Top(evs, window)
    ensures var t := Top(evs, window);
      EventTotal(Welford(HistoryBefore(evs, t, window)), Count(evs, t, window) as real)
      == |Accepted(evs, window)| as real
  {
    CountsAddUp(evs, window);
    WelfordSums(HistoryBefore(evs, Top(evs, window), window));
  }

  lemma DescribedParts(c: Rate.Config, evs: seq<Event>, m: Metric)
    requires c.window > 0 && evs != [] && Rate.Describes(c, evs, m)
    ensures First(evs, c.window) <= Top(evs, c.window)
    ensures m.stats == Welford(HistoryBefore(evs, Top(evs, c.window), c.window))
    ensures m.value == Count(evs, Top(evs, c.window), c.window) as real
  {
  }

  // ---- batches grouped by entity ------------------------------------------------------------

  function BySource(evs: seq<Event>, src: nat): seq<Event> {
    if evs == [] then []
    else BySource(Front(evs), src) + if Last(evs).src == src then [Last(evs)] else []
  }

  // Grouping keeps exactly the entity's events, in order.
  lemma {:induction false} BySourceIs(evs: seq<Event>, more: seq<Event>, e: Event, src: nat)
    ensures BySource([], src) == [] && BySource([e], src) == if e.src == src then [e] else []
    ensures BySource(evs + more, src) == BySource(evs, src) + BySource(more, src)
  {
    assert Front([e]) == [];
    if more == [] {
      assert evs + more == evs;
    } else {
      BySourceIs(evs, Front(more), e, src);
      assert Front(evs + more) == evs + Front(more) && Last(evs + more) == Last(more);
    }
  }

  // The entities of a batch in order of first appearance.
  function Sources(evs: seq<Event>): seq<nat> {
    if evs == [] then []
    else
      var s := Sources(Front(evs));
      if Last(evs).src in s then s else s + [Last(evs).src]
  }

  function SortedSources(evs: seq<Event>): seq<nat> {
    Sorted((a: nat, b: nat) => a <= b, Sources(evs))
  }

  datatype Processed = Processed(metrics: map<MetricKey, Metric>, detections: seq<Detection>)

  // Entity after entity: load its state, fold its events, save.
  function ProcessOver(d: Detector, metrics: map<MetricKey, Metric>, evs: seq<Event>, order: seq<nat>): Processed
    requires d.Valid()
  {
    if order == [] then Processed(metrics, [])
    else
      var p := ProcessOver(d, metrics, evs, Front(order));
      var src := Last(order);
      var r := RunFrom(d, Load(d, p.metrics, src), BySource(evs, src));
      Processed(p.metrics[MetricKey(src, d.Name()) := r.metric], p.detections + r.detections)
  }

  function ProcessAll(ds: seq<Detector>, metrics: map<MetricKey, Metric>, evs: seq<Event>): Processed
    requires forall d :: d in ds ==> d.Valid()
  {
    if ds == [] then Processed(metrics, [])
    else
      var p := ProcessAll(Front(ds), metrics, evs);
      var q := ProcessOver(Last(ds), p.metrics, evs, SortedSources(evs));
      Processed(q.metrics, p.detections + q.detections)
  }

  // Some detectors raise, given by position with the number of entities that they have saved by
  // then: what they saved stays, what they found is lost, and the others go on.
  function ProcessFaulty(ds: seq<Detector>, metrics: map<MetricKey, Metric>, evs: seq<Event>, faults: map<nat, nat>)
    : Processed
    requires forall d :: d in ds ==> d.Valid()
  {
    if ds == [] then Processed(metrics, [])
    else
      var p := ProcessFaulty(Front(ds), metrics, evs, faults);
      var fault := if |ds| - 1 in faults then Some(faults[|ds| - 1]) else None;
      var q := ProcessOver(Last(ds), p.metrics, evs, Reached(evs, fault));
      Processed(q.metrics, p.detections + if fault.Some? then [] else q.detections)
  }

  // The entities that a detector gets through.
  function Reached(evs: seq<Event>, fault: Option<nat>): seq<nat> {
    if fault.Some? then Limit(SortedSources(evs), fault.value) else SortedSources(evs)
  }

  lemma {:induction false} NoFaults(ds: seq<Detector>, metrics: map<MetricKey, Metric>, evs: seq<Event>)
    requires forall d :: d in ds ==> d.Valid()
    ensures ProcessFaulty(ds, metrics, evs, map[]) == ProcessAll(ds, metrics, evs)
  {
    if ds != [] {
      FrontLast(ds);
      NoFaults(Front(ds), metrics, evs);
    }
  }

  // Rows already present under the same key are skipped.
  function Record(table: seq<Detection>, dets: seq<Detection>): seq<Detection> {
    if dets == [] then table
    else
      var t := Record(table, Front(dets));
      if exists i :: 0 <= i < |t| && KeyOf(t[i]) == KeyOf(Last(dets)) then t else t + [Last(dets)]
  }

  // A row is skipped exactly when one with its event, detector and version is there already.
  lemma {:induction false} RecordIs(table: seq<Detection>, a: seq<Detection>, b: seq<Detection>, d: Detection)
    ensures Record(table, a + b) == Record(Record(table, a), b) && Record(table, []) == table
    ensures Record(table, [d])
         == if exists i :: 0 <= i < |table| && table[i].eventId == d.eventId && table[i].detector == d.detector
                           && table[i].detectorVersion == d.detectorVersion
            then table else table + [d]
  {
    assert Front([d]) == [];
    assert forall i :: 0 <= i < |table| ==>
      (KeyOf(table[i]) == KeyOf(d) <==> table[i].eventId == d.eventId && table[i].detector == d.detector
                                        && table[i].detectorVersion == d.detectorVersion);
    if b == [] {
      assert a + b == a;
    } else {
      RecordIs(table, a, Front(b), d);
      assert Front(a + b) == a + Front(b) && Last(a + b) == Last(b);
    }
  }

  function Pending(evs: seq<Event>, cursor: nat): seq<Event> {
    if evs == [] then []
    else Pending(Front(evs), cursor) + if Last(evs).id > cursor then [Last(evs)] else []
  }

  function Visible(evs: seq<Event>, cursor: nat): seq<Event> {
    if evs == [] then []
    else Visible(Front(evs), cursor) + if Last(evs).id <= cursor then [Last(evs)] else []
  }

  function MaxId(evs: seq<Event>): nat {
    if evs == [] then 0
    else var m := MaxId(Front(evs)); if Last(evs).id < m then m else Last(evs).id
  }

  // The effect of one committed tick.
  function TickDb(ds: seq<Detector>, limit: nat, db: Db): Db
    requires forall d :: d in ds ==> d.Valid()
  {
    var views := Limit(Pending(db.events, db.cursor), limit);
    if views == [] then db
    else
      var p := ProcessAll(ds, db.metrics, views);
      Db(db.events, p.metrics, Record(db.detections, p.detections), MaxId(views))
  }

  // The effect of one committed tick in which some detectors raise.
  function TickFaulty(ds: seq<Detector>, limit: nat, db: Db, faults: map<nat, nat>): Db
    requires forall d :: d in ds ==> d.Valid()
  {
    var views := Limit(Pending(db.events, db.cursor), limit);
    if views == [] then db
    else
      var p := ProcessFaulty(ds, db.metrics, views, faults);
      Db(db.events, p.metrics, Record(db.detections, p.detections), MaxId(views))
  }

  // ---- the worker ------------------------------------------------------------------------------

  // An open transaction: a private copy of the tables.
  class Session {
    var db: Db

    constructor (db: Db)
      ensures this.db == db
    {
      this.db := db;
    }
  }

  method FoldEntity(d: Detector, session: Session, entityId: nat, evs: seq<Event>) returns (detections: seq<Detection>)
    requires d.Valid()
    modifies session
    ensures var r := RunFrom(d, Load(d, old(session.db.metrics), entityId), evs);
      && detections == r.detections
      && session.db == old(session.db).(metrics := old(session.db.metrics)[MetricKey(entityId, d.Name()) := r.metric])
  {
    ghost var m0 := Load(d, session.db.metrics, entityId);
    var state := new MetricState(entityId, d.Window(), Load(d, session.db.metrics, entityId));
    detections := [];
    for i := 0 to |evs|
      invariant session.db == old(session.db) && fresh(state) && state.windowSeconds == d.Window()
      invariant Run(state.View(), detections) == RunFrom(d, m0, evs[..i])
    {
      assert Front(evs[..i + 1]) == evs[..i] && Last(evs[..i + 1]) == evs[i];
      var found;
      match d {
        case RateDetector(c) => found := Rate.Observe(c, state, evs[i]);
        case PortDetector(c) => found := Ports.Observe(c, state, evs[i]);
      }
      if found.Some? {
        detections := detections + [found.value];
      }
    }
    assert evs[..|evs|] == evs;
    var saved := Metric(state.curBucketStart, state.curValue, state.curExtra, Stats(state.mean, state.m2, state.n));
    session.db := session.db.(metrics := session.db.metrics[MetricKey(entityId, d.Name()) := saved]);
  }

  // The dictionary of a batch: its keys in insertion order and the events of each key.
  method GroupByEntity(events: seq<Event>) returns (keys: seq<nat>, byEntity: map<nat, seq<Event>>)
    ensures keys == Sources(events)
    ensures forall k :: k in keys ==> k in byEntity && byEntity[k] == BySource(events, k)
  {
    byEntity := map[];
    keys := [];
    for i := 0 to |events|
      invariant keys == Sources(events[..i])
      invariant forall k :: k in byEntity <==> k in keys
      invariant forall k :: k in byEntity ==> byEntity[k] == BySource(events[..i], k)
    {
      var ev := events[i];
      assert Front(events[..i + 1]) == events[..i] && Last(events[..i + 1]) == ev;
      AbsentSource(events[..i], ev.src);
      if ev.src in byEntity {
        byEntity := byEntity[ev.src := byEntity[ev.src] + [ev]];
      } else {
        keys := keys + [ev.src];
        byEntity := byEntity[ev.src := [ev]];
      }
    }
    assert events[..|events|] == events;
  }

  lemma SortedSourcesProperties(evs: seq<Event>)
    ensures forall k :: k in SortedSources(evs) <==> k in Sources(evs)
    ensures Distinct(SortedSources(evs))
    ensures forall k :: k in Sources(evs) <==> BySource(evs, k) != []
  {
    SortedProperties((a: nat, b: nat) => a <= b, Sources(evs));
    SourcesDistinct(evs);
    DistinctMultiplicity(Sources(evs));
    DistinctMultiplicity(SortedSources(evs));
    forall k
      ensures k in SortedSources(evs) <==> k in Sources(evs)
      ensures k in Sources(evs) <==> BySource(evs, k) != []
    {
      assert k in SortedSources(evs) <==> k in multiset(SortedSources(evs));
      AbsentSource(evs, k);
    }
  }

  lemma {:induction false} SourcesDistinct(evs: seq<Event>)
    ensures Distinct(Sources(evs))
  {
    if evs != [] {
      SourcesDistinct(Front(evs));
    }
  }

  // One detector over one batch; None when it raises after the given number of entities.
  method Process(d: Detector, session: Session, events: seq<Event>, fault: Option<nat>)
    returns (found: Option<seq<Detection>>)
    requires d.Valid()
    modifies session
    ensures var p := ProcessOver(d, old(session.db.metrics), events, Reached(events, fault));
      && session.db == old(session.db).(metrics := p.metrics)
      && found == if fault.Some? then None else Some(p.detections)
  {
    hide Sorted, RunFrom, Load, BySource, Sources;
    var detections: seq<Detection> := [];
    var keys, byEntity := GroupByEntity(events);
    var order := Sorted((a: nat, b: nat) => a <= b, keys);
    SortedSourcesProperties(events);
    ghost var metrics0 := session.db.metrics;
    for j := 0 to |order|
      invariant fault.Some? ==> j <= fault.value
      invariant session.db == old(session.db).(metrics := session.db.metrics)
      invariant Processed(session.db.metrics, detections) == ProcessOver(d, metrics0, events, order[..j])
    {
      assert Front(order[..j + 1]) == order[..j] && Last(order[..j + 1]) == order[j];
      assert order[j] in SortedSources(events);
      if fault == Some(j) {
        return None;
      }
      var more := FoldEntity(d, session, order[j], byEntity[order[j]]);
      detections := detections + more;
    }
    assert order[..|order|] == order;
    found := if fault.Some? then None else Some(detections);
  }

  lemma {:induction false} AbsentSource(evs: seq<Event>, src: nat)
    ensures src in Sources(evs) <==> BySource(evs, src) != []
  {
    if evs != [] {
      AbsentSource(Front(evs), src);
    }
  }

  method RecordDetections(session: Session, detections: seq<Detection>) returns (inserted: nat, duplicates: nat)
    modifies session
    ensures session.db == old(session.db).(detections := Record(old(session.db.detections), detections))
    ensures inserted == |session.db.detections| - |old(session.db.detections)|
    ensures inserted + duplicates == |detections|
  {
    inserted, duplicates := 0, 0;
    for i := 0 to |detections|
      invariant session.db == old(session.db).(detections := Record(old(session.db.detections), detections[..i]))
      invariant inserted == |session.db.detections| - |old(session.db.detections)|
      invariant inserted + duplicates == i
    {
      assert Front(detections[..i + 1]) == detections[..i];
      var t := session.db.detections;
      if exists j :: 0 <= j < |t| && KeyOf(t[j]) == KeyOf(detections[i]) {
        duplicates := duplicates + 1;
      } else {
        session.db := session.db.(detections := t + [detections[i]]);
        inserted := inserted + 1;
      }
    }
    assert detections[..|detections|] == detections;
  }

  datatype Summary = Summary(processed: nat, inserted: nat, duplicates: nat)

  lemma NoneProcessed(ds: seq<Detector>, metrics: map<MetricKey, Metric>, evs: seq<Event>, faults: map<nat, nat>)
    ensures ProcessFaulty(ds[..0], metrics, evs, faults) == Processed(metrics, [])
  {
  }

  // The turn of one more detector.
  lemma FaultyNext(ds: seq<Detector>, metrics: map<MetricKey, Metric>, evs: seq<Event>, faults: map<nat, nat>, i: nat)
    requires i < |ds| && forall d :: d in ds ==> d.Valid()
    ensures var p := ProcessFaulty(ds[..i], metrics, evs, faults);
      var fault := if i in faults then Some(faults[i]) else None;
      var q := ProcessOver(ds[i], p.metrics, evs, Reached(evs, fault));
      ProcessFaulty(ds[..i + 1], metrics, evs, faults)
      == Processed(q.metrics, if fault.Some? then p.detections else p.detections + q.detections)
  {
    hide ProcessOver, Reached;
    NextPrefix(ds, i);
    var p := ProcessFaulty(ds[..i], metrics, evs, faults);
    assert p.detections + [] == p.detections;
  }

  class DetectionWorker {
    const detectors: seq<Detector>
    const batchSize: nat
    var store: Db

    constructor (detectors: seq<Detector>, batchSize: nat, store: Db)
      ensures this.detectors == detectors && this.batchSize == batchSize && this.store == store
    {
      this.detectors, this.batchSize, this.store := detectors, batchSize, store;
    }

    // Processes one batch; a detector that raises does not stop the others, and when the transaction
    // does not commit the tables keep their old values.
    method Tick(commits: bool, faults: map<nat, nat>) returns (summary: Summary)
      requires forall d :: d in detectors ==> d.Valid()
      modifies this
      ensures store == if commits then TickFaulty(detectors, batchSize, old(store), faults) else old(store)
      ensures summary.processed == |Limit(Pending(old(store).events, old(store).cursor), batchSize)|
      ensures commits ==> summary.inserted == |store.detections| - |old(store).detections|
      ensures summary.inserted + summary.duplicates
           == if summary.processed == 0 then 0
              else |ProcessFaulty(detectors, old(store).metrics,
                                  Limit(Pending(old(store).events, old(store).cursor), batchSize), faults).detections|
    {
      hide Record, Pending, MaxId, Limit, ProcessFaulty, ProcessOver, Reached;
      var session := new Session(store);
      var cursor := session.db.cursor;
      var views := Limit(Pending(session.db.events, cursor), batchSize);
      if views == [] {
        return Summary(0, 0, 0);
      }
      var detections: seq<Detection> := [];
      ghost var metrics0 := session.db.metrics;
      NoneProcessed(detectors, metrics0, views, faults);
      for i := 0 to |detectors|
        invariant session.db == old(store).(metrics := session.db.metrics) && store == old(store)
        invariant Processed(session.db.metrics, detections) == ProcessFaulty(detectors[..i], metrics0, views, faults)
      {
        FaultyNext(detectors, metrics0, views, faults, i);
        var found := Process(detectors[i], session, views, if i in faults then Some(faults[i]) else None);
        if found.Some? {
          detections := detections + found.value;
        }
      }
      assert detectors[..|detectors|] == detectors;
      var inserted, duplicates := RecordDetections(session, detections);
      session.db := session.db.(cursor := MaxId(views));
      if commits {
        store := session.db;
      }
      summary := Summary(|views|, inserted, duplicates);
    }
  }
}
