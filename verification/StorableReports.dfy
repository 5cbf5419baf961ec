/**
 Which detections the table can hold. Their details are stored as JSON, whose numbers are finite
 (section 6 of RFC 8259), but a rate report against a history without variance carries an infinite
 z-score. Recording it aborts the transaction of its whole batch: the insert is not inside the guard
 that isolates one detector from the others.
 */
module StorableReports {
  import opened Common
  import opened DetectorBase
  import opened BucketHistory
  import opened DetectionWorker
  import opened DetectionRuns
  import Rate = RateDeviation
  import Ports = PortVelocity

  // The z-score of a rate report is finite.
  predicate Storable(d: Detection) {
    d.details.RateDetails? ==> Variance(d.details.history) > STD_FLOOR * STD_FLOOR
  }

  ghost predicate AllStorable(dets: seq<Detection>) {
    forall i :: 0 <= i < |dets| ==> Storable(dets[i])
  }

  // The z-score of a firing is infinite exactly when the history has no variance to speak of.
  lemma InfiniteIff(value: real, mean: real, std: real, trigger: real)
    requires std >= 0.0 && Surprising(value, mean, std * std, trigger)
    ensures ZScoreOf(value, mean, std).Infinite? <==> std <= STD_FLOOR
    ensures std <= STD_FLOOR <==> std * std <= STD_FLOOR * STD_FLOOR
  {
    SquareOrder(std, STD_FLOOR);
  }

  // ---- what sticks ---------------------------------------------------------------------------

  // Event m deserves a report by d that the table cannot hold.
  ghost predicate SticksBy(d: Detector, evs: seq<Event>, m: nat)
    requires d.Valid() && m < |evs|
  {
    var x := d.Expected(BySource(evs[..m], evs[m].src), evs[m]);
    x.Some? && !Storable(x.value)
  }

  ghost predicate Sticks(ds: seq<Detector>, evs: seq<Event>, m: nat)
    requires (forall d :: d in ds ==> d.Valid()) && m < |evs|
  {
    exists d :: d in ds && SticksBy(d, evs, m)
  }

  lemma StepIsExpected(d: Detector, evs: seq<Event>, e: Event)
    requires d.Valid()
    ensures d.Step(StateAfter(d, evs), e).detection == d.Expected(evs, e)
  {
    hide Rate.Step, Rate.Expected, Rate.Describes;
    StreamingRefines(d, evs);
    match d
    case RateDetector(c) => Rate.StepRefines(c, evs, StateAfter(d, evs), e);
    case PortDetector(c) => Ports.StepRefines(c, evs, StateAfter(d, evs), e);
  }

  // What a detector emits over a batch can be stored exactly when none of its events sticks by it.
  lemma {:induction false} EmittedStorableIff(d: Detector, v: seq<Event>, b: seq<Event>)
    requires d.Valid()
    ensures AllStorable(Emitted(d, v, b)) <==> forall m :: |v| <= m < |v + b| ==> !SticksBy(d, v + b, m)
  {
    hide SticksBy, Storable, Detector.Step, Detector.Expected, StateAfter, BySource;
    if b != [] {
      var f, e := Front(b), Last(b);
      EmittedStorableIff(d, v, f);
      StepIsExpected(d, BySource(v + f, e.src), e);
      LastSticks(d, v, f, e);
      FrontLast(b);
      StorableSnoc(Emitted(d, v, f), d.Expected(BySource(v + f, e.src), e));
      assert v + b == (v + f) + [e];
      forall m | 0 <= m < |v + f|
        ensures SticksBy(d, v + b, m) <==> SticksBy(d, v + f, m)
      {
        SticksInPrefix(d, v + f, v + b, m);
      }
    }
  }

  lemma LastSticks(d: Detector, v: seq<Event>, f: seq<Event>, e: Event)
    requires d.Valid()
    ensures var x := d.Expected(BySource(v + f, e.src), e);
      SticksBy(d, (v + f) + [e], |v + f|) <==> x.Some? && !Storable(x.value)
  {
    hide Storable, Detector.Expected, BySource;
    var all := (v + f) + [e];
    assert all[..|v + f|] == v + f && all[|v + f|] == e;
  }

  lemma SticksInPrefix(d: Detector, a: seq<Event>, b: seq<Event>, m: nat)
    requires d.Valid() && a <= b && m < |a|
    ensures SticksBy(d, b, m) <==> SticksBy(d, a, m)
  {
    assert b[..m] == a[..m];
  }

  lemma StorableSnoc(dets: seq<Detection>, x: Option<Detection>)
    ensures AllStorable(dets + Listed(x)) <==> AllStorable(dets) && (x.Some? ==> Storable(x.value))
  {
    hide Storable;
    var all := dets + Listed(x);
    assert forall i :: 0 <= i < |dets| ==> all[i] == dets[i];
    if x.Some? {
      assert all[|dets|] == x.value;
    }
  }

  lemma StorableMembers(dets: seq<Detection>)
    ensures AllStorable(dets) <==> forall x :: x in multiset(dets) ==> Storable(x)
  {
    hide Storable;
    assert forall x :: x in multiset(dets) <==> x in dets;
    if forall x :: x in multiset(dets) ==> Storable(x) {
      forall i | 0 <= i < |dets|
        ensures Storable(dets[i])
      {
        assert dets[i] in multiset(dets);
      }
    }
  }

  lemma {:induction false} AllEmittedStorableIff(ds: seq<Detector>, v: seq<Event>, b: seq<Event>)
    requires forall d :: d in ds ==> d.Valid()
    ensures (forall x :: x in AllEmitted(ds, v, b) ==> Storable(x))
       <==> forall m :: |v| <= m < |v + b| ==> !Sticks(ds, v + b, m)
  {
    hide Storable, SticksBy, Emitted;
    if ds != [] {
      var f, l := Front(ds), Last(ds);
      FrontLast(ds);
      assert l in ds;
      AllEmittedStorableIff(f, v, b);
      EmittedStorableIff(l, v, b);
      StorableMembers(Emitted(l, v, b));
      forall m | |v| <= m < |v + b|
        ensures Sticks(ds, v + b, m) <==> Sticks(f, v + b, m) || SticksBy(l, v + b, m)
      {
        SticksAmong(ds, v + b, m);
      }
    }
  }

  lemma SticksAmong(ds: seq<Detector>, evs: seq<Event>, m: nat)
    requires ds != [] && (forall d :: d in ds ==> d.Valid()) && m < |evs|
    ensures Last(ds).Valid()
    ensures Sticks(ds, evs, m) <==> Sticks(Front(ds), evs, m) || SticksBy(Last(ds), evs, m)
  {
    hide SticksBy;
    FrontLast(ds);
    assert Last(ds) in ds;
  }

  // ---- every run -------------------------------------------------------------------------------

  // The batch from n to n' can be recorded exactly when none of its events sticks.
  lemma BatchStorableIff(ds: seq<Detector>, db: Db, n: nat, n': nat)
    requires ValidRegistry(ds) && CursorAt(db, n) && IsOneFold(ds, db) && n <= n' <= |db.events|
    ensures AllStorable(ProcessAll(ds, db.metrics, db.events[n..n']).detections)
       <==> forall m :: n <= m < n' ==> !Sticks(ds, db.events, m)
  {
    hide Load, StateAfter, BySource, AllEmitted, ProcessAll, Visible, Pending, Sticks, Storable, AllStorable;
    var v, b := db.events[..n], db.events[n..n'];
    CursorView(db, n);
    BatchOfAll(ds, db.metrics, v, b);
    StorableMembers(ProcessAll(ds, db.metrics, b).detections);
    AllEmittedStorableIff(ds, v, b);
    forall m | n <= m < n'
      ensures Sticks(ds, db.events, m) <==> Sticks(ds, v + b, m)
    {
      SticksInStream(ds, v + b, db.events, m);
    }
  }

  lemma SticksInStream(ds: seq<Detector>, a: seq<Event>, b: seq<Event>, m: nat)
    requires (forall d :: d in ds ==> d.Valid()) && a <= b && m < |a|
    ensures Sticks(ds, b, m) <==> Sticks(ds, a, m)
  {
    hide SticksBy;
    forall d | d in ds
      ensures SticksBy(d, b, m) <==> SticksBy(d, a, m)
    {
      SticksInPrefix(d, a, b, m);
    }
  }

  // After any run the next batch can be recorded exactly when none of its events sticks.
  lemma TickStorableIff(ds: seq<Detector>, actions: seq<Action>, limit: nat)
    requires ValidRegistry(ds)
    ensures var db := RunActions(ds, actions);
      var views := Limit(Pending(db.events, db.cursor), limit);
      AllStorable(ProcessAll(ds, db.metrics, views).detections)
      <==> forall m :: 0 <= m < |db.events| && db.events[m] in views ==> !Sticks(ds, db.events, m)
  {
    hide RunActions, AllStorable, ProcessAll, Sticks, IsOneFold;
    var db := RunActions(ds, actions);
    var n := EveryRunIsOneFold(ds, actions);
    var n' := TickKeepsFold(ds, limit, db, n);
    BatchStorableIff(ds, db, n, n');
    forall m | 0 <= m < |db.events|
      ensures db.events[m] in db.events[n..n'] <==> n <= m < n'
    {
      InBatch(db, n, n', m);
    }
  }

  lemma InBatch(db: Db, n: nat, n': nat, m: nat)
    requires CursorAt(db, n) && n <= n' <= |db.events| && m < |db.events|
    ensures db.events[m] in db.events[n..n'] <==> n <= m < n'
  {
    if n <= m < n' {
      assert db.events[n..n'][m - n] == db.events[m];
    } else {
      assert forall j :: n <= j < n' ==> db.events[j].id != db.events[m].id;
    }
  }

  // A run in which a batch that cannot be recorded never commits.
  ghost predicate StorableRun(ds: seq<Detector>, actions: seq<Action>)
    requires forall d :: d in ds ==> d.Valid()
  {
    actions != [] ==>
      && StorableRun(ds, Front(actions))
      && (Last(actions).Tick? && Last(actions).commits ==>
            var db := RunActions(ds, Front(actions));
            var views := Limit(Pending(db.events, db.cursor), Last(actions).limit);
            AllStorable(ProcessAll(ds, db.metrics, views).detections))
  }

  // So no run ever gets past an event that sticks: neither it nor anything behind it, of whatever
  // entity, is consumed.
  lemma {:induction false} CursorStops(ds: seq<Detector>, actions: seq<Action>, m: nat)
    requires ValidRegistry(ds) && StorableRun(ds, actions)
    requires m < |RunActions(ds, actions).events| && Sticks(ds, RunActions(ds, actions).events, m)
    ensures RunActions(ds, actions).cursor < RunActions(ds, actions).events[m].id
  {
    hide TickDb, MaxId, AllStorable, ProcessAll, Sticks, IsOneFold, CursorAt, Pending;
    if actions != [] {
      var db := RunActions(ds, Front(actions));
      var n := EveryRunIsOneFold(ds, Front(actions));
      match Last(actions)
      case Arrive(e) =>
        if e.id > MaxId(db.events) {
          if m < |db.events| {
            SticksInStream(ds, db.events, db.events + [e], m);
            CursorStops(ds, Front(actions), m);
          } else {
            CursorBelow(db, n, e);
          }
        } else {
          CursorStops(ds, Front(actions), m);
        }
      case Tick(limit, commits) =>
        TickKeepsEvents(ds, limit, db);
        CursorStops(ds, Front(actions), m);
        if commits {
          TickStops(ds, limit, db, n, m);
        }
    }
  }

  lemma CursorBelow(db: Db, n: nat, e: Event)
    requires CursorAt(db, n) && e.id > MaxId(db.events)
    ensures db.cursor < e.id
  {
    hide MaxId;
    MaxIdIsLast(db.events);
  }

  lemma TickKeepsEvents(ds: seq<Detector>, limit: nat, db: Db)
    requires forall d :: d in ds ==> d.Valid()
    ensures TickDb(ds, limit, db).events == db.events
  {
    hide ProcessAll, Record, Pending, MaxId;
  }

  // A batch that can be recorded ends before the event that sticks.
  lemma TickStops(ds: seq<Detector>, limit: nat, db: Db, n: nat, m: nat)
    requires ValidRegistry(ds) && CursorAt(db, n) && IsOneFold(ds, db)
    requires AllStorable(ProcessAll(ds, db.metrics, Limit(Pending(db.events, db.cursor), limit)).detections)
    requires m < |db.events| && Sticks(ds, db.events, m) && db.cursor < db.events[m].id
    ensures TickDb(ds, limit, db).cursor < db.events[m].id
  {
    hide TickDb, AllStorable, ProcessAll, Sticks, IsOneFold, CursorAt, Pending;
    var n' := TickKeepsFold(ds, limit, db, n);
    TickKeepsEvents(ds, limit, db);
    BatchStorableIff(ds, db, n, n');
    AheadIff(db, n, m);
    AheadIff(TickDb(ds, limit, db), n', m);
  }

  lemma AheadIff(db: Db, n: nat, m: nat)
    requires CursorAt(db, n) && m < |db.events|
    ensures db.cursor < db.events[m].id <==> n <= m
  {
  }

  // ---- which events stick ------------------------------------------------------------------------

  // An accepted event sticks by the rate detector exactly when it brings its bucket to the least
  // unusual count while the history of all earlier buckets has no variance.
  lemma SticksIff(c: Rate.Config, evs: seq<Event>, m: nat)
    requires c.window > 0 && m < |evs|
    requires Accepts(BySource(evs[..m], evs[m].src), evs[m], c.window)
    ensures var e := evs[m];
      var q, k := BySource(evs[..m], e.src) + [e], Slot(e.ts, c.window);
      && First(q, c.window) <= k
      && var h, count := HistoryBefore(q, k, c.window), Count(q, k, c.window);
         SticksBy(RateDetector(c), evs, m)
         <==> Rate.FirstUnusual(c, h, count) == Some(count) && Rate.SampleVariance(h) <= STD_FLOOR * STD_FLOOR
  {
    hide HistoryBefore, Count, Slot, BySource, Rate.FirstUnusual, Welford, Accepts;
    var e := evs[m];
    var p, k := BySource(evs[..m], e.src), Slot(e.ts, c.window);
    FirstBefore(p, e, c.window);
    SameVariance(HistoryBefore(p + [e], k, c.window));
  }

  lemma FirstBefore(p: seq<Event>, e: Event, window: nat)
    requires window > 0 && Accepts(p, e, window)
    ensures First(p + [e], window) <= Slot(e.ts, window)
  {
    if p != [] {
      assert p[0] == (p + [e])[0];
    }
  }

  lemma SameVariance(h: seq<real>)
    ensures Variance(Welford(h)) == Rate.SampleVariance(h)
  {
    WelfordIsBatchStatistics(h);
    if |h| >= 2 {
      Rate.NonNegativeQuotient(Welford(h).m2, (|h| - 1) as real);
    }
  }

  // No event sticks by the port detector.
  lemma PortsNeverStick(c: Ports.Config, evs: seq<Event>, m: nat)
    requires c.window > 0 && m < |evs|
    ensures !SticksBy(PortDetector(c), evs, m)
  {
  }

  lemma {:induction false} SteadySum(h: seq<real>, x: real)
    requires forall i :: 0 <= i < |h| ==> h[i] == x
    ensures Sum(h) == x * |h| as real && SquaredDeviation(h, x) == 0.0
  {
    if h != [] {
      SteadySum(Front(h), x);
      assert x * |h| as real == x * |Front(h)| as real + x;
    }
  }

  // Such a history is a perfectly steady one: after enough buckets of x events each, the first event
  // beyond x in a bucket is reported with an infinite z-score.
  lemma SteadySourceSticks(c: Rate.Config, h: seq<real>, x: nat)
    requires h != [] && |h| >= c.minHistory && forall i :: 0 <= i < |h| ==> h[i] == x as real
    ensures Rate.FirstUnusual(c, h, x + 1) == Some(x + 1) && Rate.SampleVariance(h) <= STD_FLOOR * STD_FLOOR
  {
    SteadySum(h, x as real);
    DivideBy(x as real, |h| as real, Sum(h));
    assert Mean(h) == x as real;
    assert Rate.SampleVariance(h) == 0.0 && STD_FLOOR * STD_FLOOR >= 0.0;
    assert (x + 1) as real == x as real + 1.0;
    assert Rate.Unusual(c, h, x + 1);
    forall j | 1 <= j <= x
      ensures !Rate.Unusual(c, h, j)
    {
      assert j as real <= x as real;
    }
  }
}
