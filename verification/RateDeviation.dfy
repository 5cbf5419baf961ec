/**
 Per-source event-rate spikes: a live bucket count compared with the statistics of all
 earlier buckets, reported at most once per bucket.
 */
module RateDeviation {
  import opened Common
  import opened DetectorBase
  import opened BucketHistory

  const NAME := "rate_deviation"
  const VERSION := 1

  datatype Config = Config(window: nat, zTrigger: real, zCap: real, minHistory: nat)

  // ---- what the detector does to its state ------------------------------------------

  function Step(cfg: Config, m: Metric, e: Event): Outcome
    requires cfg.window > 0
  {
    if m.start.Some? && BucketStartFor(e.ts, cfg.window) < m.start.value then Outcome(m, None)
    else
      var rolled := Roll(m, e.ts, cfg.window);
      var r := rolled.(value := rolled.value + 1.0);
      if !r.extra.fired && r.stats.n >= cfg.minHistory
         && Surprising(r.value, r.stats.mean, Variance(r.stats), cfg.zTrigger) then
        Outcome(r.(extra := Extra({}, true)),
                Some(Detection(e.id, e.src, NAME, VERSION, RateDetails(r.start.GetOr(0), r.value, r.stats))))
      else
        Outcome(r, None)
  }

  method Observe(cfg: Config, state: MetricState, ev: Event) returns (detection: Option<Detection>)
    requires cfg.window > 0 && state.windowSeconds == cfg.window
    modifies state
    ensures Outcome(state.View(), detection) == Step(cfg, old(state.View()), ev)
  {
    detection := None;
    var evBucket := BucketStartFor(ev.ts, cfg.window);
    if state.curBucketStart.Some? && evBucket < state.curBucketStart.value {
      return;
    }
    var _ := state.RollBuckets(ev.ts);
    state.curValue := state.curValue + 1.0;
    var firedAlready := state.curExtra.fired;
    if !firedAlready && state.n >= cfg.minHistory {
      var history := Stats(state.mean, state.m2, state.n);
      if Surprising(state.curValue, state.mean, Variance(history), cfg.zTrigger) {
        detection := Some(Detection(ev.id, ev.src, NAME, VERSION,
                                    RateDetails(state.curBucketStart.GetOr(0), state.curValue, history)));
        state.curExtra := Extra({}, true);
      }
    }
  }

  // ---- what it should report --------------------------------------------------------

  ghost function SampleVariance(h: seq<real>): real {
    if |h| < 2 then 0.0 else SquaredDeviation(h, Mean(h)) / (|h| - 1) as real
  }

  // A count of c in a bucket is unusual against the history h of all earlier buckets.
  ghost predicate Unusual(cfg: Config, h: seq<real>, c: nat) {
    |h| >= cfg.minHistory && Surprising(c as real, Mean(h), SampleVariance(h), cfg.zTrigger)
  }

  // The least unusual count among 1..c.
  ghost function FirstUnusual(cfg: Config, h: seq<real>, c: nat): (r: Option<nat>)
    ensures r.Some? ==> 1 <= r.value <= c && Unusual(cfg, h, r.value)
                        && forall j :: 1 <= j < r.value ==> !Unusual(cfg, h, j)
    ensures r.None? ==> forall j :: 1 <= j <= c ==> !Unusual(cfg, h, j)
  {
    if c == 0 then None
    else
      var r := FirstUnusual(cfg, h, c - 1);
      if r.Some? then r else if Unusual(cfg, h, c) then Some(c) else None
  }

  // The metric after evs, said without replaying the detector.
  ghost predicate Describes(cfg: Config, evs: seq<Event>, m: Metric)
    requires cfg.window > 0
  {
    if evs == [] then m == NEW_METRIC
    else
      var t := Top(evs, cfg.window);
      First(evs, cfg.window) <= t &&
      var h, c := HistoryBefore(evs, t, cfg.window), Count(evs, t, cfg.window);
      m == Metric(Some(t * Span(cfg.window)), c as real, Extra({}, FirstUnusual(cfg, h, c).Some?), Welford(h))
  }

  // The detection event e should cause after p.
  ghost function Expected(cfg: Config, p: seq<Event>, e: Event): Option<Detection>
    requires cfg.window > 0
  {
    var q, k := p + [e], Slot(e.ts, cfg.window);
    if !Accepts(p, e, cfg.window) then None
    else
      assert First(q, cfg.window) <= k by { if p != [] { assert p[0] == q[0]; } }
      var h, c := HistoryBefore(q, k, cfg.window), Count(q, k, cfg.window);
      if FirstUnusual(cfg, h, c) == Some(c) then
        Some(Detection(e.id, e.src, "rate_deviation", 1, RateDetails(k * Span(cfg.window), c as real, Welford(h))))
      else None
  }

  lemma StatisticsAgree(cfg: Config, h: seq<real>, c: nat)
    ensures Welford(h).n >= cfg.minHistory
            && Surprising(c as real, Welford(h).mean, Variance(Welford(h)), cfg.zTrigger)
       <==> Unusual(cfg, h, c)
  {
    WelfordIsBatchStatistics(h);
    if |h| >= 2 {
      NonNegativeQuotient(Welford(h).m2, (|h| - 1) as real);
    }
  }

  lemma NonNegativeQuotient(x: real, d: real)
    requires x >= 0.0 && d > 0.0
    ensures x / d >= 0.0
  {
    assert x / d * d == x;
    ScaleOrder(0.0, x / d, d);
  }

  // Counting an accepted event in the bucket it belongs to.
  lemma StepInBucket(cfg: Config, m: Metric, h: seq<real>, c: nat, e: Event)
    requires cfg.window > 0
    requires var k := Slot(e.ts, cfg.window);
      Roll(m, e.ts, cfg.window)
      == Metric(Some(k * Span(cfg.window)), c as real, Extra({}, FirstUnusual(cfg, h, c).Some?), Welford(h))
    requires m.start.Some? ==> m.start.value <= BucketStartFor(e.ts, cfg.window)
    ensures var k := Slot(e.ts, cfg.window);
      Step(cfg, m, e)
      == Outcome(Metric(Some(k * Span(cfg.window)), (c + 1) as real,
                        Extra({}, FirstUnusual(cfg, h, c + 1).Some?), Welford(h)),
                 if FirstUnusual(cfg, h, c + 1) == Some(c + 1)
                 then Some(Detection(e.id, e.src, NAME, VERSION,
                                     RateDetails(k * Span(cfg.window), (c + 1) as real, Welford(h))))
                 else None)
  {
    StatisticsAgree(cfg, h, c + 1);
    assert (c + 1) as real == c as real + 1.0;
  }

  lemma FirstEvent(cfg: Config, e: Event)
    requires cfg.window > 0
    ensures Describes(cfg, [e], Step(cfg, NEW_METRIC, e).metric)
    ensures Step(cfg, NEW_METRIC, e).detection == Expected(cfg, [], e)
  {
    var w, k := cfg.window, Slot(e.ts, cfg.window);
    BucketStartIsSlotStart(e.ts, w);
    CountSnoc([], e, k, w);
    assert [] + [e] == [e] && Front([e]) == [];
    assert AcceptedIn([], k, w) == {};
    assert HistoryBefore([e], k, w) == [];
    StepInBucket(cfg, NEW_METRIC, [], 0, e);
  }

  lemma LateEvent(cfg: Config, p: seq<Event>, m: Metric, e: Event)
    requires cfg.window > 0 && p != [] && Describes(cfg, p, m) && !Accepts(p, e, cfg.window)
    ensures Describes(cfg, p + [e], Step(cfg, m, e).metric)
    ensures Step(cfg, m, e).detection == None
  {
    var w, t := cfg.window, Top(p, cfg.window);
    TopSnoc(p, e, w);
    AcceptsIsTop(p, e, w);
    BucketStartIsSlotStart(e.ts, w);
    SlotOrder(Slot(e.ts, w), t, w);
    HistorySettled(p, e, t, w);
    CountSnoc(p, e, t, w);
  }

  lemma SameBucket(cfg: Config, p: seq<Event>, m: Metric, e: Event)
    requires cfg.window > 0 && p != [] && Describes(cfg, p, m) && Top(p, cfg.window) == Slot(e.ts, cfg.window)
    ensures Describes(cfg, p + [e], Step(cfg, m, e).metric)
    ensures Step(cfg, m, e).detection == Expected(cfg, p, e)
  {
    var w, t := cfg.window, Top(p, cfg.window);
    TopSnoc(p, e, w);
    BucketStartIsSlotStart(e.ts, w);
    RollReaches(m, t, e.ts, w);
    HistorySettled(p, e, t, w);
    CountSnoc(p, e, t, w);
    StepInBucket(cfg, m, HistoryBefore(p, t, w), Count(p, t, w), e);
  }

  lemma LaterBucket(cfg: Config, p: seq<Event>, m: Metric, e: Event)
    requires cfg.window > 0 && p != [] && Describes(cfg, p, m) && Top(p, cfg.window) < Slot(e.ts, cfg.window)
    ensures Describes(cfg, p + [e], Step(cfg, m, e).metric)
    ensures Step(cfg, m, e).detection == Expected(cfg, p, e)
  {
    hide HistoryBefore, Count, Top, Slot, Span, BucketStartFor, Surprising, Unusual, FirstUnusual, Roll, WelfordFrom;
    var w, t, k := cfg.window, Top(p, cfg.window), Slot(e.ts, cfg.window);
    var h, c := HistoryBefore(p, t, w), Count(p, t, w);
    TopSnoc(p, e, w);
    BucketStartIsSlotStart(e.ts, w);
    SlotOrder(t, k, w);
    RollReaches(m, t, e.ts, w);
    HistoryGrows(p, e, w);
    WelfordAppend(NO_HISTORY, h, [c as real] + Zeros(k - t - 1));
    CountOutside(p, k, w);
    CountSnoc(p, e, k, w);
    StepInBucket(cfg, m, HistoryBefore(p + [e], k, w), 0, e);
  }

  // One event keeps the description true and reports exactly what is expected.
  lemma StepRefines(cfg: Config, p: seq<Event>, m: Metric, e: Event)
    requires cfg.window > 0 && Describes(cfg, p, m)
    ensures Describes(cfg, p + [e], Step(cfg, m, e).metric)
    ensures Step(cfg, m, e).detection == Expected(cfg, p, e)
  {
    if p == [] {
      assert p + [e] == [e];
      FirstEvent(cfg, e);
    } else if Top(p, cfg.window) < Slot(e.ts, cfg.window) {
      LaterBucket(cfg, p, m, e);
    } else if Top(p, cfg.window) == Slot(e.ts, cfg.window) {
      SameBucket(cfg, p, m, e);
    } else {
      AcceptsIsTop(p, e, cfg.window);
      LateEvent(cfg, p, m, e);
    }
  }

  // ---- once per bucket --------------------------------------------------------------

  ghost function ExpectedAll(cfg: Config, evs: seq<Event>): seq<Detection>
    requires cfg.window > 0
  {
    if evs == [] then []
    else
      ExpectedAll(cfg, Front(evs)) + Listed(Expected(cfg, Front(evs), Last(evs)))
  }

  // What bucket k deserves over the whole sequence: one report at its least unusual count.
  ghost function BucketReport(cfg: Config, evs: seq<Event>, k: nat): seq<Details>
    requires cfg.window > 0 && evs != []
  {
    if !(First(evs, cfg.window) <= k <= Top(evs, cfg.window)) then []
    else
      var h := HistoryBefore(evs, k, cfg.window);
      match FirstUnusual(cfg, h, Count(evs, k, cfg.window))
      case Some(c) => [RateDetails(k * Span(cfg.window), c as real, Welford(h))]
      case None => []
  }

  // What one more event changes in the report of bucket k.
  lemma ReportSnoc(cfg: Config, p: seq<Event>, e: Event, k: nat)
    requires cfg.window > 0 && p != []
    ensures BucketReport(cfg, p + [e], k)
         == BucketReport(cfg, p, k)
            + match Expected(cfg, p, e)
              case Some(d) => if Slot(e.ts, cfg.window) == k then [d.details] else []
              case None => []
  {
    hide HistoryBefore, Count, Top, First, Accepts, Slot, Span, Unusual, Welford;
    var w, q, s := cfg.window, p + [e], Slot(e.ts, cfg.window);
    TopSnoc(p, e, w);
    AcceptsIsTop(p, e, w);
    if First(p, w) <= k {
      CountSnoc(p, e, k, w);
      if k <= Top(q, w) {
        HistorySettled(p, e, k, w);
        if Top(p, w) < k {
          CountOutside(p, k, w);
        }
      }
    }
  }

  // Exactly one detection in each bucket whose count ever becomes unusual, at the least such
  // count and against the history of all earlier buckets; none anywhere else.
  lemma {:induction false} OncePerBucket(cfg: Config, evs: seq<Event>, k: nat)
    requires cfg.window > 0 && evs != []
    ensures ReportsFor(ExpectedAll(cfg, evs), k * Span(cfg.window)) == BucketReport(cfg, evs, k)
  {
    hide Expected, BucketReport, Slot, Span, ReportsFor, Accepts;
    var w, p, e := cfg.window, Front(evs), Last(evs);
    FrontLast(evs);
    var d := Expected(cfg, p, e);
    ReportsSnoc(ExpectedAll(cfg, p), d, k * Span(w));
    ExpectedPlace(cfg, p, e);
    if d.Some? && d.value.details.bucketStart == k * Span(w) {
      SpanInjective(Slot(e.ts, w), k, w);
    }
    if p == [] {
      NoReports(k * Span(w));
      FirstReport(cfg, e, k);
    } else {
      OncePerBucket(cfg, p, k);
      ReportSnoc(cfg, p, e, k);
    }
  }

  lemma NoReports(start: int)
    ensures ReportsFor([], start) == []
  {
  }

  lemma FirstReport(cfg: Config, e: Event, k: nat)
    requires cfg.window > 0
    ensures BucketReport(cfg, [e], k)
         == match Expected(cfg, [], e)
            case Some(d) => if Slot(e.ts, cfg.window) == k then [d.details] else []
            case None => []
  {
    hide Slot, Span, Unusual, Welford, Count, Top;
    var w := cfg.window;
    assert [] + [e] == [e];
    CountOfOne(e, k, w);
    TopOfOne(e, w);
  }

  lemma CountOfOne(e: Event, k: nat, window: nat)
    requires window > 0
    ensures Count([e], k, window) == if Slot(e.ts, window) == k then 1 else 0
  {
    hide Slot;
    assert [] + [e] == [e];
    CountSnoc([], e, k, window);
    assert AcceptedIn([], k, window) == {};
  }

  // A report is of the bucket of the accepted event that causes it.
  lemma ExpectedPlace(cfg: Config, p: seq<Event>, e: Event)
    requires cfg.window > 0
    ensures Expected(cfg, p, e).Some?
        ==> Accepts(p, e, cfg.window)
            && Expected(cfg, p, e).value.details.bucketStart == Slot(e.ts, cfg.window) * Span(cfg.window)
  {
  }

  lemma {:induction false} ReportsInReach(cfg: Config, evs: seq<Event>)
    requires cfg.window > 0 && evs != []
    ensures InOrder(ExpectedAll(cfg, evs), Top(evs, cfg.window) * Span(cfg.window))
  {
    hide Expected, Top, Slot, Span, Accepts, InOrder;
    var w, p, e := cfg.window, Front(evs), Last(evs);
    FrontLast(evs);
    ExpectedPlace(cfg, p, e);
    if p != [] {
      ReportsInReach(cfg, p);
      TopSnoc(p, e, w);
      AcceptsIsTop(p, e, w);
      SlotOrder(Top(evs, w), Top(p, w), w);
      InOrderSnoc(ExpectedAll(cfg, p), Expected(cfg, p, e), Top(p, w) * Span(w), Top(evs, w) * Span(w));
    } else {
      TopOfOne(e, w);
      NothingInOrder(Top(evs, w) * Span(w));
      InOrderSnoc([], Expected(cfg, p, e), Top(evs, w) * Span(w), Top(evs, w) * Span(w));
    }
  }

  // The detections of one entity come from strictly later and later buckets.
  lemma BucketsIncrease(cfg: Config, evs: seq<Event>)
    requires cfg.window > 0 && evs != []
    ensures BucketsStrictlyIncrease(ExpectedAll(cfg, evs))
  {
    hide ExpectedAll, HistoryBefore, Count, FirstUnusual, Top, ReportsFor;
    var ds := ExpectedAll(cfg, evs);
    ReportsInReach(cfg, evs);
    forall i, j | 0 <= i < j < |ds| && ds[i].details.bucketStart == ds[j].details.bucketStart
      ensures |ReportsFor(ds, ds[i].details.bucketStart)| <= 1
    {
      var k := ReportBucket(cfg, evs, i);
      OncePerBucket(cfg, evs, k);
    }
    OneEachIsStrict(ds, Top(evs, cfg.window) * Span(cfg.window));
  }

  lemma {:induction false} ReportBucket(cfg: Config, evs: seq<Event>, i: nat) returns (k: nat)
    requires cfg.window > 0 && i < |ExpectedAll(cfg, evs)|
    ensures ExpectedAll(cfg, evs)[i].details.bucketStart == k * Span(cfg.window)
  {
    if i < |ExpectedAll(cfg, Front(evs))| {
      k := ReportBucket(cfg, Front(evs), i);
    } else {
      k := Slot(Last(evs).ts, cfg.window);
    }
  }
}
