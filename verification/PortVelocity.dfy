/**
 Breadth-of-ports sweeps per source entity: distinct destination ports in the live
 bucket, reported at most once per bucket.
 */
module PortVelocity {
  import opened Common
  import opened DetectorBase
  import opened BucketHistory

  const NAME := "port_velocity"
  const VERSION := 1

  datatype Config = Config(window: nat, threshold: nat)

  const SHOWN_PORTS := 32

  // The ports that a report lists: the lowest ones, ascending.
  function Shown(ports: set<int>): seq<int> {
    Limit(Ascending(ports), SHOWN_PORTS)
  }

  // ---- what the detector does to its state ------------------------------------------

  function Step(cfg: Config, m: Metric, e: Event): Outcome
    requires cfg.window > 0
  {
    if m.start.Some? && BucketStartFor(e.ts, cfg.window) < m.start.value then Outcome(m, None)
    else
      var rolled := Roll(m, e.ts, cfg.window);
      var ports := rolled.extra.ports + {e.dstPort};
      var r := rolled.(value := |ports| as real, extra := Extra(ports, rolled.extra.fired));
      if !r.extra.fired && |ports| > cfg.threshold then
        Outcome(r.(extra := Extra(ports, true)),
                Some(Detection(e.id, e.src, NAME, VERSION,
                               PortDetails(r.start.GetOr(0), |ports|, cfg.threshold, Shown(ports),
                                           ScoreDistinctPorts(|ports|, cfg.threshold)))))
      else
        Outcome(r, None)
  }

  method Observe(cfg: Config, state: MetricState, ev: Event) returns (detection: Option<Detection>)
    requires cfg.window > 0 && state.windowSeconds == cfg.window
    modifies state
    ensures Outcome(state.View(), detection) == Step(cfg, old(state.View()), ev)
  {
    detection := None;
    var evBucket := BucketStartFor(ev.ts, cfg.window);
    if state.curBucketStart.Some? && evBucket < state.curBucketStart.value {
      return;
    }
    var _ := state.RollBuckets(ev.ts);
    var before := |state.curExtra.ports|;
    var ports := state.curExtra.ports + {ev.dstPort};
    AddMember(state.curExtra.ports, ev.dstPort);
    if |ports| != before {
      state.curExtra := Extra(ports, state.curExtra.fired);
    }
    state.curValue := |ports| as real;
    var firedAlready := state.curExtra.fired;
    var observed := |ports|;
    if !firedAlready && observed > cfg.threshold {
      detection := Some(Detection(ev.id, ev.src, NAME, VERSION,
                                  PortDetails(state.curBucketStart.GetOr(0), observed, cfg.threshold, Shown(ports),
                                              ScoreDistinctPorts(observed, cfg.threshold))));
      state.curExtra := Extra(state.curExtra.ports, true);
    }
  }

  // ---- what it should report --------------------------------------------------------

  // The distinct ports of the accepted events of bucket k.
  ghost function PortsIn(evs: seq<Event>, k: nat, window: nat): set<int>
    requires window > 0
  {
    set i | i in AcceptedIn(evs, k, window) :: evs[i].dstPort
  }

  lemma PortsSnoc(p: seq<Event>, e: Event, k: nat, window: nat)
    requires window > 0
    ensures PortsIn(p + [e], k, window)
         == PortsIn(p, k, window) + if Accepts(p, e, window) && Slot(e.ts, window) == k then {e.dstPort} else {}
  {
    hide Accepts, Slot;
    AcceptedInSnoc(p, e, k, window);
    var q := p + [e];
    assert forall i :: 0 <= i < |p| ==> q[i] == p[i];
    assert q[|p|] == e;
    var l, r := PortsIn(q, k, window),
                PortsIn(p, k, window) + if Accepts(p, e, window) && Slot(e.ts, window) == k then {e.dstPort} else {};
    forall x | x in PortsIn(p, k, window)
      ensures x in l
    {
      var i :| i in AcceptedIn(p, k, window) && p[i].dstPort == x;
      assert i in AcceptedIn(q, k, window) && q[i].dstPort == x;
    }
    if Accepts(p, e, window) && Slot(e.ts, window) == k {
      assert |p| in AcceptedIn(q, k, window);
    }
  }

  lemma PortsOutside(evs: seq<Event>, k: nat, window: nat)
    requires window > 0 && evs != [] && !(First(evs, window) <= k <= Top(evs, window))
    ensures PortsIn(evs, k, window) == {}
  {
    CountOutside(evs, k, window);
  }

  // The live bucket's bookkeeping is exactly the distinct ports of its accepted events.
  ghost predicate Describes(cfg: Config, evs: seq<Event>, m: Metric)
    requires cfg.window > 0
  {
    if evs == [] then m == NEW_METRIC
    else
      var t := Top(evs, cfg.window);
      var ports := PortsIn(evs, t, cfg.window);
      && m.start == Some(t * Span(cfg.window))
      && m.value == |ports| as real
      && m.extra == Extra(ports, |ports| > cfg.threshold)
  }

  // A detection belongs to the event that brings the distinct count to threshold + 1.
  ghost function Expected(cfg: Config, p: seq<Event>, e: Event): Option<Detection>
    requires cfg.window > 0
  {
    var k := Slot(e.ts, cfg.window);
    var ports := PortsIn(p, k, cfg.window);
    if Accepts(p, e, cfg.window) && e.dstPort !in ports && |ports| == cfg.threshold then
      Some(Detection(e.id, e.src, "port_velocity", 1,
                     PortDetails(k * Span(cfg.window), cfg.threshold + 1, cfg.threshold, Shown(ports + {e.dstPort}),
                                 ScoreDistinctPorts(cfg.threshold + 1, cfg.threshold))))
    else None
  }

  // Recording an accepted event in the bucket it belongs to.
  lemma StepInBucket(cfg: Config, p: seq<Event>, m: Metric, e: Event)
    requires cfg.window > 0 && Accepts(p, e, cfg.window)
    requires m.start.Some? ==> m.start.value <= BucketStartFor(e.ts, cfg.window)
    requires var k, r := Slot(e.ts, cfg.window), Roll(m, e.ts, cfg.window);
      && r.start == Some(k * Span(cfg.window))
      && r.extra == Extra(PortsIn(p, k, cfg.window), |PortsIn(p, k, cfg.window)| > cfg.threshold)
    requires Top(p + [e], cfg.window) == Slot(e.ts, cfg.window)
    ensures Describes(cfg, p + [e], Step(cfg, m, e).metric)
    ensures Step(cfg, m, e).detection == Expected(cfg, p, e)
  {
    hide Accepts, Slot, Roll, Top, PortsIn, BucketStartFor, Shown, ScoreDistinctPorts, Span;
    var k := Slot(e.ts, cfg.window);
    PortsSnoc(p, e, k, cfg.window);
    AddMember(PortsIn(p, k, cfg.window), e.dstPort);
    var rolled := Roll(m, e.ts, cfg.window);
    RecordPort(cfg, rolled, e);
  }

  // The effect of recording one port on a bucket whose flag is in step with its ports.
  lemma RecordPort(cfg: Config, rolled: Metric, e: Event)
    requires rolled.start.Some? && rolled.extra.fired == (|rolled.extra.ports| > cfg.threshold)
    ensures var ports := rolled.extra.ports + {e.dstPort};
      && (rolled.extra.fired || |ports| > cfg.threshold <==> |ports| > cfg.threshold)
      && (!rolled.extra.fired && |ports| > cfg.threshold
          <==> e.dstPort !in rolled.extra.ports && |rolled.extra.ports| == cfg.threshold)
      && (e.dstPort !in rolled.extra.ports ==> |ports| == |rolled.extra.ports| + 1)
  {
    AddMember(rolled.extra.ports, e.dstPort);
  }

  lemma LateEvent(cfg: Config, p: seq<Event>, m: Metric, e: Event)
    requires cfg.window > 0 && p != [] && Describes(cfg, p, m) && !Accepts(p, e, cfg.window)
    ensures Describes(cfg, p + [e], Step(cfg, m, e).metric)
    ensures Step(cfg, m, e).detection == None
  {
    var w, t := cfg.window, Top(p, cfg.window);
    TopSnoc(p, e, w);
    AcceptsIsTop(p, e, w);
    BucketStartIsSlotStart(e.ts, w);
    SlotOrder(Slot(e.ts, w), t, w);
    PortsSnoc(p, e, t, w);
    assert PortsIn(p, t, w) + {} == PortsIn(p, t, w);
  }

  // One event keeps the description true and reports exactly what is expected.
  lemma StepRefines(cfg: Config, p: seq<Event>, m: Metric, e: Event)
    requires cfg.window > 0 && Describes(cfg, p, m)
    ensures Describes(cfg, p + [e], Step(cfg, m, e).metric)
    ensures Step(cfg, m, e).detection == Expected(cfg, p, e)
  {
    var w, k := cfg.window, Slot(e.ts, cfg.window);
    BucketStartIsSlotStart(e.ts, w);
    if p == [] {
      assert Front([e]) == [] && p + [e] == [e];
      assert AcceptedIn(p, k, w) == {};
      StepInBucket(cfg, p, m, e);
    } else {
      var t := Top(p, w);
      TopSnoc(p, e, w);
      AcceptsIsTop(p, e, w);
      if k < t {
        LateEvent(cfg, p, m, e);
      } else {
        RollReaches(m, t, e.ts, w);
        SlotOrder(k, t, w);
        if t < k {
          PortsOutside(p, k, w);
        }
        StepInBucket(cfg, p, m, e);
      }
    }
  }

  // ---- once per bucket --------------------------------------------------------------

  ghost function ExpectedAll(cfg: Config, evs: seq<Event>): seq<Detection>
    requires cfg.window > 0
  {
    if evs == [] then []
    else
      ExpectedAll(cfg, Front(evs)) + Listed(Expected(cfg, Front(evs), Last(evs)))
  }

  // The listed ports are the lowest of some n of the given ones.
  ghost predicate ListsSome(listed: seq<int>, n: nat, ports: set<int>) {
    exists some: set<int> :: some <= ports && |some| == n && listed == Shown(some)
  }

  lemma ListsAll(ports: set<int>)
    ensures ListsSome(Shown(ports), |ports|, ports)
  {
  }

  lemma ListsSomeOfMore(listed: seq<int>, n: nat, ports: set<int>, more: set<int>)
    requires ListsSome(listed, n, ports) && ports <= more
    ensures ListsSome(listed, n, more)
  {
    hide Shown;
    var some: set<int> :| some <= ports && |some| == n && listed == Shown(some);
    assert some <= more;
  }

  // A report lists, in ascending order, at most 32 ports: the lowest of those it is about.
  lemma ShownAreLowest(ports: set<int>, x: int, i: nat)
    ensures |Shown(ports)| == if |ports| < 32 then |ports| else 32
    ensures forall j, k :: 0 <= j < k < |Shown(ports)| ==> Shown(ports)[j] < Shown(ports)[k]
    ensures i < |Shown(ports)| ==> Shown(ports)[i] in ports
    ensures x in ports && x !in Shown(ports) ==> forall j :: 0 <= j < |Shown(ports)| ==> Shown(ports)[j] < x
  {
    var all := Ascending(ports);
    assert forall j :: 0 <= j < |Shown(ports)| ==> Shown(ports)[j] == all[j];
    if x in ports && x !in Shown(ports) {
      var k :| 0 <= k < |all| && all[k] == x;
      assert k >= |Shown(ports)|;
    }
  }

  // A report of a sweep: about threshold + 1 distinct ports out of the given ones.
  ghost predicate SweepReport(cfg: Config, d: Details, start: int, ports: set<int>) {
    && d.PortDetails? && d.bucketStart == start && d.distinct == cfg.threshold + 1
    && ListsSome(d.ports, cfg.threshold + 1, ports)
  }

  // A bucket is reported exactly when it ever holds more than threshold distinct ports, then
  // exactly once, and the report always shows threshold + 1 of them.
  lemma {:induction false} OncePerBucket(cfg: Config, evs: seq<Event>, k: nat)
    requires cfg.window > 0
    ensures var reports, ports := ReportsFor(ExpectedAll(cfg, evs), k * Span(cfg.window)), PortsIn(evs, k, cfg.window);
      if |ports| > cfg.threshold
      then |reports| == 1 && SweepReport(cfg, reports[0], k * Span(cfg.window), ports)
      else reports == []
  {
    hide Expected, SweepReport, PortsIn, Accepts, Slot, Span, ReportsFor, ExpectedAll;
    var w, start := cfg.window, k * Span(cfg.window);
    if evs == [] {
      NothingReported(cfg, k);
    } else {
      var p, e := Front(evs), Last(evs);
      FrontLast(evs);
      OncePerBucket(cfg, p, k);
      PortsSnoc(p, e, k, w);
      ReportsOfNext(cfg, p, e, k);
      var ports, d := PortsIn(p, k, w), Expected(cfg, p, e);
      if Accepts(p, e, w) && Slot(e.ts, w) == k {
        ExpectedIff(cfg, p, e);
        AddMember(ports, e.dstPort);
        if |ports| > cfg.threshold {
          ReportOfMore(cfg, ReportsFor(ExpectedAll(cfg, p), start)[0], start, ports, ports + {e.dstPort});
        }
      } else {
        ExpectedPlace(cfg, p, e);
        assert PortsIn(evs, k, w) == ports;
      }
    }
  }

  lemma NothingReported(cfg: Config, k: nat)
    requires cfg.window > 0
    ensures PortsIn([], k, cfg.window) == {} && ReportsFor(ExpectedAll(cfg, []), k * Span(cfg.window)) == []
  {
    assert AcceptedIn([], k, cfg.window) == {};
  }

  // An accepted event is reported exactly when it brings the distinct count past the threshold.
  lemma ExpectedIff(cfg: Config, p: seq<Event>, e: Event)
    requires cfg.window > 0 && Accepts(p, e, cfg.window)
    ensures var k := Slot(e.ts, cfg.window);
      var ports := PortsIn(p, k, cfg.window);
      && (Expected(cfg, p, e).Some? <==> e.dstPort !in ports && |ports| == cfg.threshold)
      && (Expected(cfg, p, e).Some?
          ==> SweepReport(cfg, Expected(cfg, p, e).value.details, k * Span(cfg.window), ports + {e.dstPort}))
  {
    hide Accepts, Slot, Span, PortsIn, Shown, ScoreDistinctPorts;
    var ports := PortsIn(p, Slot(e.ts, cfg.window), cfg.window);
    AddMember(ports, e.dstPort);
    ListsAll(ports + {e.dstPort});
  }

  // A report stays one of its bucket when the bucket gets more ports.
  lemma ReportOfMore(cfg: Config, d: Details, start: int, ports: set<int>, more: set<int>)
    requires SweepReport(cfg, d, start, ports) && ports <= more
    ensures SweepReport(cfg, d, start, more)
  {
    ListsSomeOfMore(d.ports, cfg.threshold + 1, ports, more);
  }

  lemma ReportsOfNext(cfg: Config, p: seq<Event>, e: Event, k: nat)
    requires cfg.window > 0
    ensures var start, d := k * Span(cfg.window), Expected(cfg, p, e);
      ReportsFor(ExpectedAll(cfg, p + [e]), start)
      == ReportsFor(ExpectedAll(cfg, p), start)
         + if d.Some? && Slot(e.ts, cfg.window) == k then [d.value.details] else []
  {
    hide Expected, Slot, Span, ReportsFor, Accepts;
    var start, d := k * Span(cfg.window), Expected(cfg, p, e);
    Snoc(p, e);
    ReportsSnoc(ExpectedAll(cfg, p), d, start);
    ExpectedPlace(cfg, p, e);
    if d.Some? && d.value.details.bucketStart == start {
      SpanInjective(Slot(e.ts, cfg.window), k, cfg.window);
    }
  }

  // A report is of the bucket of the accepted event that causes it.
  lemma ExpectedPlace(cfg: Config, p: seq<Event>, e: Event)
    requires cfg.window > 0
    ensures Expected(cfg, p, e).Some?
        ==> Accepts(p, e, cfg.window)
            && Expected(cfg, p, e).value.details.bucketStart == Slot(e.ts, cfg.window) * Span(cfg.window)
  {
  }

  lemma {:induction false} ReportsInReach(cfg: Config, evs: seq<Event>)
    requires cfg.window > 0 && evs != []
    ensures InOrder(ExpectedAll(cfg, evs), Top(evs, cfg.window) * Span(cfg.window))
  {
    hide Expected, Top, Slot, Span, Accepts, InOrder;
    var w, p, e := cfg.window, Front(evs), Last(evs);
    FrontLast(evs);
    ExpectedPlace(cfg, p, e);
    if p != [] {
      ReportsInReach(cfg, p);
      TopSnoc(p, e, w);
      AcceptsIsTop(p, e, w);
      SlotOrder(Top(evs, w), Top(p, w), w);
      InOrderSnoc(ExpectedAll(cfg, p), Expected(cfg, p, e), Top(p, w) * Span(w), Top(evs, w) * Span(w));
    } else {
      TopOfOne(e, w);
      NothingInOrder(Top(evs, w) * Span(w));
      InOrderSnoc([], Expected(cfg, p, e), Top(evs, w) * Span(w), Top(evs, w) * Span(w));
    }
  }

  lemma {:induction false} ReportBucket(cfg: Config, evs: seq<Event>, i: nat) returns (k: nat)
    requires cfg.window > 0 && i < |ExpectedAll(cfg, evs)|
    ensures ExpectedAll(cfg, evs)[i].details.bucketStart == k * Span(cfg.window)
  {
    if i < |ExpectedAll(cfg, Front(evs))| {
      k := ReportBucket(cfg, Front(evs), i);
    } else {
      k := Slot(Last(evs).ts, cfg.window);
    }
  }

  // The detections of one entity come from strictly later and later buckets.
  lemma BucketsIncrease(cfg: Config, evs: seq<Event>)
    requires cfg.window > 0 && evs != []
    ensures BucketsStrictlyIncrease(ExpectedAll(cfg, evs))
  {
    hide ExpectedAll, PortsIn, Count, Top, ReportsFor;
    var ds := ExpectedAll(cfg, evs);
    ReportsInReach(cfg, evs);
    forall i, j | 0 <= i < j < |ds| && ds[i].details.bucketStart == ds[j].details.bucketStart
      ensures |ReportsFor(ds, ds[i].details.bucketStart)| <= 1
    {
      var k := ReportBucket(cfg, evs, i);
      OncePerBucket(cfg, evs, k);
    }
    OneEachIsStrict(ds, Top(evs, cfg.window) * Span(cfg.window));
  }
}
