/**
 The declarative reading of an entity's event sequence: which events count, in which
 bucket, and what the history before a bucket is. Nothing here mentions detector state.
 */
module BucketHistory {
  import opened Common
  import opened DetectorBase

  // An event is late when an earlier-processed event lies in a later bucket.
  ghost predicate Accepts(p: seq<Event>, e: Event, window: nat)
    requires window > 0
  {
    forall j :: 0 <= j < |p| ==> Slot(p[j].ts, window) <= Slot(e.ts, window)
  }

  // The positions of the accepted events.
  ghost function Accepted(evs: seq<Event>, window: nat): set<nat>
    requires window > 0
  {
    set i | 0 <= i < |evs| && Accepts(evs[..i], evs[i], window)
  }

  // The positions of the accepted events of bucket k.
  ghost function AcceptedIn(evs: seq<Event>, k: nat, window: nat): set<nat>
    requires window > 0
  {
    set i | i in Accepted(evs, window) && Slot(evs[i].ts, window) == k
  }

  ghost function Count(evs: seq<Event>, k: nat, window: nat): nat
    requires window > 0
  {
    |AcceptedIn(evs, k, window)|
  }

  ghost function First(evs: seq<Event>, window: nat): nat
    requires window > 0 && evs != []
  {
    Slot(evs[0].ts, window)
  }

  // The latest bucket reached.
  ghost function Top(evs: seq<Event>, window: nat): (t: nat)
    requires window > 0 && evs != []
    ensures forall i :: 0 <= i < |evs| ==> Slot(evs[i].ts, window) <= t
    ensures exists i :: 0 <= i < |evs| && Slot(evs[i].ts, window) == t
  {
    var last := Slot(Last(evs).ts, window);
    if |evs| == 1 then last
    else
      var t := Top(Front(evs), window);
      assert forall i :: 0 <= i < |evs| - 1 ==> evs[i] == Front(evs)[i];
      if t < last then last else t
  }

  // The event counts of the buckets before k, empty ones included.
  ghost function HistoryBefore(evs: seq<Event>, k: nat, window: nat): seq<real>
    requires window > 0 && evs != [] && First(evs, window) <= k
  {
    seq(k - First(evs, window), i requires 0 <= i => Count(evs, First(evs, window) + i, window) as real)
  }

  lemma AcceptsIsTop(p: seq<Event>, e: Event, window: nat)
    requires window > 0 && p != []
    ensures Accepts(p, e, window) <==> Top(p, window) <= Slot(e.ts, window)
  {
  }

  lemma AcceptedSnoc(p: seq<Event>, e: Event, window: nat)
    requires window > 0
    ensures Accepted(p + [e], window) == Accepted(p, window) + (if Accepts(p, e, window) then {|p|} else {})
  {
    var q := p + [e];
    assert forall i :: 0 <= i < |p| ==> q[..i] == p[..i] && q[i] == p[i];
    assert q[..|p|] == p;
  }

  lemma AcceptedInSnoc(p: seq<Event>, e: Event, k: nat, window: nat)
    requires window > 0
    ensures AcceptedIn(p + [e], k, window)
         == AcceptedIn(p, k, window) + if Accepts(p, e, window) && Slot(e.ts, window) == k then {|p|} else {}
    ensures |p| !in AcceptedIn(p, k, window)
  {
    hide Accepts, Slot;
    AcceptedSnoc(p, e, window);
    assert forall i :: 0 <= i < |p| ==> (p + [e])[i] == p[i];
  }

  lemma CountSnoc(p: seq<Event>, e: Event, k: nat, window: nat)
    requires window > 0
    ensures Count(p + [e], k, window)
         == Count(p, k, window) + if Accepts(p, e, window) && Slot(e.ts, window) == k then 1 else 0
  {
    hide Accepts, Slot, AcceptedIn;
    AcceptedInSnoc(p, e, k, window);
  }

  lemma AcceptedInRange(evs: seq<Event>, i: nat, window: nat)
    requires window > 0 && i in Accepted(evs, window)
    ensures First(evs, window) <= Slot(evs[i].ts, window) <= Top(evs, window)
  {
    if i > 0 {
      assert evs[..i][0] == evs[0];
    }
  }

  lemma CountOutside(evs: seq<Event>, k: nat, window: nat)
    requires window > 0 && evs != [] && !(First(evs, window) <= k <= Top(evs, window))
    ensures Count(evs, k, window) == 0
  {
    forall i | i in Accepted(evs, window)
      ensures First(evs, window) <= Slot(evs[i].ts, window) <= Top(evs, window)
    {
      AcceptedInRange(evs, i, window);
    }
    assert AcceptedIn(evs, k, window) == {};
  }

  lemma TopSnoc(p: seq<Event>, e: Event, window: nat)
    requires window > 0 && p != []
    ensures First(p + [e], window) == First(p, window) <= Top(p, window)
    ensures Top(p + [e], window) == if Accepts(p, e, window) then Slot(e.ts, window) else Top(p, window)
  {
    assert Front(p + [e]) == p;
    AcceptsIsTop(p, e, window);
  }

  // Buckets already left behind keep their counts.
  lemma HistorySettled(p: seq<Event>, e: Event, k: nat, window: nat)
    requires window > 0 && p != [] && First(p, window) <= k
    requires !Accepts(p, e, window) || k <= Slot(e.ts, window)
    ensures First(p + [e], window) == First(p, window)
    ensures HistoryBefore(p + [e], k, window) == HistoryBefore(p, k, window)
  {
    var f := First(p, window);
    forall b: nat | f <= b < k
      ensures Count(p + [e], b, window) == Count(p, b, window)
    {
      CountSnoc(p, e, b, window);
    }
    var g, h := HistoryBefore(p + [e], k, window), HistoryBefore(p, k, window);
    forall i | 0 <= i < |h|
      ensures g[i] == h[i]
    {
      assert h[i] == Count(p, f + i, window) as real;
    }
  }

  // Opening a later bucket appends the live count and a zero for every bucket skipped.
  lemma HistoryGrows(p: seq<Event>, e: Event, window: nat)
    requires window > 0 && p != [] && Top(p, window) < Slot(e.ts, window)
    ensures First(p, window) <= Top(p, window) && First(p + [e], window) == First(p, window)
    ensures var k, t := Slot(e.ts, window), Top(p, window);
      HistoryBefore(p + [e], k, window)
      == HistoryBefore(p, t, window) + ([Count(p, t, window) as real] + Zeros(k - t - 1))
  {
    hide Count, Top, Slot, Accepts;
    TopSnoc(p, e, window);
    HistorySettled(p, e, Slot(e.ts, window), window);
    HistoryPastTop(p, Slot(e.ts, window), window);
  }

  // Past the latest bucket the history goes on with that bucket's count and zeros.
  lemma HistoryPastTop(p: seq<Event>, k: nat, window: nat)
    requires window > 0 && p != [] && First(p, window) <= Top(p, window) < k
    ensures var t := Top(p, window);
      HistoryBefore(p, k, window) == HistoryBefore(p, t, window) + ([Count(p, t, window) as real] + Zeros(k - t - 1))
  {
    hide Count, Top, First, Slot;
    var t, f := Top(p, window), First(p, window);
    var h := HistoryBefore(p, t, window) + ([Count(p, t, window) as real] + Zeros(k - t - 1));
    forall i | 0 <= i < |h|
      ensures HistoryBefore(p, k, window)[i] == h[i]
    {
      if f + i > t {
        CountOutside(p, f + i, window);
      }
    }
  }

  // The accepted events of the buckets before k.
  ghost function AcceptedBelow(evs: seq<Event>, k: nat, window: nat): set<nat>
    requires window > 0
  {
    set i | i in Accepted(evs, window) && Slot(evs[i].ts, window) < k
  }

  lemma BelowNext(evs: seq<Event>, k: nat, window: nat)
    requires window > 0
    ensures |AcceptedBelow(evs, k + 1, window)| == |AcceptedBelow(evs, k, window)| + Count(evs, k, window)
  {
    var low, here := AcceptedBelow(evs, k, window), AcceptedIn(evs, k, window);
    assert AcceptedBelow(evs, k + 1, window) == low + here;
    assert low !! here;
  }

  lemma {:induction false} CountsAddUpBelow(evs: seq<Event>, k: nat, window: nat)
    requires window > 0 && evs != [] && First(evs, window) <= k
    ensures Sum(HistoryBefore(evs, k, window)) == |AcceptedBelow(evs, k, window)| as real
  {
    if k == First(evs, window) {
      forall i | i in Accepted(evs, window)
        ensures k <= Slot(evs[i].ts, window)
      {
        AcceptedInRange(evs, i, window);
      }
      assert AcceptedBelow(evs, k, window) == {};
    } else {
      CountsAddUpBelow(evs, k - 1, window);
      BelowNext(evs, k - 1, window);
      var h := HistoryBefore(evs, k, window);
      assert Front(h) == HistoryBefore(evs, k - 1, window);
      assert Last(h) == Count(evs, k - 1, window) as real;
    }
  }

  // Every accepted event sits in exactly one bucket: the bucket counts add up.
  lemma CountsAddUp(evs: seq<Event>, window: nat)
    requires window > 0 && evs != []
    ensures First(evs, window) <= Top(evs, window)
    ensures Sum(HistoryBefore(evs, Top(evs, window), window)) + Count(evs, Top(evs, window), window) as real
         == |Accepted(evs, window)| as real
  {
    var t := Top(evs, window);
    assert First(evs, window) <= t;
    CountsAddUpBelow(evs, t, window);
    BelowNext(evs, t, window);
    assert AcceptedBelow(evs, t + 1, window) == Accepted(evs, window);
  }

  lemma SpanInjective(a: nat, b: nat, window: nat)
    requires window > 0 && a * Span(window) == b * Span(window)
    ensures a == b
  {
    SlotOrder(a, b, window);
    SlotOrder(b, a, window);
  }

  // ---- reports by bucket --------------------------------------------------------------

  // The reports of one bucket, in order.
  ghost function ReportsFor(ds: seq<Detection>, start: int): seq<Details> {
    if ds == [] then []
    else ReportsFor(Front(ds), start)
         + if Last(ds).details.bucketStart == start then [Last(ds).details] else []
  }

  lemma ReportsSnoc(ds: seq<Detection>, d: Option<Detection>, start: int)
    ensures ReportsFor(ds + Listed(d), start)
         == ReportsFor(ds, start) + if d.Some? && d.value.details.bucketStart == start then [d.value.details] else []
  {
    if d.Some? {
      Snoc(ds, d.value);
    } else {
      assert ds + [] == ds;
    }
  }

  // Bucket starts never go back and none lies past the limit.
  ghost predicate InOrder(ds: seq<Detection>, limit: int) {
    && (forall i, j :: 0 <= i < j < |ds| ==> ds[i].details.bucketStart <= ds[j].details.bucketStart)
    && (forall i :: 0 <= i < |ds| ==> ds[i].details.bucketStart <= limit)
  }

  lemma InOrderSnoc(ds: seq<Detection>, d: Option<Detection>, low: int, limit: int)
    requires InOrder(ds, low) && low <= limit && (d.Some? ==> d.value.details.bucketStart == limit)
    ensures InOrder(ds + Listed(d), limit)
  {
  }

  lemma NothingInOrder(limit: int)
    ensures InOrder([], limit)
  {
  }

  lemma TopOfOne(e: Event, window: nat)
    requires window > 0
    ensures Top([e], window) == Slot(e.ts, window)
  {
  }

  ghost predicate BucketsStrictlyIncrease(ds: seq<Detection>) {
    forall i, j :: 0 <= i < j < |ds| ==> ds[i].details.bucketStart < ds[j].details.bucketStart
  }

  lemma {:induction false} ReportsCounted(ds: seq<Detection>, start: int, i: nat)
    requires i < |ds| && ds[i].details.bucketStart == start
    ensures |ReportsFor(ds, start)| >= 1
    ensures forall j :: i < j < |ds| && ds[j].details.bucketStart == start ==> |ReportsFor(ds, start)| >= 2
  {
    if i < |ds| - 1 {
      ReportsCounted(Front(ds), start, i);
      assert forall j :: 0 <= j < |ds| - 1 ==> Front(ds)[j] == ds[j];
    }
  }

  lemma OneEachIsStrict(ds: seq<Detection>, limit: int)
    requires InOrder(ds, limit)
    requires forall i, j :: 0 <= i < j < |ds| && ds[i].details.bucketStart == ds[j].details.bucketStart
                        ==> |ReportsFor(ds, ds[i].details.bucketStart)| <= 1
    ensures BucketsStrictlyIncrease(ds)
  {
    forall i, j | 0 <= i < j < |ds|
      ensures ds[i].details.bucketStart < ds[j].details.bucketStart
    {
      ReportsCounted(ds, ds[i].details.bucketStart, i);
    }
  }
}
