/**
 The correlation worker: clusters the detections past a cursor into incidents. A watermark
 holds back recent detections, and the cursor moves to the largest id it read.
 */
module Correlator {
  import opened Common
  import opened CorrelationRules

  datatype Incident = Incident(draft: IncidentDraft, links: seq<nat>)

  datatype Db = Db(detections: seq<Fact>, incidents: seq<Incident>, cursor: nat)

  const EMPTY_DB := Db([], [], 0)

  // What a tick is told: whether the watermark is bypassed, the time, and the batch limit.
  datatype TickArgs = TickArgs(force: bool, now: int, limit: nat)

  predicate Released(f: Fact, window: int, args: TickArgs) {
    args.force || f.eventTs <= args.now - window
  }

  function Candidates(ds: seq<Fact>, cursor: nat, window: int, args: TickArgs): seq<Fact> {
    if ds == [] then []
    else
      var c := Candidates(Front(ds), cursor, window, args);
      if Last(ds).detectionId > cursor && Released(Last(ds), window, args) then c + [Last(ds)] else c
  }

  function Fetch(db: Db, window: int, args: TickArgs): seq<Fact> {
    Limit(Candidates(db.detections, db.cursor, window, args), args.limit)
  }

  function MaxId(rows: seq<Fact>): nat {
    if rows == [] then 0
    else var m := MaxId(Front(rows)); if Last(rows).detectionId < m then m else Last(rows).detectionId
  }

  function IncidentFor(cluster: seq<Fact>): Incident
    requires cluster != []
  {
    var draft := BuildIncidentDraft(cluster);
    Incident(draft, draft.detectionIds)
  }

  ghost function IncidentsFor(clusters: seq<seq<Fact>>): seq<Incident>
    requires NonEmpty(clusters)
  {
    seq(|clusters|, i requires 0 <= i < |clusters| => IncidentFor(clusters[i]))
  }

  ghost function TickDb(db: Db, window: int, args: TickArgs): Db {
    var rows := Fetch(db, window, args);
    if rows == [] then db
    else
      ClustersPartition(rows, window);
      Db(db.detections, db.incidents + IncidentsFor(Clusters(rows, window)), MaxId(rows))
  }

  class CorrelationWorker {
    const windowSeconds: int
    var store: Db

    constructor (windowSeconds: int, store: Db)
      ensures this.windowSeconds == windowSeconds && this.store == store
    {
      this.windowSeconds, this.store := windowSeconds, store;
    }

    method Tick(args: TickArgs) returns (detections: nat, created: nat)
      modifies this
      ensures store == TickDb(old(store), windowSeconds, args)
      ensures detections == |Fetch(old(store), windowSeconds, args)|
      ensures created == |store.incidents| - |old(store).incidents|
    {
      hide Fetch, Clusters, BuildIncidentDraft, MaxId;
      var rows := Fetch(store, windowSeconds, args);
      detections, created := |rows|, 0;
      if rows == [] {
        return;
      }
      var clusters := ClusterByEntityAndTime(rows, windowSeconds);
      ClustersPartition(rows, windowSeconds);
      var incidents: seq<Incident> := [];
      for i := 0 to |clusters|
        invariant incidents == IncidentsFor(clusters)[..i] && created == i
      {
        var draft := BuildIncidentDraft(clusters[i]);
        incidents := incidents + [Incident(draft, draft.detectionIds)];
        created := created + 1;
      }
      store := Db(store.detections, store.incidents + incidents, MaxId(rows));
    }
  }

  // ---- runs ---------------------------------------------------------------------------------

  datatype Action = Detect(fact: Fact) | Correlate(args: TickArgs)

  ghost function Apply(db: Db, window: int, a: Action): Db {
    match a
    case Detect(f) => if f.detectionId > MaxId(db.detections) then db.(detections := db.detections + [f]) else db
    case Correlate(args) => TickDb(db, window, args)
  }

  ghost function RunActions(actions: seq<Action>, window: int): Db {
    if actions == [] then EMPTY_DB else Apply(RunActions(Front(actions), window), window, Last(actions))
  }

  ghost function Links(incidents: seq<Incident>): seq<nat> {
    if incidents == [] then [] else Links(Front(incidents)) + Last(incidents).links
  }

  ghost predicate IncreasingIds(ds: seq<Fact>) {
    forall i, j :: 0 <= i < j < |ds| ==> ds[i].detectionId < ds[j].detectionId
  }

  // Links are distinct, counted, and only of detections at or below the cursor.
  ghost predicate WellLinked(db: Db) {
    && IncreasingIds(db.detections)
    && (forall f :: f in db.detections ==> f.detectionId > 0)
    && Distinct(Links(db.incidents))
    && (forall id :: id in Links(db.incidents) ==>
          id <= db.cursor && exists f :: f in db.detections && f.detectionId == id)
    && (forall inc :: inc in db.incidents ==> inc.draft.detectionCount == |inc.links|)
  }

  // Every detection the cursor has passed is evidence of an incident.
  ghost predicate Accounted(db: Db) {
    forall f :: f in db.detections && f.detectionId <= db.cursor ==> f.detectionId in Links(db.incidents)
  }

  // The released detections above the cursor whose id is below this one.
  ghost function ReleasedBefore(db: Db, window: int, args: TickArgs, id: nat): set<nat> {
    set f | f in db.detections && db.cursor < f.detectionId < id && Released(f, window, args) :: f.detectionId
  }

  // One of the first `limit` released detections above the cursor.
  ghost predicate Due(db: Db, window: int, args: TickArgs, g: Fact) {
    && g in db.detections && db.cursor < g.detectionId && Released(g, window, args)
    && |ReleasedBefore(db, window, args, g.detectionId)| < args.limit
  }

  // Above the cursor a held-back detection has a lower id than one that is due.
  ghost predicate Skips(db: Db, window: int, args: TickArgs) {
    exists f, g :: f in db.detections && db.cursor < f.detectionId && !Released(f, window, args)
                   && Due(db, window, args, g) && f.detectionId < g.detectionId
  }

  ghost predicate SkipsIn(actions: seq<Action>, window: int) {
    actions != [] &&
    (SkipsIn(Front(actions), window)
     || (Last(actions).Correlate? && Skips(RunActions(Front(actions), window), window, Last(actions).args)))
  }

  // ---- what a fetch reads ------------------------------------------------------------------

  lemma {:induction false} CandidatesAre(ds: seq<Fact>, cursor: nat, window: int, args: TickArgs)
    requires IncreasingIds(ds)
    ensures var c := Candidates(ds, cursor, window, args);
      && (forall f :: f in c <==> f in ds && f.detectionId > cursor && Released(f, window, args))
      && IncreasingIds(c)
  {
    if ds != [] {
      FrontLast(ds);
      CandidatesAre(Front(ds), cursor, window, args);
      var c := Candidates(Front(ds), cursor, window, args);
      forall i | 0 <= i < |c|
        ensures c[i].detectionId < Last(ds).detectionId
      {
        assert c[i] in Front(ds);
      }
    }
  }

  lemma {:induction false} MaxIdBounds(rows: seq<Fact>)
    ensures forall f :: f in rows ==> f.detectionId <= MaxId(rows)
    ensures rows != [] ==> exists f :: f in rows && f.detectionId == MaxId(rows)
    ensures rows == [] ==> MaxId(rows) == 0
  {
    if rows != [] {
      FrontLast(rows);
      MaxIdBounds(Front(rows));
      assert Last(rows) in rows;
    }
  }

  lemma PrefixBelowRest(c: seq<Fact>, k: nat)
    requires IncreasingIds(c) && k <= |c| && forall f :: f in c ==> f.detectionId > 0
    ensures forall i :: k <= i < |c| ==> c[i].detectionId > MaxId(c[..k])
  {
    MaxIdBounds(c[..k]);
    if k > 0 {
      var g :| g in c[..k] && g.detectionId == MaxId(c[..k]);
      var j :| 0 <= j < k && c[..k][j] == g;
      assert c[j] == g;
    } else {
      assert forall i :: 0 <= i < |c| ==> c[i] in c;
    }
  }

  // A fetch reads exactly the released detections between the cursor and its largest id.
  lemma FetchIsPrefix(db: Db, window: int, args: TickArgs)
    requires IncreasingIds(db.detections)
    ensures var rows := Fetch(db, window, args);
      && IncreasingIds(rows)
      && (forall f :: f in rows ==> f in db.detections && f.detectionId > db.cursor && Released(f, window, args))
      && (forall f :: f in db.detections && db.cursor < f.detectionId <= MaxId(rows) && Released(f, window, args)
                      ==> f in rows)
  {
    hide Candidates, Released, MaxId;
    CandidatesAre(db.detections, db.cursor, window, args);
    var c := Candidates(db.detections, db.cursor, window, args);
    var k := if |c| <= args.limit then |c| else args.limit;
    assert Fetch(db, window, args) == c[..k];
    PrefixBelowRest(c, k);
    forall f | f in c && f.detectionId <= MaxId(c[..k])
      ensures f in c[..k]
    {
      var i :| 0 <= i < |c| && c[i] == f;
      assert i < k && c[..k][i] == f;
    }
  }

  // ---- the new links are the fetched ids ---------------------------------------------------

  lemma LinksSnoc(a: seq<Incident>, inc: Incident)
    ensures Links(a + [inc]) == Links(a) + inc.links
  {
    assert Front(a + [inc]) == a && Last(a + [inc]) == inc;
  }

  lemma NoLinks()
    ensures Links([]) == []
  {
  }

  lemma {:induction false} LinksAppend(a: seq<Incident>, b: seq<Incident>)
    ensures Links(a + b) == Links(a) + Links(b)
  {
    hide Links;
    NoLinks();
    if b == [] {
      assert a + b == a;
    } else {
      var f, l := Front(b), Last(b);
      LinksAppend(a, f);
      FrontLast(b);
      assert a + b == (a + f) + [l];
      LinksSnoc(a + f, l);
      LinksSnoc(f, l);
    }
  }

  lemma {:induction false} LinksOfClusters(clusters: seq<seq<Fact>>)
    requires NonEmpty(clusters)
    ensures multiset(Links(IncidentsFor(clusters))) == multiset(Ids(Flatten(clusters)))
  {
    hide BuildIncidentDraft, Links;
    if clusters == [] {
      assert Links([]) == [] by { NoLinks(); }
    } else {
      var f, l := Front(clusters), Last(clusters);
      LinksOfClusters(f);
      assert IncidentsFor(clusters) == IncidentsFor(f) + [IncidentFor(l)];
      LinksSnoc(IncidentsFor(f), IncidentFor(l));
      DraftLinks(l);
      assert Ids(Flatten(clusters)) == Ids(Flatten(f)) + Ids(l);
    }
  }

  lemma {:induction false} IdsOfPermutation(a: seq<Fact>, b: seq<Fact>)
    requires multiset(a) == multiset(b)
    ensures multiset(Ids(a)) == multiset(Ids(b))
  {
    assert |a| == |multiset(a)| == |multiset(b)| == |b|;
    if a != [] {
      var i := RemoveLastOf(a, b);
      IdsOfPermutation(Front(a), b[..i] + b[i + 1..]);
      assert Ids(a) == Ids(Front(a)) + [Last(a).detectionId];
      IdsWithout(b, i);
    }
  }

  lemma IdsWithout(b: seq<Fact>, i: nat)
    requires i < |b|
    ensures multiset(Ids(b)) == multiset(Ids(b[..i] + b[i + 1..])) + multiset{b[i].detectionId}
  {
    assert Ids(b) == Ids(b[..i]) + [b[i].detectionId] + Ids(b[i + 1..]);
    assert Ids(b[..i] + b[i + 1..]) == Ids(b[..i]) + Ids(b[i + 1..]);
  }

  lemma TickLinks(db: Db, window: int, args: TickArgs)
    ensures var rows := Fetch(db, window, args);
      multiset(Links(TickDb(db, window, args).incidents)) == multiset(Links(db.incidents)) + multiset(Ids(rows))
  {
    var rows := Fetch(db, window, args);
    if rows != [] {
      ClustersPartition(rows, window);
      var clusters := Clusters(rows, window);
      LinksAppend(db.incidents, IncidentsFor(clusters));
      LinksOfClusters(clusters);
      IdsOfPermutation(Flatten(clusters), rows);
    }
  }

  lemma IdListed(rows: seq<Fact>, id: nat)
    ensures id in Ids(rows) <==> exists f :: f in rows && f.detectionId == id
  {
    if id in Ids(rows) {
      var i :| 0 <= i < |rows| && Ids(rows)[i] == id;
      assert rows[i] in rows && rows[i].detectionId == id;
    }
    if exists f :: f in rows && f.detectionId == id {
      var f :| f in rows && f.detectionId == id;
      var i :| 0 <= i < |rows| && rows[i] == f;
      assert Ids(rows)[i] == id;
    }
  }

  lemma LinkedAfter(db: Db, window: int, args: TickArgs, id: nat)
    ensures id in Links(TickDb(db, window, args).incidents)
       <==> id in Links(db.incidents) || exists f :: f in Fetch(db, window, args) && f.detectionId == id
  {
    var rows := Fetch(db, window, args);
    TickLinks(db, window, args);
    IdListed(rows, id);
    var after := Links(TickDb(db, window, args).incidents);
    assert id in after <==> id in multiset(after);
    assert id in Links(db.incidents) <==> id in multiset(Links(db.incidents));
    assert id in Ids(rows) <==> id in multiset(Ids(rows));
  }

  // ---- two ticks over separate batches -------------------------------------------------------

  lemma {:induction false} IncidentsOfPermutation(a: seq<seq<Fact>>, b: seq<seq<Fact>>)
    requires NonEmpty(a) && NonEmpty(b) && multiset(a) == multiset(b)
    ensures multiset(IncidentsFor(a)) == multiset(IncidentsFor(b))
  {
    hide IncidentFor;
    assert |a| == |multiset(a)| == |multiset(b)| == |b|;
    if a != [] {
      var i := RemoveLastOf(a, b);
      IncidentsWithout(b, i);
      IncidentsOfPermutation(Front(a), b[..i] + b[i + 1..]);
      assert IncidentsFor(a) == IncidentsFor(Front(a)) + [IncidentFor(Last(a))];
    }
  }

  lemma IncidentsWithout(b: seq<seq<Fact>>, i: nat)
    requires NonEmpty(b) && i < |b|
    ensures NonEmpty(b[..i] + b[i + 1..])
    ensures multiset(IncidentsFor(b)) == multiset(IncidentsFor(b[..i] + b[i + 1..])) + multiset{IncidentFor(b[i])}
  {
    hide IncidentFor;
    assert IncidentsFor(b) == IncidentsFor(b[..i]) + [IncidentFor(b[i])] + IncidentsFor(b[i + 1..]);
    assert IncidentsFor(b[..i] + b[i + 1..]) == IncidentsFor(b[..i]) + IncidentsFor(b[i + 1..]);
  }

  // The incidents that a tick created: those behind the earlier ones.
  ghost function CreatedSince(before: Db, after: Db): seq<Incident> {
    if |before.incidents| <= |after.incidents| then after.incidents[|before.incidents|..] else []
  }

  lemma TickCreates(db: Db, window: int, args: TickArgs)
    ensures NonEmpty(Clusters(Fetch(db, window, args), window))
    ensures TickDb(db, window, args).incidents == db.incidents + IncidentsFor(Clusters(Fetch(db, window, args), window))
  {
    hide Clusters;
    var rows := Fetch(db, window, args);
    ClustersPartition(rows, window);
    if rows == [] {
      assert Clusters([], window) == [] by { NoClusters(window); }
      assert db.incidents + [] == db.incidents;
    }
  }

  lemma NoClusters(window: int)
    ensures Clusters([], window) == []
  {
  }

  lemma TwoFetchesDistinct(db: Db, window: int, first: TickArgs, second: TickArgs)
    requires WellLinked(db)
    ensures DistinctIds(Fetch(db, window, first) + Fetch(TickDb(db, window, first), window, second))
  {
    hide Fetch, MaxId, Released, Links;
    var a, t := Fetch(db, window, first), TickDb(db, window, first);
    var b := Fetch(t, window, second);
    FetchIsPrefix(db, window, first);
    FetchIsPrefix(t, window, second);
    MaxIdBounds(a);
    forall i, j | 0 <= i < |a| && 0 <= j < |b|
      ensures a[i].detectionId < b[j].detectionId
    {
      assert a[i] in a && b[j] in b;
    }
    var u := a + b;
    forall i, j | 0 <= i < j < |u|
      ensures u[i].detectionId != u[j].detectionId
    {
      if j < |a| {
        assert a[i].detectionId < a[j].detectionId;
      } else if i >= |a| {
        assert b[i - |a|].detectionId < b[j - |a|].detectionId;
      }
    }
  }

  // Two successive ticks whose batches lie, entity by entity, more than a window apart create the
  // incidents that one tick over both batches would create.
  lemma TwoTicksCompose(db: Db, window: int, first: TickArgs, second: TickArgs)
    requires WellLinked(db) && window >= 0
    requires Apart(Fetch(db, window, first), Fetch(TickDb(db, window, first), window, second), window)
    ensures var a := Fetch(db, window, first);
      var b := Fetch(TickDb(db, window, first), window, second);
      var after := TickDb(TickDb(db, window, first), window, second);
      && NonEmpty(Clusters(a + b, window))
      && multiset(CreatedSince(db, after)) == multiset(IncidentsFor(Clusters(a + b, window)))
  {
    hide Fetch, TickDb, Clusters, Apart, IncidentsFor, WellLinked, DistinctIds;
    var t := TickDb(db, window, first);
    var a, b := Fetch(db, window, first), Fetch(t, window, second);
    TwoFetchesDistinct(db, window, first, second);
    TickCreates(db, window, first);
    TickCreates(t, window, second);
    ClustersPartition(a + b, window);
    UnionClusterList(a, b, window);
    var p, q := Clusters(a, window), Clusters(b, window);
    assert NonEmpty(p + q);
    IncidentsOfPermutation(p + q, Clusters(a + b, window));
    IncidentsOfBoth(p, q);
    var after := TickDb(t, window, second);
    assert after.incidents == db.incidents + (IncidentsFor(p) + IncidentsFor(q));
    assert CreatedSince(db, after) == IncidentsFor(p) + IncidentsFor(q);
  }

  lemma IncidentsOfBoth(p: seq<seq<Fact>>, q: seq<seq<Fact>>)
    requires NonEmpty(p) && NonEmpty(q) && NonEmpty(p + q)
    ensures IncidentsFor(p + q) == IncidentsFor(p) + IncidentsFor(q)
  {
    hide IncidentFor;
  }

  // ---- every run -----------------------------------------------------------------------------

  lemma TickCursor(db: Db, window: int, args: TickArgs)
    requires WellLinked(db)
    ensures TickDb(db, window, args).cursor >= db.cursor
    ensures Fetch(db, window, args) == [] ==> MaxId(Fetch(db, window, args)) == 0
  {
    FetchIsPrefix(db, window, args);
    MaxIdBounds(Fetch(db, window, args));
  }

  lemma TickKeepsLinks(db: Db, window: int, args: TickArgs)
    requires WellLinked(db)
    ensures WellLinked(TickDb(db, window, args))
  {
    var rows, db' := Fetch(db, window, args), TickDb(db, window, args);
    if rows != [] {
      TickLinksBelow(db, window, args);
      TickLinksDistinct(db, window, args);
      TickCounts(db, window, args);
    }
  }

  lemma TickLinksBelow(db: Db, window: int, args: TickArgs)
    requires WellLinked(db)
    ensures var db' := TickDb(db, window, args);
      forall id :: id in Links(db'.incidents) ==>
        id <= db'.cursor && exists f :: f in db'.detections && f.detectionId == id
  {
    hide Links, Fetch, MaxId;
    var rows, db' := Fetch(db, window, args), TickDb(db, window, args);
    FetchIsPrefix(db, window, args);
    MaxIdBounds(rows);
    TickCursor(db, window, args);
    forall id | id in Links(db'.incidents)
      ensures id <= db'.cursor && exists f :: f in db'.detections && f.detectionId == id
    {
      LinkedAfter(db, window, args, id);
    }
  }

  lemma TickCounts(db: Db, window: int, args: TickArgs)
    requires WellLinked(db)
    ensures forall inc :: inc in TickDb(db, window, args).incidents ==> inc.draft.detectionCount == |inc.links|
  {
    var rows, db' := Fetch(db, window, args), TickDb(db, window, args);
    ClustersPartition(rows, window);
    var clusters := Clusters(rows, window);
    forall inc | inc in IncidentsFor(clusters)
      ensures inc.draft.detectionCount == |inc.links|
    {
      var i :| 0 <= i < |clusters| && inc == IncidentFor(clusters[i]);
      DraftLinks(clusters[i]);
    }
  }

  lemma TickLinksDistinct(db: Db, window: int, args: TickArgs)
    requires WellLinked(db)
    ensures Distinct(Links(TickDb(db, window, args).incidents))
  {
    hide Fetch, Links, TickDb;
    var rows := Fetch(db, window, args);
    var before, added, after := Links(db.incidents), Ids(rows), Links(TickDb(db, window, args).incidents);
    FetchIsPrefix(db, window, args);
    TickLinks(db, window, args);
    DistinctMultiplicity(before);
    assert Distinct(added) by {
      assert forall i :: 0 <= i < |added| ==> added[i] == rows[i].detectionId;
    }
    DistinctMultiplicity(added);
    forall id
      ensures multiset(after)[id] <= 1
    {
      IdListed(rows, id);
      assert id in before <==> id in multiset(before);
      assert id in added <==> id in multiset(added);
    }
    DistinctMultiplicity(after);
  }

  lemma DetectKeepsLinks(db: Db, f: Fact)
    requires WellLinked(db) && f.detectionId > MaxId(db.detections)
    ensures WellLinked(db.(detections := db.detections + [f]))
  {
    MaxIdBounds(db.detections);
    var ds := db.detections + [f];
    forall i, j | 0 <= i < j < |ds|
      ensures ds[i].detectionId < ds[j].detectionId
    {
      assert ds[i] in db.detections;
    }
    assert forall g :: g in db.detections ==> g in ds;
  }

  // The cursor never passes the last detection.
  ghost predicate CursorReached(db: Db) {
    db.cursor <= MaxId(db.detections)
  }

  lemma {:induction false} MaxIdMonotone(a: seq<Fact>, b: seq<Fact>)
    requires forall f :: f in a ==> f in b
    ensures MaxId(a) <= MaxId(b)
  {
    MaxIdBounds(a);
    MaxIdBounds(b);
  }

  // In every reachable state a detection is linked to at most one incident and every
  // incident's detection count is its number of links.
  lemma {:induction false} EveryRunIsWellLinked(actions: seq<Action>, window: int)
    ensures WellLinked(RunActions(actions, window)) && CursorReached(RunActions(actions, window))
  {
    if actions != [] {
      EveryRunIsWellLinked(Front(actions), window);
      var db := RunActions(Front(actions), window);
      match Last(actions) {
        case Detect(f) =>
          if f.detectionId > MaxId(db.detections) {
            DetectKeepsLinks(db, f);
            MaxIdMonotone(db.detections, db.detections + [f]);
          }
        case Correlate(args) =>
          TickKeepsLinks(db, window, args);
          FetchIsPrefix(db, window, args);
          MaxIdMonotone(Fetch(db, window, args), db.detections);
      }
    }
  }

  // A tick keeps every passed detection accounted for exactly when it skips none, and a
  // skipped detection is never picked up again.
  lemma TickAccounts(db: Db, window: int, args: TickArgs)
    requires WellLinked(db)
    ensures Accounted(TickDb(db, window, args)) <==> Accounted(db) && !Skips(db, window, args)
  {
    hide Fetch, MaxId, Links, Released, Skips;
    var rows, db' := Fetch(db, window, args), TickDb(db, window, args);
    FetchIsPrefix(db, window, args);
    MaxIdBounds(rows);
    TickCursor(db, window, args);
    SkippedIsUnread(db, window, args);
    if rows != [] {
      forall f | f in db.detections
        ensures f.detectionId in Links(db'.incidents) <==> f.detectionId in Links(db.incidents) || f in rows
      {
        LinkedAfter(db, window, args, f.detectionId);
        UniqueById(db.detections, f);
      }
    }
  }

  lemma IdOrder(ds: seq<Fact>, i: nat, j: nat)
    requires IncreasingIds(ds) && i < |ds| && j < |ds|
    ensures ds[i].detectionId < ds[j].detectionId <==> i < j
  {
  }

  lemma LowerIdsComeFirst(c: seq<Fact>, i: nat, id: nat)
    requires IncreasingIds(c) && i < |c|
    ensures id in IdSet(c[..i]) <==> id in IdSet(c) && id < c[i].detectionId
  {
    if id in IdSet(c) && id < c[i].detectionId {
      var f :| f in c && f.detectionId == id;
      var j :| 0 <= j < |c| && c[j] == f;
      IdOrder(c, j, i);
      assert c[..i][j] == f;
    }
    if id in IdSet(c[..i]) {
      var f :| f in c[..i] && f.detectionId == id;
      var j :| 0 <= j < i && c[..i][j] == f;
      assert c[j] in c;
    }
  }

  // The released detections below a candidate are the candidates before it.
  lemma IdsBelow(db: Db, window: int, args: TickArgs, i: nat)
    requires IncreasingIds(db.detections)
    requires i < |Candidates(db.detections, db.cursor, window, args)|
    ensures var c := Candidates(db.detections, db.cursor, window, args);
      ReleasedBefore(db, window, args, c[i].detectionId) == IdSet(c[..i])
  {
    hide Candidates, Released, IncreasingIds;
    CandidatesAre(db.detections, db.cursor, window, args);
    var c := Candidates(db.detections, db.cursor, window, args);
    forall id: nat
      ensures id in ReleasedBefore(db, window, args, c[i].detectionId) <==> id in IdSet(c[..i])
    {
      LowerIdsComeFirst(c, i, id);
    }
  }

  ghost function IdSet(rows: seq<Fact>): set<nat> {
    set f | f in rows :: f.detectionId
  }

  lemma {:induction false} IdSetSize(rows: seq<Fact>)
    requires IncreasingIds(rows)
    ensures |IdSet(rows)| == |rows|
  {
    hide IdSet;
    if rows == [] {
      NoIds();
    } else {
      var f, l := Front(rows), Last(rows);
      FrontLast(rows);
      IdSetSize(f);
      IdSetSnoc(f, l);
      LastIdIsNew(rows);
    }
  }

  lemma NoIds()
    ensures IdSet([]) == {}
  {
  }

  lemma LastIdIsNew(rows: seq<Fact>)
    requires rows != [] && IncreasingIds(rows)
    ensures Last(rows).detectionId !in IdSet(Front(rows))
  {
    forall g | g in Front(rows)
      ensures g.detectionId != Last(rows).detectionId
    {
      var i :| 0 <= i < |rows| - 1 && rows[i] == g;
    }
  }

  lemma IdSetSnoc(f: seq<Fact>, l: Fact)
    ensures IdSet(f + [l]) == IdSet(f) + {l.detectionId}
  {
    forall id
      ensures id in IdSet(f + [l]) <==> id in IdSet(f) || id == l.detectionId
    {
      IdInSnoc(f, l, id);
    }
  }

  lemma IdInSnoc(f: seq<Fact>, l: Fact, id: nat)
    ensures id in IdSet(f + [l]) <==> id in IdSet(f) || id == l.detectionId
  {
    assert l in f + [l];
    if id in IdSet(f) {
      var g :| g in f && g.detectionId == id;
      assert g in f + [l];
    }
  }

  // A tick fetches exactly the due detections.
  lemma FetchIsDue(db: Db, window: int, args: TickArgs, g: Fact)
    requires IncreasingIds(db.detections)
    ensures g in Fetch(db, window, args) <==> Due(db, window, args, g)
  {
    hide Candidates, Released, ReleasedBefore;
    CandidatesAre(db.detections, db.cursor, window, args);
    var c := Candidates(db.detections, db.cursor, window, args);
    if g in c {
      var i :| 0 <= i < |c| && c[i] == g;
      IdsBelow(db, window, args, i);
      IdSetSize(c[..i]);
      assert Due(db, window, args, g) <==> i < args.limit;
      InPrefix(c, i, args.limit);
    } else {
      assert forall x :: x in Limit(c, args.limit) ==> x in c;
    }
  }

  lemma InPrefix(c: seq<Fact>, i: nat, limit: nat)
    requires IncreasingIds(c) && i < |c|
    ensures c[i] in Limit(c, limit) <==> i < limit
  {
    if |c| <= limit {
      assert c[i] in c;
    } else if i < limit {
      assert c[..limit][i] == c[i];
    } else {
      forall j | 0 <= j < limit
        ensures c[..limit][j] != c[i]
      {
        assert c[j].detectionId < c[i].detectionId;
      }
    }
  }

  // Over the table before the tick or over what it fetches, skipping is the same.
  lemma SkipsPastFetch(db: Db, window: int, args: TickArgs)
    requires IncreasingIds(db.detections)
    ensures Skips(db, window, args)
       <==> exists f :: f in db.detections && db.cursor < f.detectionId < MaxId(Fetch(db, window, args))
                          && !Released(f, window, args)
  {
    hide Fetch, MaxId, Released, Due;
    var rows := Fetch(db, window, args);
    MaxIdBounds(rows);
    forall g
      ensures g in rows <==> Due(db, window, args, g)
    {
      FetchIsDue(db, window, args, g);
    }
    if rows != [] {
      var g :| g in rows && g.detectionId == MaxId(rows);
      assert Due(db, window, args, g);
    }
  }

  // The detections a tick passes without reading are exactly those it skips.
  lemma SkippedIsUnread(db: Db, window: int, args: TickArgs)
    requires IncreasingIds(db.detections)
    ensures var rows := Fetch(db, window, args);
      Skips(db, window, args)
      <==> exists f :: f in db.detections && db.cursor < f.detectionId <= MaxId(rows) && f !in rows
  {
    hide Fetch, MaxId, Released, Skips;
    var rows := Fetch(db, window, args);
    SkipsPastFetch(db, window, args);
    FetchIsPrefix(db, window, args);
    MaxIdBounds(rows);
    if rows != [] {
      var g :| g in rows && g.detectionId == MaxId(rows);
      UniqueById(db.detections, g);
    }
  }

  lemma UniqueById(ds: seq<Fact>, f: Fact)
    requires IncreasingIds(ds) && f in ds
    ensures forall g :: g in ds && g.detectionId == f.detectionId ==> g == f
  {
  }

  // Over a whole run every detection at or below the cursor is linked, to exactly one
  // incident, if and only if no tick of the run skipped a held-back detection.
  lemma {:induction false} AccountedUnlessSkipped(actions: seq<Action>, window: int)
    ensures Accounted(RunActions(actions, window)) <==> !SkipsIn(actions, window)
  {
    if actions != [] {
      AccountedUnlessSkipped(Front(actions), window);
      EveryRunIsWellLinked(Front(actions), window);
      var db := RunActions(Front(actions), window);
      match Last(actions) {
        case Detect(f) =>
          if f.detectionId > MaxId(db.detections) {
            assert forall g :: g in db.detections ==> g in db.detections + [f];
          }
        case Correlate(args) => TickAccounts(db, window, args);
      }
    }
  }

  ghost predicate AllForced(actions: seq<Action>) {
    forall i :: 0 <= i < |actions| && actions[i].Correlate? ==> actions[i].args.force
  }

  // Every detection at or below the cursor is linked to exactly one incident.
  ghost predicate LinkedOnce(db: Db) {
    Distinct(Links(db.incidents)) && Accounted(db)
  }

  lemma {:induction false} ForcedRunSkipsNothing(actions: seq<Action>, window: int)
    requires AllForced(actions)
    ensures !SkipsIn(actions, window)
  {
    hide RunActions, Due;
    if actions != [] {
      ForcedRunSkipsNothing(Front(actions), window);
      assert actions[|actions| - 1] == Last(actions);
    }
  }

  // When every tick of a run is forced, every detection at or below the cursor is linked exactly once.
  lemma ForcedRunsAccountForAll(actions: seq<Action>, window: int)
    requires AllForced(actions)
    ensures LinkedOnce(RunActions(actions, window))
  {
    hide RunActions, Accounted;
    ForcedRunSkipsNothing(actions, window);
    AccountedUnlessSkipped(actions, window);
    EveryRunIsWellLinked(actions, window);
  }

  ghost predicate TimeOrdered(ds: seq<Fact>) {
    forall i, j :: 0 <= i < j < |ds| ==> ds[i].eventTs <= ds[j].eventTs
  }

  // A tick over detections whose event times do not decrease with the id skips none.
  lemma OrderedNeverSkips(db: Db, window: int, args: TickArgs)
    requires IncreasingIds(db.detections) && TimeOrdered(db.detections)
    ensures !Skips(db, window, args)
  {
    hide ReleasedBefore;
    forall f, g | f in db.detections && Due(db, window, args, g) && f.detectionId < g.detectionId
      ensures Released(f, window, args)
    {
      var i :| 0 <= i < |db.detections| && db.detections[i] == f;
      var j :| 0 <= j < |db.detections| && db.detections[j] == g;
      IdOrder(db.detections, i, j);
    }
  }

  lemma {:induction false} DetectionsGrow(actions: seq<Action>, window: int)
    requires actions != []
    ensures RunActions(Front(actions), window).detections <= RunActions(actions, window).detections
  {
    hide Fetch;
  }

  lemma {:induction false} OrderedRunSkipsNothing(actions: seq<Action>, window: int)
    requires TimeOrdered(RunActions(actions, window).detections)
    ensures !SkipsIn(actions, window)
  {
    hide Skips;
    if actions != [] {
      var before, all := RunActions(Front(actions), window).detections, RunActions(actions, window).detections;
      DetectionsGrow(actions, window);
      assert forall i :: 0 <= i < |before| ==> before[i] == all[i];
      OrderedRunSkipsNothing(Front(actions), window);
      EveryRunIsWellLinked(Front(actions), window);
      if Last(actions).Correlate? {
        OrderedNeverSkips(RunActions(Front(actions), window), window, Last(actions).args);
      }
    }
  }

  // When event time does not decrease with the detection id, every detection at or below the cursor
  // is linked exactly once.
  lemma OrderedRunsAccountForAll(actions: seq<Action>, window: int)
    requires TimeOrdered(RunActions(actions, window).detections)
    ensures LinkedOnce(RunActions(actions, window))
  {
    hide RunActions, Accounted, TimeOrdered;
    OrderedRunSkipsNothing(actions, window);
    AccountedUnlessSkipped(actions, window);
    EveryRunIsWellLinked(actions, window);
  }

  const RECENT := Fact(1, 7, "rate_deviation", 0.5, 2, 1000)
  const STALE := Fact(2, 7, "rate_deviation", 0.5, 2, 0)

  lemma RecentIsSkipped()
    ensures Skips(Db([RECENT, STALE], [], 0), 600, TickArgs(false, 700, 10))
  {
    var db, args := Db([RECENT, STALE], [], 0), TickArgs(false, 700, 10);
    assert Front(db.detections) == [RECENT] && Front([RECENT]) == [];
    assert Candidates([RECENT], 0, 600, args) == [];
    assert Fetch(db, 600, args) == [STALE];
    MaxIdBounds([STALE]);
    assert STALE in [STALE];
    FetchIsDue(db, 600, args, STALE);
    assert RECENT in db.detections && 0 < RECENT.detectionId < STALE.detectionId && !Released(RECENT, 600, args);
  }

  // The watermark can lose a detection: a recent one with a lower id than an old one.
  lemma WatermarkCanSkip()
    ensures SkipsIn([Detect(RECENT), Detect(STALE), Correlate(TickArgs(false, 700, 10))], 600)
  {
    hide TickDb, Skips;
    var args := TickArgs(false, 700, 10);
    var first, both := [Detect(RECENT)], [Detect(RECENT), Detect(STALE)];
    assert Front(first) == [] && Last(first) == Detect(RECENT);
    assert Front(both) == first && Last(both) == Detect(STALE);
    var all := both + [Correlate(args)];
    assert Front(all) == both && Last(all) == Correlate(args);
    MaxIdBounds([RECENT]);
    assert RunActions(first, 600) == Db([RECENT], [], 0) by { assert [] + [RECENT] == [RECENT]; }
    assert RunActions(both, 600) == Db([RECENT, STALE], [], 0) by { assert [RECENT] + [STALE] == [RECENT, STALE]; }
    RecentIsSkipped();
    assert all == [Detect(RECENT), Detect(STALE), Correlate(args)];
  }
}
