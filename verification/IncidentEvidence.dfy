/**
 What the incidents of any run say of the detections in the table, and which detections a tick
 reads, puts together and leaves for later.
 */
module IncidentEvidence {
  import opened Common
  import opened CorrelationRules
  import opened Correlator

  // ---- one incident --------------------------------------------------------------------------------

  // The score of the strongest detection, and 0.15 more for each further detector, at most 1.
  ghost predicate RiskOf(evidence: seq<Fact>, detectors: set<string>, risk: real) {
    exists top :: top in evidence && (forall f :: f in evidence ==> f.score <= top.score)
                  && RiskFrom(top.score, |detectors|, risk)
  }

  // The incident is about these detections: all of its one entity, all linked and counted, spanning
  // exactly its times, from exactly its detectors.
  ghost predicate About(inc: Incident, evidence: seq<Fact>) {
    && evidence != []
    && (forall f :: f in evidence ==> f.entityId == inc.draft.entityId)
    && multiset(inc.links) == multiset(Ids(evidence)) && inc.draft.detectionCount == |evidence|
    && (forall i, j :: 0 <= i < j < |inc.links| ==> inc.links[i] <= inc.links[j])
    && (forall f :: f in evidence ==> inc.draft.firstSeenAt <= f.eventTs <= inc.draft.lastSeenAt)
    && (exists f :: f in evidence && f.eventTs == inc.draft.firstSeenAt)
    && (exists f :: f in evidence && f.eventTs == inc.draft.lastSeenAt)
    && (forall name :: name in inc.draft.distinctDetectors <==> exists f :: f in evidence && f.detector == name)
    && RiskOf(evidence, inc.draft.distinctDetectors, inc.draft.riskScore)
  }

  ghost predicate OneEntity(cluster: seq<Fact>) {
    forall f, g :: f in cluster && g in cluster ==> f.entityId == g.entityId
  }

  // A draft names the entity that all its detections share.
  lemma DraftNamesEntity(cluster: seq<Fact>, f: Fact)
    requires f in cluster && OneEntity(cluster)
    ensures BuildIncidentDraft(cluster).entityId == f.entityId
  {
    assert cluster[0] in cluster;
  }

  lemma DraftIsAbout(cluster: seq<Fact>)
    requires cluster != [] && OneEntity(cluster)
    ensures About(IncidentFor(cluster), cluster)
  {
    hide Ids;
    DraftLinks(cluster);
    var d := BuildIncidentDraft(cluster);
    forall f | f in cluster
      ensures d.firstSeenAt <= f.eventTs <= d.lastSeenAt && f.entityId == d.entityId
    {
      Extremes(cluster, f);
      DraftNamesEntity(cluster, f);
    }
    assert cluster[0] in cluster;
    Extremes(cluster, cluster[0]);
    DraftRisk(cluster);
  }

  lemma DraftRisk(cluster: seq<Fact>)
    requires cluster != []
    ensures RiskOf(cluster, BuildIncidentDraft(cluster).distinctDetectors, BuildIncidentDraft(cluster).riskScore)
  {
    var d := BuildIncidentDraft(cluster);
    assert cluster[0] in cluster && cluster[0].detector in d.distinctDetectors;
    forall f | f in cluster
      ensures f.score <= MaxScore(cluster) && exists top :: top in cluster && top.score == MaxScore(cluster)
    {
      Extremes(cluster, f);
    }
    var top :| top in cluster && top.score == MaxScore(cluster);
    assert RiskFrom(top.score, |d.distinctDetectors|, d.riskScore);
  }

  // ---- clusters are of one entity --------------------------------------------------------------

  lemma {:induction false} EntityRows(rows: seq<Fact>, entity: nat, f: Fact)
    requires f in ByEntity(rows, entity)
    ensures f in rows && f.entityId == entity
  {
    var r := Front(rows);
    FrontLast(rows);
    if f in ByEntity(r, entity) {
      EntityRows(r, entity, f);
    }
  }

  lemma {:induction false} SplitMembers(rows: seq<Fact>, window: int, c: seq<Fact>, f: Fact)
    requires c in Split(rows, window) && f in c
    ensures f in rows
  {
    var r, x := Front(rows), Last(rows);
    var done := Split(r, window);
    FrontLast(rows);
    if c in done {
      SplitMembers(r, window, c, f);
    } else if f != x {
      assert done != [] && f in Last(done) && Last(done) in done;
      SplitMembers(r, window, Last(done), f);
    }
  }

  lemma {:induction false} ClustersOverOneEntity(rows: seq<Fact>, window: int, order: seq<nat>, c: seq<Fact>)
    requires c in ClustersOver(rows, window, order)
    ensures OneEntity(c) && forall f :: f in c ==> f in rows
  {
    hide Split, ByEntity;
    var parts := Split(ByEntity(rows, Last(order)), window);
    if c in parts {
      forall f | f in c
        ensures f in rows && f.entityId == Last(order)
      {
        SplitMembers(ByEntity(rows, Last(order)), window, c, f);
        EntityRows(rows, Last(order), f);
      }
    } else {
      ClustersOverOneEntity(rows, window, Front(order), c);
    }
  }

  lemma ClusterOneEntity(facts: seq<Fact>, window: int, c: seq<Fact>)
    requires c in Clusters(facts, window)
    ensures OneEntity(c) && forall f :: f in c ==> f in facts
  {
    hide ClustersOver, OneEntity, SortedFacts;
    var rows := SortedFacts(facts);
    ClustersOverOneEntity(rows, window, Sorted((a: nat, b: nat) => a <= b, Entities(rows)), c);
    SortedFactsProperties(facts);
  }

  // The members of a cluster are of one entity and stand in time order, those of one moment by their ids.
  lemma ClusterIsInOrder(facts: seq<Fact>, window: int, c: nat, i: nat, j: nat)
    requires c < |Clusters(facts, window)| && i < j < |Clusters(facts, window)[c]|
    ensures var f, g := Clusters(facts, window)[c][i], Clusters(facts, window)[c][j];
      f.entityId == g.entityId
      && (f.eventTs < g.eventTs || (f.eventTs == g.eventTs && f.detectionId <= g.detectionId))
  {
    hide Runs, Clusters, SortedFacts, Flatten;
    var rows, clusters := SortedFacts(facts), Clusters(facts, window);
    ClustersAreRuns(facts, window);
    SortedFactsProperties(facts);
    RunsFlatten(rows, window);
    PartsOfSorted(clusters, c);
    assert Before(clusters[c][i], clusters[c][j]);
    ClusterOneEntity(facts, window, clusters[c]);
    assert clusters[c][i] in clusters[c] && clusters[c][j] in clusters[c];
  }

  // ---- every run -------------------------------------------------------------------------------

  // Some detections of the table are what the incident is about.
  ghost predicate Evidenced(db: Db, inc: Incident) {
    exists evidence: seq<Fact> :: (forall f :: f in evidence ==> f in db.detections) && About(inc, evidence)
  }

  lemma EvidencedLater(a: Db, b: Db, inc: Incident)
    requires Evidenced(a, inc) && a.detections <= b.detections
    ensures Evidenced(b, inc)
  {
    hide About;
    var evidence: seq<Fact> :| (forall f :: f in evidence ==> f in a.detections) && About(inc, evidence);
    forall f | f in evidence
      ensures f in b.detections
    {
      var i :| 0 <= i < |a.detections| && a.detections[i] == f;
      assert b.detections[i] == f;
    }
  }

  lemma CreatedIsEvidenced(db: Db, window: int, args: TickArgs, c: seq<Fact>)
    requires IncreasingIds(db.detections) && c in Clusters(Fetch(db, window, args), window) && c != []
    ensures Evidenced(db, IncidentFor(c))
  {
    hide Fetch, About, IncidentFor, Clusters, OneEntity, Due;
    var rows := Fetch(db, window, args);
    ClusterOneEntity(rows, window, c);
    DraftIsAbout(c);
    forall f | f in c
      ensures f in db.detections
    {
      FetchIsDue(db, window, args, f);
      DueIsRow(db, window, args, f);
    }
  }

  lemma DueIsRow(db: Db, window: int, args: TickArgs, f: Fact)
    requires Due(db, window, args, f)
    ensures f in db.detections
  {
  }

  // In every run each incident is about detections of the table: of its entity, in its time span, from
  // its detectors, with its risk, and each linked once.
  lemma {:induction false} EveryIncidentIsEvidenced(actions: seq<Action>, window: int)
    ensures forall i :: 0 <= i < |RunActions(actions, window).incidents| ==>
      Evidenced(RunActions(actions, window), RunActions(actions, window).incidents[i])
  {
    hide Evidenced, Fetch, Clusters, MaxId, IncidentFor;
    if actions != [] {
      EveryIncidentIsEvidenced(Front(actions), window);
      EveryRunIsWellLinked(Front(actions), window);
      var db, d := RunActions(Front(actions), window), RunActions(actions, window);
      match Last(actions)
      case Detect(f) =>
        forall i | 0 <= i < |d.incidents|
          ensures Evidenced(d, d.incidents[i])
        {
          EvidencedLater(db, d, db.incidents[i]);
        }
      case Correlate(args) =>
        TickCreates(db, window, args);
        var clusters := Clusters(Fetch(db, window, args), window);
        forall i | 0 <= i < |d.incidents|
          ensures Evidenced(d, d.incidents[i])
        {
          if i < |db.incidents| {
            EvidencedLater(db, d, db.incidents[i]);
          } else {
            var c := clusters[i - |db.incidents|];
            assert c in clusters;
            CreatedIsEvidenced(db, window, args, c);
            EvidencedLater(db, d, IncidentFor(c));
          }
        }
    }
  }

  // So an incident never names another entity than the detections that it links.
  lemma LinksAreOfTheEntity(actions: seq<Action>, window: int, i: nat, id: nat)
    requires i < |RunActions(actions, window).incidents| && id in RunActions(actions, window).incidents[i].links
    ensures var db := RunActions(actions, window);
      (exists f :: f in db.detections && f.detectionId == id)
      && forall f :: f in db.detections && f.detectionId == id ==> f.entityId == db.incidents[i].draft.entityId
  {
    hide RunActions, WellLinked;
    var db := RunActions(actions, window);
    EveryIncidentIsEvidenced(actions, window);
    EveryRunIsWellLinked(actions, window);
    var inc := db.incidents[i];
    assert Evidenced(db, inc);
    var evidence: seq<Fact> :| (forall f :: f in evidence ==> f in db.detections) && About(inc, evidence);
    assert id in multiset(inc.links) && id in multiset(Ids(evidence)) && id in Ids(evidence);
    var k :| 0 <= k < |Ids(evidence)| && Ids(evidence)[k] == id;
    assert evidence[k] in evidence;
    RowsIncrease(db);
    UniqueById(db.detections, evidence[k]);
  }

  lemma RowsIncrease(db: Db)
    requires WellLinked(db)
    ensures IncreasingIds(db.detections)
  {
  }

  // ---- what a tick reads --------------------------------------------------------------------------

  // Old enough by the time of the tick, unless the tick is forced.
  predicate Ripe(f: Fact, window: int, args: TickArgs) {
    args.force || f.eventTs + window <= args.now
  }

  // In every run a tick reads the detection exactly when it lies above the cursor, is ripe, and has
  // fewer than the limit of such detections before it.
  lemma TickReads(actions: seq<Action>, window: int, args: TickArgs, g: Fact)
    ensures var db := RunActions(actions, window);
      g in Fetch(db, window, args)
      <==> g in db.detections && db.cursor < g.detectionId && Ripe(g, window, args)
           && |set f | f in db.detections && db.cursor < f.detectionId < g.detectionId && Ripe(f, window, args)
                    :: f.detectionId| < args.limit
  {
    hide RunActions, WellLinked, Fetch;
    var db := RunActions(actions, window);
    EveryRunIsWellLinked(actions, window);
    RowsIncrease(db);
    FetchIsDue(db, window, args, g);
    assert ReleasedBefore(db, window, args, g.detectionId)
        == set f | f in db.detections && db.cursor < f.detectionId < g.detectionId
          && Ripe(f, window, args) :: f.detectionId;
  }

  // The incidents of a tick put two of the detections it reads together exactly when a chain of reads of
  // that entity, with gaps of at most the window, joins them.
  lemma TickPutsTogether(actions: seq<Action>, window: int, args: TickArgs, f: Fact, g: Fact)
    requires window >= 0
    requires var db := RunActions(actions, window); f in Fetch(db, window, args) && g in Fetch(db, window, args)
    ensures var db := RunActions(actions, window); var d := TickDb(db, window, args);
      (exists i :: |db.incidents| <= i < |d.incidents|
                   && f.detectionId in d.incidents[i].links && g.detectionId in d.incidents[i].links)
      <==> Connected(Fetch(db, window, args), window, f, g)
  {
    hide RunActions, WellLinked, Fetch, Clusters, Connected, IncidentFor, SameCluster, DistinctIds, MaxId;
    var db := RunActions(actions, window);
    var d, rows := TickDb(db, window, args), Fetch(db, window, args);
    EveryRunIsWellLinked(actions, window);
    FetchDistinct(db, window, args);
    ClustersAreComponents(rows, window, f, g);
    TickCreates(db, window, args);
    SharedIff(rows, window, f, g);
    var clusters := Clusters(rows, window);
    forall i | |db.incidents| <= i < |d.incidents|
      ensures d.incidents[i] == IncidentFor(clusters[i - |db.incidents|])
    {
    }
    forall k | 0 <= k < |clusters|
      ensures d.incidents[|db.incidents| + k] == IncidentFor(clusters[k])
    {
    }
    if k :| 0 <= k < |clusters| && BothIn(clusters[k], f, g) {
      LinkedIff(rows, window, clusters[k], f);
      LinkedIff(rows, window, clusters[k], g);
    }
    if i :| |db.incidents| <= i < |d.incidents|
            && f.detectionId in d.incidents[i].links && g.detectionId in d.incidents[i].links {
      var k := i - |db.incidents|;
      LinkedIff(rows, window, clusters[k], f);
      LinkedIff(rows, window, clusters[k], g);
      assert BothIn(clusters[k], f, g);
    }
  }

  predicate BothIn(c: seq<Fact>, f: Fact, g: Fact) {
    f in c && g in c
  }

  lemma SharedIff(rows: seq<Fact>, window: int, f: Fact, g: Fact)
    ensures var clusters := Clusters(rows, window);
      SameCluster(clusters, f, g) <==> exists k :: 0 <= k < |clusters| && BothIn(clusters[k], f, g)
  {
    hide Clusters;
    var clusters := Clusters(rows, window);
    if SameCluster(clusters, f, g) {
      var k :| 0 <= k < |clusters| && f in clusters[k] && g in clusters[k];
      assert BothIn(clusters[k], f, g);
    }
  }

  lemma FetchDistinct(db: Db, window: int, args: TickArgs)
    requires WellLinked(db)
    ensures DistinctIds(Fetch(db, window, args))
  {
    hide Fetch, MaxId, Released, Links;
    FetchIsPrefix(db, window, args);
  }

  // An incident links exactly the detections of its cluster.
  lemma LinkedIff(rows: seq<Fact>, window: int, c: seq<Fact>, f: Fact)
    requires DistinctIds(rows) && f in rows && c in Clusters(rows, window) && c != []
    ensures f.detectionId in IncidentFor(c).links <==> f in c
  {
    hide Clusters, BuildIncidentDraft, OneEntity;
    DraftLinks(c);
    ClusterOneEntity(rows, window, c);
    var ids := IncidentFor(c).links;
    assert f.detectionId in ids <==> f.detectionId in multiset(ids);
    assert f.detectionId in Ids(c) <==> f.detectionId in multiset(Ids(c));
    IdListed(c, f.detectionId);
    forall g | g in c && g.detectionId == f.detectionId
      ensures g == f
    {
      var i :| 0 <= i < |rows| && rows[i] == g;
      var j :| 0 <= j < |rows| && rows[j] == f;
    }
  }

  // A tick moves the cursor to the last detection it reads, links exactly those, and changes no earlier
  // incident.
  lemma TickMoves(actions: seq<Action>, window: int, args: TickArgs, id: nat)
    ensures var db := RunActions(actions, window);
      var rows, d := Fetch(db, window, args), TickDb(db, window, args);
      && d.detections == db.detections && db.incidents <= d.incidents
      && d.cursor == (if rows == [] then db.cursor else Last(rows).detectionId)
      && (id in Links(d.incidents) <==> id in Links(db.incidents) || exists f :: f in rows && f.detectionId == id)
  {
    hide RunActions, WellLinked, Fetch, Clusters, Links, IncidentFor, MaxId;
    var db := RunActions(actions, window);
    var rows := Fetch(db, window, args);
    EveryRunIsWellLinked(actions, window);
    TickCreates(db, window, args);
    LinkedAfter(db, window, args, id);
    if rows != [] {
      LastIsMax(db, window, args);
    }
  }

  lemma LastIsMax(db: Db, window: int, args: TickArgs)
    requires WellLinked(db) && Fetch(db, window, args) != []
    ensures MaxId(Fetch(db, window, args)) == Last(Fetch(db, window, args)).detectionId
  {
    hide Fetch, Released, Links, MaxId;
    var rows := Fetch(db, window, args);
    FetchIsPrefix(db, window, args);
    MaxIdBounds(rows);
    assert Last(rows) in rows;
  }
}
