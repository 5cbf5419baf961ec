/**
 Rule-based correlation: detections of one entity whose times are chained by gaps of at
 most the window form one cluster, and one cluster makes one incident.
 */
module CorrelationRules {
  import opened Common

  datatype Fact = Fact(detectionId: nat, entityId: nat, detector: string, score: real, severity: int, eventTs: int)

  // The sort key: entity, then time, then detection id.
  predicate Before(f: Fact, g: Fact) {
    f.entityId < g.entityId
    || (f.entityId == g.entityId && f.eventTs < g.eventTs)
    || (f.entityId == g.entityId && f.eventTs == g.eventTs && f.detectionId <= g.detectionId)
  }

  function SortedFacts(facts: seq<Fact>): seq<Fact> {
    Sorted(Before, facts)
  }

  ghost predicate DistinctIds(facts: seq<Fact>) {
    forall i, j :: 0 <= i < j < |facts| ==> facts[i].detectionId != facts[j].detectionId
  }

  // ---- the clustering ---------------------------------------------------------------

  function ByEntity(rows: seq<Fact>, entity: nat): seq<Fact> {
    if rows == [] then []
    else ByEntity(Front(rows), entity) + if Last(rows).entityId == entity then [Last(rows)] else []
  }

  function Entities(rows: seq<Fact>): seq<nat> {
    if rows == [] then []
    else
      var e := Entities(Front(rows));
      if Last(rows).entityId in e then e else e + [Last(rows).entityId]
  }

  // Splits time-ordered rows of one entity where the gap exceeds the window.
  function Split(rows: seq<Fact>, window: int): seq<seq<Fact>> {
    if rows == [] then []
    else
      var done, row := Split(Front(rows), window), Last(rows);
      if done != [] && Last(done) != [] && row.eventTs - Last(Last(done)).eventTs <= window
      then Front(done) + [Last(done) + [row]]
      else done + [[row]]
  }

  function ClustersOver(rows: seq<Fact>, window: int, order: seq<nat>): seq<seq<Fact>> {
    if order == [] then []
    else ClustersOver(rows, window, Front(order)) + Split(ByEntity(rows, Last(order)), window)
  }

  function Clusters(facts: seq<Fact>, window: int): seq<seq<Fact>> {
    var rows := SortedFacts(facts);
    ClustersOver(rows, window, Sorted((a: nat, b: nat) => a <= b, Entities(rows)))
  }

  method GroupByEntity(rows: seq<Fact>) returns (keys: seq<nat>, byEntity: map<nat, seq<Fact>>)
    ensures keys == Entities(rows)
    ensures forall k :: k in keys ==> k in byEntity && byEntity[k] == ByEntity(rows, k)
  {
    keys := [];
    byEntity := map[];
    for i := 0 to |rows|
      invariant keys == Entities(rows[..i])
      invariant forall k :: k in byEntity <==> k in keys
      invariant forall k :: k in byEntity ==> byEntity[k] == ByEntity(rows[..i], k)
    {
      var fact := rows[i];
      assert Front(rows[..i + 1]) == rows[..i] && Last(rows[..i + 1]) == fact;
      AbsentEntity(rows[..i], fact.entityId);
      if fact.entityId in byEntity {
        byEntity := byEntity[fact.entityId := byEntity[fact.entityId] + [fact]];
      } else {
        keys := keys + [fact.entityId];
        byEntity := byEntity[fact.entityId := [fact]];
      }
    }
    assert rows[..|rows|] == rows;
  }

  lemma {:induction false} AbsentEntity(rows: seq<Fact>, entity: nat)
    ensures entity in Entities(rows) <==> ByEntity(rows, entity) != []
  {
    if rows != [] {
      AbsentEntity(Front(rows), entity);
    }
  }

  method SplitRows(rows: seq<Fact>, window: int) returns (clusters: seq<seq<Fact>>)
    ensures clusters == Split(rows, window)
  {
    clusters := [];
    var current: seq<Fact> := [];
    for i := 0 to |rows|
      invariant current == [] ==> clusters == [] && i == 0
      invariant current != [] ==> clusters + [current] == Split(rows[..i], window)
    {
      var row := rows[i];
      assert Front(rows[..i + 1]) == rows[..i] && Last(rows[..i + 1]) == row;
      ghost var done := Split(rows[..i], window);
      assert current == [] ==> rows[..i] == [];
      assert current != [] ==> Last(done) == current && Front(done) == clusters;
      if current != [] && row.eventTs - current[|current| - 1].eventTs > window {
        clusters := clusters + [current];
        assert Split(rows[..i + 1], window) == clusters + [[row]];
        current := [];
      } else if current != [] {
        assert Split(rows[..i + 1], window) == clusters + [current + [row]];
      } else {
        assert Split(rows[..i + 1], window) == clusters + [[row]];
      }
      current := current + [row];
      assert current == [row] || clusters + [current] == Split(rows[..i + 1], window);
    }
    if current != [] {
      clusters := clusters + [current];
    }
    assert rows[..|rows|] == rows;
  }

  method ClusterByEntityAndTime(facts: seq<Fact>, window: int) returns (clusters: seq<seq<Fact>>)
    ensures clusters == Clusters(facts, window)
  {
    hide Split, ByEntity, Entities;
    var rows := SortedFacts(facts);
    var keys, byEntity := GroupByEntity(rows);
    var order := Sorted((a: nat, b: nat) => a <= b, keys);
    SortedProperties((a: nat, b: nat) => a <= b, keys);
    clusters := [];
    for j := 0 to |order|
      invariant clusters == ClustersOver(rows, window, order[..j])
    {
      NextPrefix(order, j);
      assert order[j] in multiset(keys);
      var part := SplitRows(byEntity[order[j]], window);
      clusters := clusters + part;
    }
    assert order[..|order|] == order;
  }

  // ---- one pass over the sorted rows --------------------------------------------------

  ghost predicate Near(f: Fact, g: Fact, window: int) {
    f.entityId == g.entityId && g.eventTs - f.eventTs <= window
  }

  // Splitting all rows in one pass, at entity changes as well.
  ghost function Runs(rows: seq<Fact>, window: int): seq<seq<Fact>> {
    if rows == [] then []
    else
      var done, row := Runs(Front(rows), window), Last(rows);
      if done != [] && Last(done) != [] && Near(Last(Last(done)), row, window)
      then Front(done) + [Last(done) + [row]]
      else done + [[row]]
  }

  lemma {:induction false} RunsShape(rows: seq<Fact>, window: int)
    ensures rows != [] ==> Runs(rows, window) != []
    ensures forall c :: c in Runs(rows, window) ==> c != []
    ensures rows != [] ==> Last(Last(Runs(rows, window))) == Last(rows)
  {
    if rows != [] {
      RunsShape(Front(rows), window);
      var done, row := Runs(Front(rows), window), Last(rows);
      var all := Runs(rows, window);
      if done != [] && Near(Last(Last(done)), row, window) {
        assert all == Front(done) + [Last(done) + [row]];
        assert forall c :: c in Front(done) ==> c in done;
        assert Last(all) == Last(done) + [row] && Last(Last(all)) == row;
      } else {
        assert all == done + [[row]];
        assert Last(all) == [row] && Last(Last(all)) == row;
      }
    }
  }

  lemma {:induction false} SplitShape(rows: seq<Fact>, window: int)
    ensures rows != [] ==> Split(rows, window) != [] && Last(Split(rows, window)) != []
    ensures rows != [] ==> Last(Last(Split(rows, window))) == Last(rows)
  {
    if rows != [] {
      SplitShape(Front(rows), window);
    }
  }

  ghost predicate EntityAscending(rows: seq<Fact>) {
    forall i, j :: 0 <= i < j < |rows| ==> rows[i].entityId <= rows[j].entityId
  }

  lemma {:induction false} EntitiesListed(rows: seq<Fact>)
    ensures forall k :: k in Entities(rows) <==> exists i :: 0 <= i < |rows| && rows[i].entityId == k
    ensures Distinct(Entities(rows))
  {
    if rows != [] {
      EntitiesListed(Front(rows));
      FrontLast(rows);
      assert rows[|rows| - 1].entityId == Last(rows).entityId;
      forall k | k in Entities(Front(rows))
        ensures exists i :: 0 <= i < |rows| && rows[i].entityId == k
      {
        var i :| 0 <= i < |Front(rows)| && Front(rows)[i].entityId == k;
        assert rows[i].entityId == k;
      }
      forall i | 0 <= i < |rows|
        ensures rows[i].entityId in Entities(rows)
      {
        if i < |rows| - 1 {
          assert Front(rows)[i].entityId in Entities(Front(rows));
        }
      }
    }
  }

  // In entity order the last entity listed is the last row's.
  lemma {:induction false} LastEntity(rows: seq<Fact>)
    requires EntityAscending(rows) && rows != []
    ensures Entities(rows) != [] && Last(Entities(rows)) == Last(rows).entityId
    ensures SortedBy((a: nat, b: nat) => a <= b, Entities(rows))
  {
    var f := Front(rows);
    EntitiesListed(f);
    if f != [] {
      LastEntity(f);
      LastIsLargest(rows);
    }
  }

  lemma LastIsLargest(rows: seq<Fact>)
    requires EntityAscending(rows) && |rows| > 1
    ensures var f, l := Front(rows), Last(rows);
      && (forall k :: k in Entities(f) ==> k <= l.entityId)
      && (l.entityId in Entities(f) ==> l.entityId == Last(f).entityId)
  {
    hide Entities;
    var f := Front(rows);
    EntitiesListed(f);
    forall i | 0 <= i < |f|
      ensures f[i].entityId <= Last(f).entityId <= Last(rows).entityId
    {
      assert rows[i].entityId <= rows[|rows| - 2].entityId <= rows[|rows| - 1].entityId;
    }
  }

  lemma {:induction false} UntouchedClusters(rows: seq<Fact>, row: Fact, window: int, order: seq<nat>)
    requires row.entityId !in order
    ensures ClustersOver(rows + [row], window, order) == ClustersOver(rows, window, order)
  {
    if order != [] {
      FrontLast(order);
      UntouchedClusters(rows, row, window, Front(order));
      assert Front(rows + [row]) == rows && Last(rows + [row]) == row;
      assert ByEntity(rows, Last(order)) + [] == ByEntity(rows, Last(order));
    }
  }

  // Grouping by entity first and splitting each group equals one pass over the sorted rows.
  lemma {:induction false} GroupingIsOnePass(rows: seq<Fact>, window: int)
    requires EntityAscending(rows)
    ensures ClustersOver(rows, window, Entities(rows)) == Runs(rows, window)
  {
    if rows != [] {
      hide Runs, ClustersOver, Entities, EntityAscending, SortedBy;
      var f, x := Front(rows), Last(rows);
      FrontLast(rows);
      AscendingFront(rows);
      GroupingIsOnePass(f, window);
      if f != [] && Last(f).entityId == x.entityId {
        LastEntity(f);
        ExtendLastGroup(f, x, window, Entities(f));
      } else {
        NewGroup(f, x, window);
      }
    }
  }

  // In entity order a row that does not continue the last entity starts a new one.
  lemma AscendingFront(rows: seq<Fact>)
    requires EntityAscending(rows) && rows != []
    ensures var f, x := Front(rows), Last(rows);
      && EntityAscending(f)
      && (f == [] || Last(f).entityId != x.entityId ==> forall i :: 0 <= i < |f| ==> f[i].entityId != x.entityId)
  {
    var f := Front(rows);
    forall i | 0 <= i < |f|
      ensures f[i].entityId <= Last(f).entityId <= Last(rows).entityId
    {
      assert rows[i].entityId <= rows[|f| - 1].entityId <= rows[|f|].entityId;
    }
  }

  // A row of an entity not seen before starts a group and a run of its own.
  lemma NewGroup(f: seq<Fact>, x: Fact, window: int)
    requires forall i :: 0 <= i < |f| ==> f[i].entityId != x.entityId
    requires ClustersOver(f, window, Entities(f)) == Runs(f, window)
    ensures ClustersOver(f + [x], window, Entities(f + [x])) == Runs(f + [x], window)
  {
    var order := Entities(f);
    assert Front(f + [x]) == f && Last(f + [x]) == x;
    EntitiesListed(f);
    assert x.entityId !in order;
    UntouchedClusters(f, x, window, order);
    AbsentEntity(f, x.entityId);
    assert ByEntity(f + [x], x.entityId) == [x];
    assert Split([x], window) == [[x]] by { assert Front([x]) == []; }
    assert Front(order + [x.entityId]) == order && Last(order + [x.entityId]) == x.entityId;
    NewRun(f, x, window);
  }

  lemma NewRun(f: seq<Fact>, x: Fact, window: int)
    requires forall i :: 0 <= i < |f| ==> f[i].entityId != x.entityId
    ensures Runs(f + [x], window) == Runs(f, window) + [[x]]
  {
    assert Front(f + [x]) == f && Last(f + [x]) == x;
    RunsShape(f, window);
    if f != [] {
      assert f[|f| - 1].entityId != x.entityId;
    }
  }

  // A row of the last entity extends the last group, with the same cut in both readings.
  lemma ExtendLastGroup(f: seq<Fact>, x: Fact, window: int, order: seq<nat>)
    requires f != [] && order == Entities(f) && order != []
    requires Last(order) == x.entityId == Last(f).entityId
    requires ClustersOver(f, window, order) == Runs(f, window)
    ensures Entities(f + [x]) == order
    ensures ClustersOver(f + [x], window, order) == Runs(f + [x], window)
  {
    hide Entities, ByEntity, Split, Runs;
    var e := x.entityId;
    EntitiesListed(f);
    FrontLast(order);
    KnownEntity(f, x);
    UntouchedClusters(f, x, window, Front(order));
    RunsSnoc(f, x, window);
    OwnGroup(f, x);
    SplitSnoc(ByEntity(f, e), x, window);
    JoinLast(ClustersOver(f, window, Front(order)), Split(ByEntity(f, e), window), x);
  }

  lemma KnownEntity(f: seq<Fact>, x: Fact)
    requires x.entityId in Entities(f)
    ensures Entities(f + [x]) == Entities(f)
  {
    Snoc(f, x);
  }

  lemma OwnGroup(f: seq<Fact>, x: Fact)
    requires f != [] && Last(f).entityId == x.entityId
    ensures ByEntity(f + [x], x.entityId) == ByEntity(f, x.entityId) + [x]
    ensures ByEntity(f, x.entityId) != [] && Last(ByEntity(f, x.entityId)) == Last(f)
  {
    Snoc(f, x);
  }

  lemma SplitSnoc(group: seq<Fact>, x: Fact, window: int)
    requires group != []
    ensures var parts := Split(group, window);
      && parts != []
      && Split(group + [x], window)
         == if x.eventTs - Last(group).eventTs <= window then Front(parts) + [Last(parts) + [x]] else parts + [[x]]
  {
    SplitShape(group, window);
    assert Front(group + [x]) == group && Last(group + [x]) == x;
  }

  lemma JoinLast(before: seq<seq<Fact>>, parts: seq<seq<Fact>>, x: Fact)
    requires parts != []
    ensures Last(before + parts) == Last(parts)
    ensures before + (Front(parts) + [Last(parts) + [x]]) == Front(before + parts) + [Last(parts) + [x]]
    ensures before + (parts + [[x]]) == (before + parts) + [[x]]
  {
  }

  lemma BeforeIsTotal()
    ensures TotalPreorder(Before)
    ensures forall f, g :: Before(f, g) && Before(g, f) ==> f.detectionId == g.detectionId
  {
  }

  lemma SortedFactsProperties(facts: seq<Fact>)
    ensures SortedBy(Before, SortedFacts(facts)) && multiset(SortedFacts(facts)) == multiset(facts)
    ensures forall f :: f in SortedFacts(facts) <==> f in facts
    ensures EntityAscending(SortedFacts(facts))
  {
    BeforeIsTotal();
    SortedProperties(Before, facts);
    forall f
      ensures f in SortedFacts(facts) <==> f in facts
    {
      assert f in SortedFacts(facts) <==> f in multiset(SortedFacts(facts));
    }
  }

  lemma ClustersAreRuns(facts: seq<Fact>, window: int)
    ensures Clusters(facts, window) == Runs(SortedFacts(facts), window)
  {
    var rows := SortedFacts(facts);
    var le := (a: nat, b: nat) => a <= b;
    SortedFactsProperties(facts);
    GroupingIsOnePass(rows, window);
    if rows != [] {
      LastEntity(rows);
      SortedProperties(le, Entities(rows));
      SortedUnique(le, Sorted(le, Entities(rows)), Entities(rows));
    } else {
      assert Sorted(le, []) == [];
    }
  }

  // ---- clusters are connected components --------------------------------------------------

  ghost predicate Linked(f: Fact, g: Fact, window: int) {
    f.entityId == g.entityId && -window <= f.eventTs - g.eventTs <= window
  }

  ghost predicate ChainIn(facts: seq<Fact>, chain: seq<Fact>, window: int) {
    && (forall i :: 0 <= i < |chain| ==> chain[i] in facts)
    && (forall i :: 0 <= i < |chain| - 1 ==> Linked(chain[i], chain[i + 1], window))
  }

  // f and g are joined by a chain of same-entity facts with gaps of at most the window.
  ghost predicate Connected(facts: seq<Fact>, window: int, f: Fact, g: Fact) {
    exists chain :: ChainIn(facts, chain, window) && chain != [] && chain[0] == f && Last(chain) == g
  }

  ghost predicate SameCluster(clusters: seq<seq<Fact>>, f: Fact, g: Fact) {
    exists i :: 0 <= i < |clusters| && f in clusters[i] && g in clusters[i]
  }

  // Positions i and j of the sorted rows are joined without a cut.
  ghost predicate Uncut(rows: seq<Fact>, window: int, i: nat, j: nat)
    requires i < |rows| && j < |rows|
  {
    forall k :: (i <= k < j || j <= k < i) ==> NoCutAfter(rows, window, k)
  }

  ghost predicate NoCutAfter(rows: seq<Fact>, window: int, k: nat)
    requires k + 1 < |rows|
  {
    Near(rows[k], rows[k + 1], window)
  }

  ghost predicate Disjoint(clusters: seq<seq<Fact>>) {
    forall i, j, f :: 0 <= i < |clusters| && 0 <= j < |clusters| && f in clusters[i] && f in clusters[j] ==> i == j
  }

  // One more row joins the last run or opens its own; every other member stays where it was.
  ghost predicate Grows(done: seq<seq<Fact>>, all: seq<seq<Fact>>, x: Fact) {
    && |done| <= |all| && all != [] && x in all[|all| - 1]
    && (forall i :: 0 <= i < |all| - 1 ==> i < |done| && all[i] == done[i])
    && (forall i, g :: 0 <= i < |all| && g in all[i] ==> g == x || (i < |done| && g in done[i]))
    && (forall i, g :: 0 <= i < |done| && g in done[i] ==> g in all[i])
  }

  lemma RunsGrow(f: seq<Fact>, x: Fact, window: int)
    ensures Grows(Runs(f, window), Runs(f + [x], window), x)
  {
    hide Runs, Near, Grows;
    RunsSnoc(f, x, window);
    if JoinsLast(f, x, window) {
      LastGrows(Runs(f, window), x);
    } else {
      NewGrows(Runs(f, window), x);
    }
  }

  ghost predicate JoinsLast(f: seq<Fact>, x: Fact, window: int) {
    f != [] && Near(Last(f), x, window)
  }

  lemma RunsSnoc(f: seq<Fact>, x: Fact, window: int)
    ensures var done := Runs(f, window);
      if JoinsLast(f, x, window)
      then done != [] && Runs(f + [x], window) == Front(done) + [Last(done) + [x]]
      else Runs(f + [x], window) == done + [[x]]
  {
    hide Near;
    Snoc(f, x);
    RunsShape(f, window);
  }

  lemma LastGrows(done: seq<seq<Fact>>, x: Fact)
    requires done != []
    ensures Grows(done, Front(done) + [Last(done) + [x]], x)
  {
  }

  lemma NewGrows(done: seq<seq<Fact>>, x: Fact)
    ensures Grows(done, done + [[x]], x)
  {
  }

  lemma {:induction false} RunsDisjoint(rows: seq<Fact>, window: int)
    requires Distinct(rows)
    ensures forall f :: f in rows <==> exists i :: 0 <= i < |Runs(rows, window)| && f in Runs(rows, window)[i]
    ensures Disjoint(Runs(rows, window))
  {
    hide Runs;
    if rows == [] {
      assert Runs(rows, window) == [] by { NoRuns(window); }
    } else {
      var f, x := Front(rows), Last(rows);
      FrontLast(rows);
      RunsDisjoint(f, window);
      RunsGrow(f, x, window);
      assert x !in f;
      var done, all := Runs(f, window), Runs(rows, window);
      forall i, g | 0 <= i < |done| && g in done[i]
        ensures g in f
      {
      }
      LastRunOnly(done, all, f, x);
    }
  }

  lemma NoRuns(window: int)
    ensures Runs([], window) == []
  {
  }

  lemma LastRunOnly(done: seq<seq<Fact>>, all: seq<seq<Fact>>, f: seq<Fact>, x: Fact)
    requires Grows(done, all, x) && Disjoint(done) && x !in f
    requires forall g :: g in f <==> exists i :: 0 <= i < |done| && g in done[i]
    ensures forall g :: g in f + [x] <==> exists i :: 0 <= i < |all| && g in all[i]
    ensures Disjoint(all)
  {
  }

  // Two rows share a run exactly when no cut lies between them.
  lemma {:induction false} SharedRunIsUncut(rows: seq<Fact>, window: int, i: nat, j: nat)
    requires Distinct(rows) && i <= j < |rows|
    ensures SameCluster(Runs(rows, window), rows[i], rows[j]) <==> Uncut(rows, window, i, j)
  {
    hide Runs, Near;
    var f, x, n := Front(rows), Last(rows), |rows| - 1;
    FrontLast(rows);
    if j < n {
      SharedRunIsUncut(f, window, i, j);
      SharedBefore(f, x, window, f[i], f[j]);
      UncutFront(rows, window, i, j);
    } else if i == n {
      RunsDisjoint(rows, window);
      assert rows[i] in rows;
    } else {
      SharedRunIsUncut(f, window, i, n - 1);
      SharedWithLast(f, x, window, f[i]);
      UncutFront(rows, window, i, n - 1);
      assert NoCutAfter(rows, window, n - 1) <==> Near(Last(f), x, window);
      UncutSnoc(rows, window, i);
    }
  }

  lemma UncutSnoc(rows: seq<Fact>, window: int, i: nat)
    requires i < |rows| - 1
    ensures Uncut(rows, window, i, |rows| - 1)
       <==> Uncut(rows, window, i, |rows| - 2) && NoCutAfter(rows, window, |rows| - 2)
  {
  }

  lemma UncutFront(rows: seq<Fact>, window: int, i: nat, j: nat)
    requires i <= j < |rows| - 1
    ensures Uncut(rows, window, i, j) <==> Uncut(Front(rows), window, i, j)
  {
    forall k | i <= k < j
      ensures NoCutAfter(rows, window, k) <==> NoCutAfter(Front(rows), window, k)
    {
    }
  }

  lemma SharedBefore(f: seq<Fact>, x: Fact, window: int, g: Fact, h: Fact)
    requires Distinct(f + [x]) && g in f && h in f
    ensures SameCluster(Runs(f + [x], window), g, h) <==> SameCluster(Runs(f, window), g, h)
  {
    hide Runs;
    assert x !in f by { assert (f + [x])[|f|] == x && forall i :: 0 <= i < |f| ==> (f + [x])[i] == f[i]; }
    RunsGrow(f, x, window);
    var done, all := Runs(f, window), Runs(f + [x], window);
    if SameCluster(done, g, h) {
      var i :| 0 <= i < |done| && g in done[i] && h in done[i];
      assert g in all[i] && h in all[i];
    }
    if SameCluster(all, g, h) {
      var i :| 0 <= i < |all| && g in all[i] && h in all[i];
      assert i < |done| && g in done[i] && h in done[i];
    }
  }

  lemma DistinctSnoc(f: seq<Fact>, x: Fact)
    requires Distinct(f + [x])
    ensures Distinct(f) && x !in f
  {
    var all := f + [x];
    assert all[|f|] == x && forall i :: 0 <= i < |f| ==> all[i] == f[i];
  }

  lemma SharedWithLast(f: seq<Fact>, x: Fact, window: int, g: Fact)
    requires f != [] && Distinct(f + [x]) && g in f
    ensures SameCluster(Runs(f + [x], window), g, x)
       <==> Near(Last(f), x, window) && SameCluster(Runs(f, window), g, Last(f))
  {
    hide Runs, Near;
    DistinctSnoc(f, x);
    var done, all := Runs(f, window), Runs(f + [x], window);
    RunsSnoc(f, x, window);
    RunsShape(f, window);
    RunsDisjoint(f, window);
    assert done[|done| - 1] in done && Last(f) in done[|done| - 1];
    if SameCluster(all, g, x) {
      var i :| 0 <= i < |all| && g in all[i] && x in all[i];
      assert i == |all| - 1;
      if Near(Last(f), x, window) {
        assert g in done[|done| - 1];
      }
    }
    if Near(Last(f), x, window) && SameCluster(done, g, Last(f)) {
      var i :| 0 <= i < |done| && g in done[i] && Last(f) in done[i];
      assert i == |done| - 1;
      assert g in all[i] && x in all[i];
    }
  }

  lemma DistinctFacts(facts: seq<Fact>)
    requires DistinctIds(facts)
    ensures Distinct(facts) && Distinct(SortedFacts(facts)) && DistinctIds(SortedFacts(facts))
  {
    SortedFactsProperties(facts);
    DistinctMultiplicity(facts);
    DistinctMultiplicity(SortedFacts(facts));
    var rows := SortedFacts(facts);
    forall i, j | 0 <= i < j < |rows|
      ensures rows[i].detectionId != rows[j].detectionId
    {
      assert rows[i] in rows && rows[j] in rows;
      var a :| 0 <= a < |facts| && facts[a] == rows[i];
      var b :| 0 <= b < |facts| && facts[b] == rows[j];
    }
  }

  // A direct link between two facts leaves no cut between their positions.
  lemma LinkIsUncut(rows: seq<Fact>, window: int, i: nat, j: nat)
    requires SortedBy(Before, rows) && i < |rows| && j < |rows| && Linked(rows[i], rows[j], window)
    ensures Uncut(rows, window, i, j)
  {
    forall k | i <= k < j || j <= k < i
      ensures NoCutAfter(rows, window, k)
    {
      var lo, hi := if i <= j then i else j, if i <= j then j else i;
      assert Before(rows[k], rows[k + 1]);
      assert lo < k ==> Before(rows[lo], rows[k]);
      assert k + 1 < hi ==> Before(rows[k + 1], rows[hi]);
    }
  }

  lemma {:induction false} ChainIsUncut(rows: seq<Fact>, window: int, chain: seq<Fact>, i: nat, j: nat)
    requires SortedBy(Before, rows) && Distinct(rows) && ChainIn(rows, chain, window) && chain != []
    requires i < |rows| && j < |rows| && rows[i] == chain[0] && rows[j] == Last(chain)
    ensures Uncut(rows, window, i, j)
  {
    if |chain| == 1 {
      assert i == j;
    } else {
      var f := Front(chain);
      assert Last(f) in rows;
      var m :| 0 <= m < |rows| && rows[m] == Last(f);
      ChainIsUncut(rows, window, f, i, m);
      assert Linked(chain[|chain| - 2], chain[|chain| - 1], window);
      LinkIsUncut(rows, window, m, j);
    }
  }

  // An uncut stretch of the sorted rows is itself a chain.
  lemma {:induction false} UncutIsChain(rows: seq<Fact>, window: int, i: nat, j: nat)
    requires SortedBy(Before, rows) && i <= j < |rows| && Uncut(rows, window, i, j) && window >= 0
    ensures ChainIn(rows, rows[i..j + 1], window)
  {
    var chain := rows[i..j + 1];
    forall k | 0 <= k < |chain| - 1
      ensures Linked(chain[k], chain[k + 1], window)
    {
      assert NoCutAfter(rows, window, i + k) && Before(rows[i + k], rows[i + k + 1]);
    }
  }

  lemma ConnectedSymmetric(facts: seq<Fact>, window: int, f: Fact, g: Fact)
    ensures Connected(facts, window, f, g) ==> Connected(facts, window, g, f)
  {
    if !Connected(facts, window, f, g) {
      return;
    }
    var chain :| ChainIn(facts, chain, window) && chain != [] && chain[0] == f && Last(chain) == g;
    var n := |chain|;
    var back := seq(n, i requires 0 <= i < n => chain[n - 1 - i]);
    forall i | 0 <= i < n - 1
      ensures Linked(back[i], back[i + 1], window)
    {
      assert Linked(chain[n - 2 - i], chain[n - 2 - i + 1], window);
    }
    assert ChainIn(facts, back, window) && back[0] == g && Last(back) == f;
  }

  // Two facts share a cluster exactly when a chain of same-entity facts with gaps of at most
  // the window joins them.
  lemma ClustersAreComponents(facts: seq<Fact>, window: int, f: Fact, g: Fact)
    requires DistinctIds(facts) && window >= 0 && f in facts && g in facts
    ensures SameCluster(Clusters(facts, window), f, g) <==> Connected(facts, window, f, g)
  {
    hide Runs, Clusters, SortedFacts, Linked;
    var rows := SortedFacts(facts);
    SortedFactsProperties(facts);
    DistinctFacts(facts);
    ClustersAreRuns(facts, window);
    assert f in rows && g in rows;
    var i :| 0 <= i < |rows| && rows[i] == f;
    var j :| 0 <= j < |rows| && rows[j] == g;
    ChainsIgnoreOrder(facts, rows, window, f, g);
    if i <= j {
      SharedRunIsUncut(rows, window, i, j);
      UncutIsConnected(rows, window, i, j);
    } else {
      SharedRunIsUncut(rows, window, j, i);
      UncutIsConnected(rows, window, j, i);
      ConnectedSymmetric(rows, window, f, g);
      ConnectedSymmetric(rows, window, g, f);
      SameClusterSymmetric(Runs(rows, window), f, g);
    }
  }

  lemma SameClusterSymmetric(clusters: seq<seq<Fact>>, f: Fact, g: Fact)
    ensures SameCluster(clusters, f, g) <==> SameCluster(clusters, g, f)
  {
  }

  lemma ChainsIgnoreOrder(a: seq<Fact>, b: seq<Fact>, window: int, f: Fact, g: Fact)
    requires forall x :: x in a <==> x in b
    ensures Connected(a, window, f, g) <==> Connected(b, window, f, g)
  {
    if Connected(a, window, f, g) {
      var chain :| ChainIn(a, chain, window) && chain != [] && chain[0] == f && Last(chain) == g;
      assert ChainIn(b, chain, window);
    }
    if Connected(b, window, f, g) {
      var chain :| ChainIn(b, chain, window) && chain != [] && chain[0] == f && Last(chain) == g;
      assert ChainIn(a, chain, window);
    }
  }

  lemma UncutIsConnected(rows: seq<Fact>, window: int, i: nat, j: nat)
    requires SortedBy(Before, rows) && Distinct(rows) && i <= j < |rows| && window >= 0
    ensures Uncut(rows, window, i, j) <==> Connected(rows, window, rows[i], rows[j])
  {
    if Uncut(rows, window, i, j) {
      UncutIsChain(rows, window, i, j);
      var chain := rows[i..j + 1];
      assert chain[0] == rows[i] && Last(chain) == rows[j];
    }
    if Connected(rows, window, rows[i], rows[j]) {
      var chain :| ChainIn(rows, chain, window) && chain != [] && chain[0] == rows[i] && Last(chain) == rows[j];
      ChainIsUncut(rows, window, chain, i, j);
    }
  }

  // ---- partition, permutation, widening, union --------------------------------------------

  ghost function Flatten(clusters: seq<seq<Fact>>): seq<Fact> {
    if clusters == [] then [] else Flatten(Front(clusters)) + Last(clusters)
  }

  lemma {:induction false} RunsFlatten(rows: seq<Fact>, window: int)
    ensures Flatten(Runs(rows, window)) == rows
  {
    if rows != [] {
      hide Runs, JoinsLast, Flatten;
      var f, x := Front(rows), Last(rows);
      FrontLast(rows);
      RunsFlatten(f, window);
      RunsSnoc(f, x, window);
      var done := Runs(f, window);
      if JoinsLast(f, x, window) {
        FrontLast(done);
        FlattenSnoc(Front(done), Last(done));
        FlattenSnoc(Front(done), Last(done) + [x]);
      } else {
        FlattenSnoc(done, [x]);
      }
    }
  }

  lemma FlattenSnoc(clusters: seq<seq<Fact>>, c: seq<Fact>)
    ensures Flatten(clusters + [c]) == Flatten(clusters) + c
  {
    Snoc(clusters, c);
  }

  ghost predicate NonEmpty(clusters: seq<seq<Fact>>) {
    forall i :: 0 <= i < |clusters| ==> clusters[i] != []
  }

  // Every fact is in exactly one cluster, and no cluster is empty.
  lemma ClustersPartition(facts: seq<Fact>, window: int)
    ensures multiset(Flatten(Clusters(facts, window))) == multiset(facts)
    ensures NonEmpty(Clusters(facts, window))
    ensures DistinctIds(facts) ==> Disjoint(Clusters(facts, window))
  {
    hide Clusters, Runs, SortedFacts, Disjoint, Flatten, DistinctIds;
    ClustersAreRuns(facts, window);
    SortedFactsProperties(facts);
    RunsFlatten(SortedFacts(facts), window);
    RunsShape(SortedFacts(facts), window);
    var runs := Runs(SortedFacts(facts), window);
    assert forall i :: 0 <= i < |runs| ==> runs[i] in runs;
    if DistinctIds(facts) {
      DistinctFacts(facts);
      RunsDisjoint(SortedFacts(facts), window);
    }
  }

  // The input order is irrelevant, down to the order of the clusters and their members.
  lemma ClustersIgnoreOrder(facts: seq<Fact>, shuffled: seq<Fact>, window: int)
    requires DistinctIds(facts) && multiset(facts) == multiset(shuffled)
    ensures Clusters(facts, window) == Clusters(shuffled, window)
  {
    SortedFactsProperties(facts);
    SortedFactsProperties(shuffled);
    BeforeIsTotal();
    var rows := SortedFacts(facts);
    DistinctFacts(facts);
    SortedUnique(Before, rows, SortedFacts(shuffled));
  }

  // A wider window only merges clusters.
  lemma WiderWindowMerges(facts: seq<Fact>, window: int, wider: int, f: Fact, g: Fact)
    requires DistinctIds(facts) && 0 <= window <= wider && f in facts && g in facts
    requires SameCluster(Clusters(facts, window), f, g)
    ensures SameCluster(Clusters(facts, wider), f, g)
  {
    ClustersAreComponents(facts, window, f, g);
    ClustersAreComponents(facts, wider, f, g);
    var chain :| ChainIn(facts, chain, window) && chain != [] && chain[0] == f && Last(chain) == g;
    assert ChainIn(facts, chain, wider) by {
      assert forall i :: 0 <= i < |chain| - 1 ==> Linked(chain[i], chain[i + 1], window);
    }
  }

  // No fact of a is within the window of a fact of b of the same entity.
  ghost predicate Apart(a: seq<Fact>, b: seq<Fact>, window: int) {
    forall f, g :: f in a && g in b ==> !Linked(f, g, window)
  }

  lemma {:induction false} ChainStays(a: seq<Fact>, b: seq<Fact>, window: int, chain: seq<Fact>)
    requires Apart(a, b, window) && ChainIn(a + b, chain, window) && chain != []
    ensures ChainIn(a, chain, window) || ChainIn(b, chain, window)
  {
    if |chain| == 1 {
      assert chain[0] in a + b;
    } else {
      var f := Front(chain);
      forall i | 0 <= i < |f| - 1
        ensures Linked(f[i], f[i + 1], window)
      {
        assert Linked(chain[i], chain[i + 1], window);
      }
      ChainStays(a, b, window, f);
      var y, x := chain[|chain| - 2], chain[|chain| - 1];
      assert Linked(y, x, window) && Linked(x, y, window) && x in a + b;
      assert y == f[|f| - 1];
      FrontLast(chain);
      if ChainIn(a, f, window) {
        assert y in a && x in a;
        assert forall i :: 0 <= i < |chain| ==> chain[i] in a;
      } else {
        assert y in b && x in b;
        assert forall i :: 0 <= i < |chain| ==> chain[i] in b;
      }
    }
  }

  // Two batches whose times are more than a window apart cluster as their union does.
  lemma SeparateBatchesCompose(a: seq<Fact>, b: seq<Fact>, window: int, f: Fact, g: Fact)
    requires DistinctIds(a + b) && window >= 0 && Apart(a, b, window) && f in a + b && g in a + b
    ensures SameCluster(Clusters(a + b, window), f, g)
       <==> SameCluster(Clusters(a, window), f, g) || SameCluster(Clusters(b, window), f, g)
  {
    DistinctParts(a, b);
    ClustersAreComponents(a + b, window, f, g);
    ClusterMembers(a, window, f, g);
    ClusterMembers(b, window, f, g);
    if Connected(a + b, window, f, g) {
      var chain :| ChainIn(a + b, chain, window) && chain != [] && chain[0] == f && Last(chain) == g;
      ChainStays(a, b, window, chain);
      assert f == chain[0] && g == chain[|chain| - 1];
    }
    if Connected(a, window, f, g) {
      var chain :| ChainIn(a, chain, window) && chain != [] && chain[0] == f && Last(chain) == g;
      assert ChainIn(a + b, chain, window);
    }
    if Connected(b, window, f, g) {
      var chain :| ChainIn(b, chain, window) && chain != [] && chain[0] == f && Last(chain) == g;
      assert ChainIn(a + b, chain, window);
    }
  }

  lemma DistinctParts(a: seq<Fact>, b: seq<Fact>)
    requires DistinctIds(a + b)
    ensures DistinctIds(a) && DistinctIds(b)
  {
    assert forall i :: 0 <= i < |a| ==> (a + b)[i] == a[i];
    assert forall i :: 0 <= i < |b| ==> (a + b)[|a| + i] == b[i];
  }

  lemma ClusterMembers(facts: seq<Fact>, window: int, f: Fact, g: Fact)
    requires DistinctIds(facts) && window >= 0
    ensures SameCluster(Clusters(facts, window), f, g) <==> Connected(facts, window, f, g)
  {
    if f in facts && g in facts {
      ClustersAreComponents(facts, window, f, g);
    } else {
      SortedFactsProperties(facts);
      DistinctFacts(facts);
      ClustersAreRuns(facts, window);
      RunsDisjoint(SortedFacts(facts), window);
      forall chain | ChainIn(facts, chain, window) && chain != []
        ensures chain[0] in facts && Last(chain) in facts
      {
        assert chain[|chain| - 1] in facts;
      }
    }
  }

  // ---- the clusters of a union, one by one ---------------------------------------------------

  lemma {:induction false} PartsOfSorted(clusters: seq<seq<Fact>>, i: nat)
    requires SortedBy(Before, Flatten(clusters)) && i < |clusters|
    ensures SortedBy(Before, clusters[i])
  {
    var f, l := Flatten(Front(clusters)), Last(clusters);
    assert Flatten(clusters) == f + l;
    if i < |clusters| - 1 {
      assert forall j :: 0 <= j < |f| ==> f[j] == (f + l)[j];
      PartsOfSorted(Front(clusters), i);
    } else {
      assert forall j :: 0 <= j < |l| ==> l[j] == (f + l)[|f| + j];
    }
  }

  lemma {:induction false} PartsOfDistinct(clusters: seq<seq<Fact>>, i: nat)
    requires Distinct(Flatten(clusters)) && i < |clusters|
    ensures Distinct(clusters[i])
  {
    var f, l := Flatten(Front(clusters)), Last(clusters);
    assert Flatten(clusters) == f + l;
    if i < |clusters| - 1 {
      assert forall j :: 0 <= j < |f| ==> f[j] == (f + l)[j];
      PartsOfDistinct(Front(clusters), i);
    } else {
      assert forall j :: 0 <= j < |l| ==> l[j] == (f + l)[|f| + j];
    }
  }

  lemma {:induction false} MembersOfFlatten(clusters: seq<seq<Fact>>, f: Fact)
    ensures f in Flatten(clusters) <==> exists i :: 0 <= i < |clusters| && f in clusters[i]
  {
    if clusters != [] {
      var front := Front(clusters);
      MembersOfFlatten(front, f);
      assert f in Flatten(clusters) <==> f in Flatten(front) || f in clusters[|front|];
      assert forall i :: 0 <= i < |front| ==> front[i] == clusters[i];
    }
  }

  // What a cluster is: sorted, without repeats, and all that shares it with any of its members.
  ghost predicate IsClusterOf(facts: seq<Fact>, window: int, c: seq<Fact>) {
    && c != [] && SortedBy(Before, c) && Distinct(c)
    && (forall f :: f in c ==> f in facts)
    && (forall f, g :: f in c ==> (g in c <==> SameCluster(Clusters(facts, window), f, g)))
  }

  lemma ClusterShape(facts: seq<Fact>, window: int, i: nat)
    requires DistinctIds(facts) && i < |Clusters(facts, window)|
    ensures IsClusterOf(facts, window, Clusters(facts, window)[i])
  {
    hide Clusters;
    ClustersPartition(facts, window);
    var cs := Clusters(facts, window);
    SortedFlatten(facts, window);
    PartsOfSorted(cs, i);
    PartsOfDistinct(cs, i);
    forall f | f in cs[i]
      ensures f in facts
    {
      MembersOfFlatten(cs, f);
      assert f in multiset(Flatten(cs));
    }
    assert forall f, g :: f in cs[i] && g in cs[i] ==> SameCluster(cs, f, g);
  }

  lemma SortedFlatten(facts: seq<Fact>, window: int)
    requires DistinctIds(facts)
    ensures SortedBy(Before, Flatten(Clusters(facts, window))) && Distinct(Flatten(Clusters(facts, window)))
  {
    hide Runs, Split;
    ClustersAreRuns(facts, window);
    SortedFactsProperties(facts);
    RunsFlatten(SortedFacts(facts), window);
    DistinctFacts(facts);
  }

  // Two sorted lists without repeats and with the same members are equal.
  lemma SameMembers(c: seq<Fact>, d: seq<Fact>)
    requires SortedBy(Before, c) && SortedBy(Before, d) && Distinct(c) && Distinct(d)
    requires forall f :: f in c <==> f in d
    requires forall f, g :: f in c && g in c && Before(f, g) && Before(g, f) ==> f == g
    ensures c == d
  {
    DistinctMultiplicity(c);
    DistinctMultiplicity(d);
    forall f
      ensures multiset(c)[f] == multiset(d)[f]
    {
      assert (f in c <==> f in multiset(c)) && (f in d <==> f in multiset(d));
    }
    assert multiset(c) == multiset(d);
    BeforeIsTotal();
    SortedUnique(Before, c, d);
  }

  lemma NoTies(facts: seq<Fact>, f: Fact, g: Fact)
    requires DistinctIds(facts) && f in facts && g in facts && Before(f, g) && Before(g, f)
    ensures f == g
  {
  }

  // A cluster that holds a fact of the part is the part's cluster of that fact.
  lemma PartCluster(all: seq<Fact>, part: seq<Fact>, window: int, c: seq<Fact>, d: seq<Fact>, f: Fact)
    requires DistinctIds(all) && IsClusterOf(all, window, c) && IsClusterOf(part, window, d) && f in c && f in d
    requires forall g :: SameCluster(Clusters(all, window), f, g) <==> SameCluster(Clusters(part, window), f, g)
    ensures c == d
  {
    hide Clusters, SameCluster;
    forall g, h | g in c && h in c && Before(g, h) && Before(h, g)
      ensures g == h
    {
      NoTies(all, g, h);
    }
    SameMembers(c, d);
  }

  // For a fact of the first of two separate batches the union's clusters are the batch's own.
  lemma SharesInPart(a: seq<Fact>, b: seq<Fact>, window: int, f: Fact, g: Fact)
    requires DistinctIds(a + b) && window >= 0 && Apart(a, b, window) && f in a
    ensures SameCluster(Clusters(a + b, window), f, g) <==> SameCluster(Clusters(a, window), f, g)
  {
    hide Clusters, SameCluster, Apart;
    DistinctParts(a, b);
    ClusterMembers(a + b, window, f, g);
    ClusterMembers(a, window, f, g);
    if g in a + b {
      SeparateBatchesCompose(a, b, window, f, g);
      NotConnectedOutside(a, b, window, f, g);
    } else {
      OnlyMembersConnect(a + b, window, f, g);
      OnlyMembersConnect(a, window, f, g);
    }
  }

  lemma OnlyMembersConnect(facts: seq<Fact>, window: int, f: Fact, g: Fact)
    ensures Connected(facts, window, f, g) ==> f in facts && g in facts
  {
    if Connected(facts, window, f, g) {
      var chain :| ChainIn(facts, chain, window) && chain != [] && chain[0] == f && Last(chain) == g;
      assert chain[|chain| - 1] in facts;
    }
  }

  lemma NotConnectedOutside(a: seq<Fact>, b: seq<Fact>, window: int, f: Fact, g: Fact)
    requires DistinctIds(a + b) && window >= 0 && f in a
    ensures !SameCluster(Clusters(b, window), f, g)
  {
    hide Clusters, SameCluster;
    DistinctParts(a, b);
    ClusterMembers(b, window, f, g);
    OnlyMembersConnect(b, window, f, g);
    NotInBoth(a, b, f);
  }

  lemma NotInBoth(a: seq<Fact>, b: seq<Fact>, f: Fact)
    requires DistinctIds(a + b) && f in a
    ensures f !in b
  {
    var i :| 0 <= i < |a| && a[i] == f;
    forall j | 0 <= j < |b|
      ensures b[j] != f
    {
      assert (a + b)[i] == f && (a + b)[|a| + j] == b[j];
    }
  }

  // Every cluster of the union that starts in the first batch is one of the batch's.
  lemma UnionClusterInPart(a: seq<Fact>, b: seq<Fact>, window: int, c: seq<Fact>)
    requires DistinctIds(a + b) && window >= 0 && Apart(a, b, window)
    requires c in Clusters(a + b, window) && c != [] && c[0] in a
    ensures c in Clusters(a, window)
  {
    hide Clusters, SameCluster, Apart, IsClusterOf;
    DistinctParts(a, b);
    var i :| 0 <= i < |Clusters(a + b, window)| && Clusters(a + b, window)[i] == c;
    ClusterShape(a + b, window, i);
    var k := OwnCluster(a, window, c[0]);
    ClusterShape(a, window, k);
    forall g
      ensures SameCluster(Clusters(a + b, window), c[0], g) <==> SameCluster(Clusters(a, window), c[0], g)
    {
      SharesInPart(a, b, window, c[0], g);
    }
    PartCluster(a + b, a, window, c, Clusters(a, window)[k], c[0]);
  }

  lemma OwnCluster(facts: seq<Fact>, window: int, f: Fact) returns (k: nat)
    requires f in facts
    ensures k < |Clusters(facts, window)| && f in Clusters(facts, window)[k]
  {
    hide Clusters;
    ClustersPartition(facts, window);
    MembersOfFlatten(Clusters(facts, window), f);
    assert f in multiset(facts) && f in multiset(Flatten(Clusters(facts, window)));
    k :| 0 <= k < |Clusters(facts, window)| && f in Clusters(facts, window)[k];
  }

  // And every cluster of the first batch is one of the union's.
  lemma PartClusterInUnion(a: seq<Fact>, b: seq<Fact>, window: int, d: seq<Fact>)
    requires DistinctIds(a + b) && window >= 0 && Apart(a, b, window) && d in Clusters(a, window)
    ensures d in Clusters(a + b, window)
  {
    hide Clusters, SameCluster, Apart, IsClusterOf;
    DistinctParts(a, b);
    var i :| 0 <= i < |Clusters(a, window)| && Clusters(a, window)[i] == d;
    ClusterShape(a, window, i);
    assert d != [] && d[0] in a by { ShapeMembers(a, window, d); }
    var k := OwnCluster(a + b, window, d[0]);
    ClusterShape(a + b, window, k);
    forall g
      ensures SameCluster(Clusters(a + b, window), d[0], g) <==> SameCluster(Clusters(a, window), d[0], g)
    {
      SharesInPart(a, b, window, d[0], g);
    }
    PartCluster(a + b, a, window, Clusters(a + b, window)[k], d, d[0]);
  }

  lemma ShapeMembers(facts: seq<Fact>, window: int, c: seq<Fact>)
    requires IsClusterOf(facts, window, c)
    ensures c != [] && c[0] in facts
  {
    assert c[0] in c;
  }

  // Where position i of b + a stands in a + b.
  function Swapped(a: seq<Fact>, b: seq<Fact>, i: nat): nat
    requires i < |b + a|
  {
    if i < |b| then |a| + i else i - |b|
  }

  lemma SwappedIds(a: seq<Fact>, b: seq<Fact>)
    requires DistinctIds(a + b)
    ensures DistinctIds(b + a)
  {
    forall i, j | 0 <= i < j < |b + a|
      ensures (b + a)[i].detectionId != (b + a)[j].detectionId
    {
      var x, y := Swapped(a, b, i), Swapped(a, b, j);
      assert (a + b)[x] == (b + a)[i] && (a + b)[y] == (b + a)[j];
      if x < y {
        assert (a + b)[x].detectionId != (a + b)[y].detectionId;
      } else {
        assert (a + b)[y].detectionId != (a + b)[x].detectionId;
      }
    }
  }

  lemma SwappedApart(a: seq<Fact>, b: seq<Fact>, window: int)
    requires Apart(a, b, window)
    ensures Apart(b, a, window)
  {
    forall f, g | f in b && g in a
      ensures !Linked(f, g, window)
    {
      assert !Linked(g, f, window);
    }
  }

  lemma SwappedUnion(a: seq<Fact>, b: seq<Fact>, window: int)
    requires DistinctIds(a + b) && Apart(a, b, window)
    ensures DistinctIds(b + a) && Clusters(a + b, window) == Clusters(b + a, window) && Apart(b, a, window)
  {
    hide DistinctIds, Clusters, Apart;
    SwappedIds(a, b);
    SwappedApart(a, b, window);
    assert multiset(a + b) == multiset(a) + multiset(b);
    assert multiset(b + a) == multiset(b) + multiset(a);
    ClustersIgnoreOrder(a + b, b + a, window);
  }

  // Two batches whose times are more than a window apart give, cluster by cluster, what their union gives.
  lemma UnionClusters(a: seq<Fact>, b: seq<Fact>, window: int, c: seq<Fact>)
    requires DistinctIds(a + b) && window >= 0 && Apart(a, b, window)
    ensures c in Clusters(a + b, window) <==> c in Clusters(a, window) || c in Clusters(b, window)
    ensures c in Clusters(a, window) ==> c !in Clusters(b, window)
  {
    hide Clusters, Apart, DistinctIds;
    SwappedUnion(a, b, window);
    if c in Clusters(a, window) {
      PartClusterInUnion(a, b, window, c);
    }
    if c in Clusters(b, window) {
      PartClusterInUnion(b, a, window, c);
    }
    DistinctParts(a, b);
    if c in Clusters(a + b, window) {
      StartsInside(a + b, window, c);
      if c[0] in a {
        UnionClusterInPart(a, b, window, c);
      } else {
        UnionClusterInPart(b, a, window, c);
      }
    }
    if c in Clusters(a, window) && c in Clusters(b, window) {
      StartsInside(a, window, c);
      StartsInside(b, window, c);
      NotInBoth(a, b, c[0]);
    }
  }

  lemma StartsInside(facts: seq<Fact>, window: int, c: seq<Fact>)
    requires DistinctIds(facts) && c in Clusters(facts, window)
    ensures c != [] && c[0] in facts
  {
    hide Clusters, IsClusterOf;
    var i :| 0 <= i < |Clusters(facts, window)| && Clusters(facts, window)[i] == c;
    ClusterShape(facts, window, i);
    ShapeMembers(facts, window, c);
  }

  lemma DistinctClusters(facts: seq<Fact>, window: int)
    requires DistinctIds(facts)
    ensures Distinct(Clusters(facts, window))
  {
    hide Clusters;
    ClustersPartition(facts, window);
    var cs := Clusters(facts, window);
    forall i, j | 0 <= i < j < |cs|
      ensures cs[i] != cs[j]
    {
      assert cs[i][0] in cs[i];
    }
  }

  // The same as a statement about the whole lists.
  lemma UnionClusterList(a: seq<Fact>, b: seq<Fact>, window: int)
    requires DistinctIds(a + b) && window >= 0 && Apart(a, b, window)
    ensures multiset(Clusters(a + b, window)) == multiset(Clusters(a, window) + Clusters(b, window))
  {
    hide Clusters, Apart, DistinctIds;
    DistinctParts(a, b);
    var u, p, q := Clusters(a + b, window), Clusters(a, window), Clusters(b, window);
    DistinctClusters(a + b, window);
    DistinctClusters(a, window);
    DistinctClusters(b, window);
    DistinctMultiplicity(u);
    DistinctMultiplicity(p);
    DistinctMultiplicity(q);
    assert multiset(p + q) == multiset(p) + multiset(q);
    forall c
      ensures multiset(u)[c] == multiset(p + q)[c]
    {
      UnionClusters(a, b, window, c);
      assert (c in u <==> c in multiset(u)) && (c in p <==> c in multiset(p)) && (c in q <==> c in multiset(q));
    }
  }

  // ---- one incident per cluster -------------------------------------------------------------

  datatype IncidentDraft = IncidentDraft(
    entityId: nat, riskScore: real, firstSeenAt: int, lastSeenAt: int,
    detectionCount: nat, detectionIds: seq<nat>, distinctDetectors: set<string>)

  function Ids(facts: seq<Fact>): seq<nat> {
    seq(|facts|, i requires 0 <= i < |facts| => facts[i].detectionId)
  }

  function MaxScore(cluster: seq<Fact>): real
    requires cluster != []
  {
    if |cluster| == 1 then cluster[0].score
    else var m := MaxScore(Front(cluster)); if m < Last(cluster).score then Last(cluster).score else m
  }

  function MinTs(cluster: seq<Fact>): int
    requires cluster != []
  {
    if |cluster| == 1 then cluster[0].eventTs
    else var m := MinTs(Front(cluster)); if Last(cluster).eventTs < m then Last(cluster).eventTs else m
  }

  function MaxTs(cluster: seq<Fact>): int
    requires cluster != []
  {
    if |cluster| == 1 then cluster[0].eventTs
    else var m := MaxTs(Front(cluster)); if m < Last(cluster).eventTs then Last(cluster).eventTs else m
  }

  function BuildIncidentDraft(cluster: seq<Fact>): IncidentDraft
    requires cluster != []
  {
    var detectors := set f | f in cluster :: f.detector;
    var risk := MaxScore(cluster) + 0.15 * (|detectors| - 1) as real;
    IncidentDraft(cluster[0].entityId, if risk < 1.0 then risk else 1.0, MinTs(cluster), MaxTs(cluster),
                  |cluster|, Sorted((a: nat, b: nat) => a <= b, Ids(cluster)), detectors)
  }

  lemma {:induction false} Extremes(cluster: seq<Fact>, f: Fact)
    requires f in cluster
    ensures f.score <= MaxScore(cluster)
    ensures MinTs(cluster) <= f.eventTs <= MaxTs(cluster)
    ensures exists g :: g in cluster && g.score == MaxScore(cluster)
    ensures exists g :: g in cluster && g.eventTs == MinTs(cluster)
    ensures exists g :: g in cluster && g.eventTs == MaxTs(cluster)
  {
    if |cluster| == 1 {
      assert cluster[0] in cluster;
    } else {
      var r := Front(cluster);
      FrontLast(cluster);
      Extremes(r, if f in r then f else r[0]);
      assert Last(cluster) in cluster;
      assert forall g :: g in r ==> g in cluster;
    }
  }

  // A draft spans exactly the members' times, and its risk is the highest score plus 0.15 for each
  // detector beyond the first, at most 1: at least every member's score, and above all of them when
  // detectors agree.
  lemma DraftSummarizes(cluster: seq<Fact>, f: Fact)
    requires f in cluster
    requires forall g :: g in cluster ==> 0.0 <= g.score <= 1.0
    ensures var d := BuildIncidentDraft(cluster);
      && d.firstSeenAt <= f.eventTs <= d.lastSeenAt
      && (exists g :: g in cluster && g.eventTs == d.firstSeenAt)
      && (exists g :: g in cluster && g.eventTs == d.lastSeenAt)
      && f.score <= d.riskScore <= 1.0
      && (exists g :: g in cluster && RiskFrom(g.score, |d.distinctDetectors|, d.riskScore))
      && (|d.distinctDetectors| > 1 && d.riskScore < 1.0 ==> f.score < d.riskScore)
      && (forall name :: name in d.distinctDetectors <==> exists g :: g in cluster && g.detector == name)
  {
    Extremes(cluster, f);
    var d := BuildIncidentDraft(cluster);
    assert f.detector in d.distinctDetectors;
    assert |d.distinctDetectors| >= 1;
    var top :| top in cluster && top.score == MaxScore(cluster);
    assert RiskFrom(top.score, |d.distinctDetectors|, d.riskScore);
  }

  predicate RiskFrom(score: real, detectors: nat, risk: real) {
    risk == if score + 0.15 * (detectors - 1) as real < 1.0 then score + 0.15 * (detectors - 1) as real else 1.0
  }

  // A draft lists exactly the members' ids, in ascending order, and counts them.
  lemma DraftLinks(cluster: seq<Fact>)
    requires cluster != []
    ensures multiset(BuildIncidentDraft(cluster).detectionIds) == multiset(Ids(cluster))
    ensures |BuildIncidentDraft(cluster).detectionIds| == |cluster| == BuildIncidentDraft(cluster).detectionCount
    ensures var ids := BuildIncidentDraft(cluster).detectionIds;
      forall i, j :: 0 <= i < j < |ids| ==> ids[i] <= ids[j]
  {
    SortedProperties((a: nat, b: nat) => a <= b, Ids(cluster));
    var d := BuildIncidentDraft(cluster);
    assert |d.detectionIds| == |multiset(d.detectionIds)| == |multiset(Ids(cluster))|;
  }
}
