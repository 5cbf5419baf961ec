/**
 End to end: replaying a scenario through the stream and the normalizers stores each of its events
 exactly once.
 */
module Ingestion {
  import opened Common
  import opened Repository
  import opened Injector
  import opened InjectorRuns
  import N = Normalizer

  // ---- rows come from messages -------------------------------------------------------------------

  ghost predicate RowOfMessage(s: N.Sys, row: EventRow) {
    exists m: nat :: N.IsEncoded(s.stream, m) && RowFor(s.db, row, s.stream[m].event)
  }

  ghost predicate RowsFromStream(s: N.Sys) {
    forall i :: 0 <= i < |s.db.events| ==> RowOfMessage(s, s.db.events[i])
  }

  lemma RowForStays(t: Tables, u: Tables, row: EventRow, e: Event)
    requires RowFor(t, row, e)
    requires forall r :: r in t.entities ==> r in u.entities && u.entities[r].id == t.entities[r].id
    ensures RowFor(u, row, e)
  {
  }

  lemma StoreFromStream(s: N.Sys, ids: seq<nat>, now: int)
    requires N.Sound(s) && RowsFromStream(s) && N.Enabled(s, N.Store(ids, now))
    ensures RowsFromStream(N.Step(s, N.Store(ids, now)))
  {
    hide Persist, TablesOk, RowFor, HasEvent, HasId;
    var t := N.Step(s, N.Store(ids, now));
    var events := N.EventsOf(s.stream, ids);
    PersistProperties(s.db, events, now);
    forall i | 0 <= i < |t.db.events|
      ensures RowOfMessage(t, t.db.events[i])
    {
      if i < |s.db.events| {
        assert RowOfMessage(s, s.db.events[i]);
        var m: nat :| N.IsEncoded(s.stream, m) && RowFor(s.db, s.db.events[i], s.stream[m].event);
        RowForStays(s.db, t.db, s.db.events[i], s.stream[m].event);
        assert N.IsEncoded(t.stream, m);
      } else {
        var k :| 0 <= k < |events| && RowFor(t.db, t.db.events[i], events[k]);
        assert N.IsEncoded(s.stream, ids[k]);
        assert N.IsEncoded(t.stream, ids[k]);
      }
    }
  }

  lemma StepFromStream(s: N.Sys, l: N.Label)
    requires N.Sound(s) && RowsFromStream(s) && N.Enabled(s, l)
    ensures RowsFromStream(N.Step(s, l))
  {
    hide RowFor, Persist, N.Sound, N.Settled;
    if l.Store? {
      StoreFromStream(s, l.ids, l.now);
    } else {
      var t := N.Step(s, l);
      forall i | 0 <= i < |t.db.events|
        ensures RowOfMessage(t, t.db.events[i])
      {
        assert RowOfMessage(s, s.db.events[i]);
        var m: nat :| N.IsEncoded(s.stream, m) && RowFor(s.db, s.db.events[i], s.stream[m].event);
        assert N.IsEncoded(t.stream, m) && t.stream[m] == s.stream[m];
      }
    }
  }

  // In every reachable state each row holds the columns of some message, its entities resolved.
  lemma {:induction false} RowsComeFromMessages(trace: seq<N.Label>)
    requires N.Admissible(N.EMPTY_SYS, trace)
    ensures RowsFromStream(N.Exec(N.EMPTY_SYS, trace))
  {
    hide RowOfMessage, N.Sound, N.Enabled, N.Step;
    if trace != [] {
      RowsComeFromMessages(Front(trace));
      assert N.Sound(N.EMPTY_SYS) by { N.EmptyIsSound(); }
      N.EveryTraceIsSound(N.EMPTY_SYS, Front(trace));
      StepFromStream(N.Exec(N.EMPTY_SYS, Front(trace)), Last(trace));
    }
  }

  // ---- exactly once ------------------------------------------------------------------------------

  // The stream that the consumers read is the one the injector wrote.
  ghost predicate Feeds(entries: seq<Entry<Event>>, stream: seq<N.Message>) {
    |entries| == |stream| && forall i :: 0 <= i < |stream| ==> stream[i] == N.Encoded(entries[i].payload)
  }

  // Every message acknowledged, none dead-lettered or refused as a dead letter.
  ghost predicate Drained(s: N.Sys) {
    s.dead == [] && s.refused == {} && forall i :: 0 <= i < |s.stream| ==> i in s.acked
  }

  // A line of the scenario with this event id.
  ghost predicate HasLine(lines: seq<Line<Event>>, id: string) {
    exists n :: 0 <= n < |lines| && lines[n].Good? && lines[n].payload.eventId == id
  }

  lemma StoredOnce(lines: seq<Line<Event>>, r: Redis<Event>, s: N.Sys, id: string)
    requires Sound(lines, r) && Feeds(r.stream, s.stream) && N.Sound(s) && RowsFromStream(s) && Drained(s)
    requires Next(r.stream) == |lines|
    ensures HasEvent(s.db.events, id) <==> HasLine(lines, id)
  {
    hide N.Sound, Next;
    if HasEvent(s.db.events, id) {
      var i :| 0 <= i < |s.db.events| && s.db.events[i].eventId == id;
      assert RowOfMessage(s, s.db.events[i]);
      var m: nat :| N.IsEncoded(s.stream, m) && RowFor(s.db, s.db.events[i], s.stream[m].event);
      assert r.stream[m].seqNo < |lines|;
    }
    if HasLine(lines, id) {
      var n :| 0 <= n < |lines| && lines[n].Good? && lines[n].payload.eventId == id;
      Covered(r.stream, n);
      var i :| 0 <= i < |r.stream| && r.stream[i].seqNo == n;
      assert s.stream[i] == N.Encoded(r.stream[i].payload);
      assert N.Settled(s, i) by { AckedIsSettled(s, i); }
    }
  }

  lemma AckedIsSettled(s: N.Sys, i: nat)
    requires N.Sound(s) && i in s.acked && s.refused == {}
    ensures N.Settled(s, i)
  {
  }

  // Across injector crashes, repeated, limited or reset replays, consumer crashes and reclaims, lost
  // answers and constraint failures: once a replay has completed and every message is acknowledged,
  // none of them dead-lettered, the table holds exactly one row for each event id of the scenario,
  // and each row has the columns of one of its lines.
  lemma ExactlyOnce(lines: seq<Line<Event>>, replays: seq<Replay>, k: nat, trace: seq<N.Label>)
    requires lines != [] && 0 < k <= |replays| && CompletesLast(lines, replays[..k])
    requires N.Admissible(N.EMPTY_SYS, trace)
    requires Feeds(RunAll(lines, replays).stream, N.Exec(N.EMPTY_SYS, trace).stream)
    requires Drained(N.Exec(N.EMPTY_SYS, trace))
    ensures var s := N.Exec(N.EMPTY_SYS, trace);
      && (forall n :: 0 <= n < |lines| ==> lines[n].Good?)
      && (forall id :: HasEvent(s.db.events, id) <==> HasLine(lines, id))
      && OneRowEach(s.db.events)
      && forall i :: 0 <= i < |s.db.events| ==> RowOfLine(lines, s.db, s.db.events[i])
  {
    hide N.Exec, N.Admissible, RunAll, HasEvent, HasLine, CompletesLast, RowOfLine, N.Partition, N.AckedAccounted;
    var s, r := N.Exec(N.EMPTY_SYS, trace), RunAll(lines, replays);
    assert N.Sound(N.EMPTY_SYS) by { N.EmptyIsSound(); }
    N.EveryTraceIsSound(N.EMPTY_SYS, trace);
    RowsComeFromMessages(trace);
    EveryReplayIsSound(lines, replays);
    CompletedSendsAll(lines, replays, k);
    forall id
      ensures HasEvent(s.db.events, id) <==> HasLine(lines, id)
    {
      StoredOnce(lines, r, s, id);
    }
    forall n | 0 <= n < |lines|
      ensures lines[n].Good?
    {
      Covered(r.stream, n);
    }
    forall i | 0 <= i < |s.db.events|
      ensures RowOfLine(lines, s.db, s.db.events[i])
    {
      RowIsLine(lines, r, s, i);
    }
  }

  ghost predicate RowOfLine(lines: seq<Line<Event>>, t: Tables, row: EventRow) {
    exists n :: 0 <= n < |lines| && LineRow(lines[n], t, row)
  }

  predicate LineRow(l: Line<Event>, t: Tables, row: EventRow) {
    l.Good? && RowFor(t, row, l.payload)
  }

  lemma RowIsLine(lines: seq<Line<Event>>, r: Redis<Event>, s: N.Sys, i: nat)
    requires Sound(lines, r) && Feeds(r.stream, s.stream) && RowsFromStream(s) && i < |s.db.events|
    ensures RowOfLine(lines, s.db, s.db.events[i])
  {
    hide Next, RowFor;
    assert RowOfMessage(s, s.db.events[i]);
    var m: nat :| N.IsEncoded(s.stream, m) && RowFor(s.db, s.db.events[i], s.stream[m].event);
    assert LineRow(lines[r.stream[m].seqNo], s.db, s.db.events[i]);
  }
}
