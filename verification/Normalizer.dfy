/**
 The normalizer: a consumer group over the raw stream. Any number of consumers claim stale work,
 read new work, store events, dead-letter poison and acknowledge; each may stop anywhere.

 The shared state moves by atomic steps. A consumer's batch is proved to take enabled steps only,
 whatever the others do in between and whichever command or transaction fails.
 */
module Normalizer {
  import opened Common
  import opened Repository

  // A stream message: the print of an event, or a payload that does not parse.
  datatype Message = Encoded(event: Event) | Malformed(raw: string)

  datatype DeadLetter = DeadLetter(origin: nat, reason: string)

  // Message ids are stream positions; pending maps a delivered message to its consumer. The last two
  // columns are a record for the claims: the rows that committed batches reported inserted, and the
  // messages whose dead letter the server refused to write.
  datatype Sys = Sys(
    stream: seq<Message>, delivered: nat, pending: map<nat, nat>, acked: set<nat>,
    dead: seq<DeadLetter>, db: Tables, inserted: nat, refused: set<nat>)

  const EMPTY_SYS := Sys([], 0, map[], {}, [], EMPTY, 0, {})

  datatype Label =
    | Produce(m: Message)
    | Claim(consumer: nat, ids: seq<nat>)
    | Read(consumer: nat, count: nat)
    | Bury(id: nat, reason: string)
    | Refuse(id: nat)
    | Store(ids: seq<nat>, now: int)
    | Ack(ids: seq<nat>)

  // ---- the steps ---------------------------------------------------------------------------------

  predicate IsEncoded(stream: seq<Message>, id: nat) {
    id < |stream| && stream[id].Encoded?
  }

  function EventsOf(stream: seq<Message>, ids: seq<nat>): (events: seq<Event>)
    requires forall k :: 0 <= k < |ids| ==> IsEncoded(stream, ids[k])
    ensures |events| == |ids|
    ensures forall k :: 0 <= k < |ids| ==> IsEncoded(stream, ids[k]) && events[k] == stream[ids[k]].event
  {
    if ids == [] then []
    else
      assert IsEncoded(stream, ids[|ids| - 1]);
      EventsOf(stream, Front(ids)) + [stream[Last(ids)].event]
  }

  predicate Buried(dead: seq<DeadLetter>, id: nat) {
    exists k :: 0 <= k < |dead| && dead[k].origin == id
  }

  // The message's event is in the table, or a dead letter names the message.
  predicate Settled(s: Sys, id: nat) {
    && id < |s.stream|
    && ((s.stream[id].Encoded? && HasEvent(s.db.events, s.stream[id].event.eventId)) || Buried(s.dead, id))
  }

  // Or the server refused the dead letter that should name it.
  predicate Accounted(s: Sys, id: nat) {
    Settled(s, id) || (id < |s.stream| && id in s.refused)
  }

  predicate Enabled(s: Sys, l: Label) {
    match l
    case Produce(_) => true
    case Claim(_, ids) => forall k :: 0 <= k < |ids| ==> ids[k] in s.pending
    case Read(_, count) => s.delivered + count <= |s.stream|
    case Bury(id, _) => id < |s.stream|
    case Refuse(id) => id < |s.stream|
    case Store(ids, _) => forall k :: 0 <= k < |ids| ==> IsEncoded(s.stream, ids[k])
    case Ack(ids) => forall k :: 0 <= k < |ids| ==> Accounted(s, ids[k])
  }

  function Deliver(pending: map<nat, nat>, from: nat, count: nat, consumer: nat): (p: map<nat, nat>)
    ensures forall i :: i in p <==> i in pending || from <= i < from + count
  {
    if count == 0 then pending else Deliver(pending, from, count - 1, consumer)[from + count - 1 := consumer]
  }

  function StoreStep(s: Sys, events: seq<Event>, now: int): Sys {
    var db := Persist(s.db, events, now);
    s.(db := db, inserted := s.inserted + if |db.events| > |s.db.events| then |db.events| - |s.db.events| else 0)
  }

  function Step(s: Sys, l: Label): Sys
    requires Enabled(s, l)
  {
    match l
    case Produce(m) => s.(stream := s.stream + [m])
    case Claim(c, ids) => s.(pending := map i | i in s.pending :: if i in ids then c else s.pending[i])
    case Read(c, n) =>
      s.(pending := Deliver(s.pending, s.delivered, n, c), delivered := s.delivered + n)
    case Bury(id, reason) => s.(dead := s.dead + [DeadLetter(id, reason)])
    case Refuse(id) => s.(refused := s.refused + {id})
    case Store(ids, now) => StoreStep(s, EventsOf(s.stream, ids), now)
    case Ack(ids) =>
      s.(acked := s.acked + (set i | i in ids && i in s.pending), pending := s.pending - (set i | i in ids))
  }

  ghost predicate Admissible(s: Sys, trace: seq<Label>)
    decreases |trace|, 0
  {
    trace == [] || (Admissible(s, Front(trace)) && Enabled(Exec(s, Front(trace)), Last(trace)))
  }

  ghost function Exec(s: Sys, trace: seq<Label>): Sys
    requires Admissible(s, trace)
    decreases |trace|, 1
  {
    if trace == [] then s else Step(Exec(s, Front(trace)), Last(trace))
  }

  // ---- what every step keeps ---------------------------------------------------------------------

  // A delivered message is pending or acknowledged, never both.
  ghost predicate Partition(s: Sys) {
    && s.delivered <= |s.stream|
    && (forall i :: i in s.pending || i in s.acked ==> 0 <= i < s.delivered)
    && (forall i :: 0 <= i < s.delivered ==> (i in s.pending <==> i !in s.acked))
  }

  ghost predicate AckedAccounted(s: Sys) {
    forall i :: i in s.acked ==> Accounted(s, i)
  }

  ghost predicate Sound(s: Sys) {
    Partition(s) && AckedAccounted(s) && TablesOk(s.db) && |s.db.events| == s.inserted
  }

  // Nothing is taken back: the stream, the dead letters, the table and the acknowledgements grow.
  ghost predicate Later(a: Sys, b: Sys) {
    && a.stream <= b.stream && a.delivered <= b.delivered && a.acked <= b.acked && a.dead <= b.dead
    && a.db.events <= b.db.events && a.inserted <= b.inserted && a.refused <= b.refused
  }

  lemma LaterTransitive(a: Sys, b: Sys, c: Sys)
    requires Later(a, b) && Later(b, c)
    ensures Later(a, c)
  {
  }

  lemma SettledStays(a: Sys, b: Sys, id: nat)
    requires Later(a, b) && Settled(a, id)
    ensures Settled(b, id)
  {
    if a.stream[id].Encoded? && HasEvent(a.db.events, a.stream[id].event.eventId) {
      var i :| 0 <= i < |a.db.events| && a.db.events[i].eventId == a.stream[id].event.eventId;
      assert b.db.events[i].eventId == a.stream[id].event.eventId;
    } else {
      var k :| 0 <= k < |a.dead| && a.dead[k].origin == id;
      assert b.dead[k].origin == id;
    }
  }

  lemma AccountedStays(a: Sys, b: Sys, id: nat)
    requires Later(a, b) && Accounted(a, id)
    ensures Accounted(b, id)
  {
    hide Settled;
    if Settled(a, id) {
      SettledStays(a, b, id);
    }
  }

  lemma AckedStayAccounted(a: Sys, b: Sys)
    requires AckedAccounted(a) && Later(a, b) && b.acked == a.acked
    ensures AckedAccounted(b)
  {
    hide Accounted;
    forall i | i in b.acked
      ensures Accounted(b, i)
    {
      AccountedStays(a, b, i);
    }
  }

  lemma StoreSound(s: Sys, ids: seq<nat>, now: int)
    requires Sound(s) && Enabled(s, Store(ids, now))
    ensures var t := Step(s, Store(ids, now));
      && Sound(t) && Later(s, t) && forall k :: 0 <= k < |ids| ==> Settled(t, ids[k])
  {
    hide Persist, EventsOf, Partition, TablesOk, HasEvent;
    var events := EventsOf(s.stream, ids);
    PersistProperties(s.db, events, now);
    var t := Step(s, Store(ids, now));
    AckedStayAccounted(s, t);
    forall k | 0 <= k < |ids|
      ensures Settled(t, ids[k])
    {
      assert IsEncoded(s.stream, ids[k]);
      assert HasId(events, events[k].eventId);
    }
    assert Partition(t) by { PartitionFrame(s, t); }
  }

  lemma PartitionFrame(s: Sys, t: Sys)
    requires Partition(s) && t.pending.Keys == s.pending.Keys && t.acked == s.acked && t.delivered == s.delivered
    requires s.stream <= t.stream
    ensures Partition(t)
  {
    assert forall i :: i in t.pending <==> i in s.pending.Keys;
  }

  lemma StepSound(s: Sys, l: Label)
    requires Sound(s) && Enabled(s, l)
    ensures Sound(Step(s, l)) && Later(s, Step(s, l))
  {
    hide Accounted, TablesOk, Persist;
    var t := Step(s, l);
    match l
    case Store(ids, now) => StoreSound(s, ids, now);
    case Ack(ids) =>
      forall i | i in t.acked
        ensures Accounted(t, i)
      {
        if i in s.acked {
          assert Accounted(s, i);
        } else {
          var k :| 0 <= k < |ids| && ids[k] == i;
          assert Accounted(s, ids[k]);
        }
        AccountedStays(s, t, i);
      }
    case _ => AckedStayAccounted(s, t);
  }

  // Whatever the consumers do, in any number and any interleaving.
  lemma {:induction false} EveryTraceIsSound(s: Sys, trace: seq<Label>)
    requires Sound(s) && Admissible(s, trace)
    ensures Sound(Exec(s, trace)) && Later(s, Exec(s, trace))
  {
    hide Sound, Enabled, Step;
    if trace != [] {
      EveryTraceIsSound(s, Front(trace));
      var t := Exec(s, Front(trace));
      StepSound(t, Last(trace));
      LaterTransitive(s, t, Step(t, Last(trace)));
    }
  }

  // In every reachable state: an acknowledged message has its event in the table or a dead letter
  // that names it, unless the server refused that dead letter; an unacknowledged one is undelivered
  // or pending, no event id has two rows, and the table holds as many rows as the committed batches
  // reported inserted.
  lemma AckIsSafe(trace: seq<Label>, id: nat)
    requires Admissible(EMPTY_SYS, trace) && id < |Exec(EMPTY_SYS, trace).stream|
    ensures var s := Exec(EMPTY_SYS, trace);
      && (id in s.acked ==> Settled(s, id) || id in s.refused)
      && (id !in s.acked ==> id >= s.delivered || id in s.pending)
      && OneRowEach(s.db.events) && |s.db.events| == s.inserted
  {
    hide Exec, Admissible, Settled, OneRowEach;
    assert Sound(EMPTY_SYS) by { EmptyIsSound(); }
    EveryTraceIsSound(EMPTY_SYS, trace);
  }

  // While no dead letter is refused every acknowledged message is in the table or named by one.
  lemma AckIsSafeUnrefused(trace: seq<Label>, id: nat)
    requires Admissible(EMPTY_SYS, trace) && forall k :: 0 <= k < |trace| ==> !trace[k].Refuse?
    requires id < |Exec(EMPTY_SYS, trace).stream|
    ensures id in Exec(EMPTY_SYS, trace).acked ==> Settled(Exec(EMPTY_SYS, trace), id)
  {
    hide Exec, Admissible, Settled;
    AckIsSafe(trace, id);
    NoneRefused(EMPTY_SYS, trace);
  }

  lemma {:induction false} NoneRefused(s: Sys, trace: seq<Label>)
    requires Admissible(s, trace) && forall k :: 0 <= k < |trace| ==> !trace[k].Refuse?
    ensures Exec(s, trace).refused == s.refused
  {
    hide Enabled, Persist;
    if trace != [] {
      NoneRefused(s, Front(trace));
      assert !trace[|trace| - 1].Refuse?;
    }
  }

  // A malformed message is read, its dead letter is refused, and the acknowledgement behind it in the
  // pipeline is executed: the message is in no table, named by no dead letter, and not pending.
  const REFUSED_TRACE: seq<Label> := [Produce(Malformed("{")), Read(0, 1), Refuse(0), Ack([0])]

  lemma RefusedLetterLosesMessage()
    ensures Admissible(EMPTY_SYS, REFUSED_TRACE)
    ensures var s := Exec(EMPTY_SYS, REFUSED_TRACE);
      |s.stream| == 1 && 0 in s.acked && 0 !in s.pending && !Settled(s, 0)
  {
    hide Admissible, Exec, EventsOf, StoreStep;
    var p, r, f, a := Produce(Malformed("{")), Read(0, 1), Refuse(0), Ack([0]);
    assert [p, r] + [f] == [p, r, f] && [p, r, f] + [a] == REFUSED_TRACE;
    OneMalformedRead();
    OneMore(EMPTY_SYS, [p, r], f);
    var s := Exec(EMPTY_SYS, [p, r, f]);
    assert Accounted(s, [0][0]);
    OneMore(EMPTY_SYS, [p, r, f], a);
    assert 0 in [0];
  }

  // A malformed message, delivered and pending.
  lemma OneMalformedRead()
    ensures var trace := [Produce(Malformed("{")), Read(0, 1)];
      && Admissible(EMPTY_SYS, trace)
      && Exec(EMPTY_SYS, trace) == EMPTY_SYS.(stream := [Malformed("{")], delivered := 1, pending := map[0 := 0])
  {
    hide Admissible, Exec, EventsOf, StoreStep;
    var p, r := Produce(Malformed("{")), Read(0, 1);
    assert [] + [p] == [p] && [p] + [r] == [p, r];
    NoSteps(EMPTY_SYS);
    OneMore(EMPTY_SYS, [], p);
    OneMore(EMPTY_SYS, [p], r);
    assert Deliver(map[], 0, 1, 0) == map[0 := 0];
  }

  lemma NoSteps(s: Sys)
    ensures Admissible(s, []) && Exec(s, []) == s
  {
  }

  lemma OneMore(s: Sys, trace: seq<Label>, l: Label)
    requires Admissible(s, trace) && Enabled(Exec(s, trace), l)
    ensures Admissible(s, trace + [l]) && Exec(s, trace + [l]) == Step(Exec(s, trace), l)
  {
    hide Enabled, Step;
    Snoc(trace, l);
  }

  lemma EmptyIsSound()
    ensures Sound(EMPTY_SYS)
  {
  }

  // ---- the world a consumer runs in ----------------------------------------------------------------

  // How a command or a transaction ends: applied and answered, lost before or after it took effect,
  // stopped by a constraint, or refused.
  datatype Fault = Fine | LostBefore | LostAfter | Constraint | Unexpected

  datatype Reply = Applied | Denied | NoReply

  datatype Answer = Stored(report: InsertReport) | Transient | NonRetryable | Raised

  // The idle candidates that are pending, in order and once each, up to a count.
  function IdleOnes(candidates: seq<nat>, pending: map<nat, nat>, count: nat): seq<nat> {
    if candidates == [] then []
    else
      var ids, c := IdleOnes(Front(candidates), pending, count), Last(candidates);
      if c in pending && c !in ids && |ids| < count then ids + [c] else ids
  }

  // The next undelivered messages, up to a count.
  function NextOnes(s: Sys, count: nat): seq<nat>
    requires s.delivered <= |s.stream|
  {
    seq(if |s.stream| - s.delivered < count then |s.stream| - s.delivered else count, i => s.delivered + i)
  }

  // The work of a batch: idle messages first, then new ones as far as the batch has room.
  function WorkOf(s: Sys, candidates: seq<nat>, size: nat): seq<nat>
    requires s.delivered <= |s.stream|
  {
    var idle := IdleOnes(candidates, s.pending, size);
    if |idle| < size then idle + NextOnes(s, size - |idle|) else idle
  }

  // The next fault of a script, and what is left of it; a script that has run out holds no more faults.
  function Head(faults: seq<Fault>): Fault {
    if faults == [] then Fine else faults[0]
  }

  function Tail(faults: seq<Fault>): seq<Fault> {
    if faults == [] then [] else faults[1..]
  }

  // The faults of storing events one by one, where the database refuses the poisoned ones and nothing
  // else fails: a transaction and an acknowledgement each, or a transaction and a dead letter.
  ghost predicate Refuses(faults: seq<Fault>, poisoned: seq<bool>) {
    if poisoned == [] then faults == []
    else if poisoned[0] then
      && Head(faults) == Constraint && Head(Tail(faults)) == Fine && Head(Tail(Tail(faults))) == Fine
      && Refuses(Tail(Tail(Tail(faults))), poisoned[1..])
    else
      Head(faults) == Fine && Head(Tail(faults)) == Fine && Refuses(Tail(Tail(faults)), poisoned[1..])
  }

  function Poisons(poisoned: seq<bool>): nat {
    if poisoned == [] then 0 else Poisons(Front(poisoned)) + if Last(poisoned) then 1 else 0
  }

  // The first n transactions are lost, and nothing fails then; or the next one meets a constraint.
  ghost predicate OnlyLost(faults: seq<Fault>, n: nat) {
    if n == 0 then faults == [] else Head(faults) == LostBefore && OnlyLost(Tail(faults), n - 1)
  }

  ghost predicate LostThenRefused(faults: seq<Fault>, n: nat, poisoned: seq<bool>) {
    if n == 0 then Head(faults) == Constraint && Refuses(Tail(faults), poisoned)
    else Head(faults) == LostBefore && LostThenRefused(Tail(faults), n - 1, poisoned)
  }

  // No message was produced or delivered in between.
  predicate SameWork(a: Sys, b: Sys) {
    b.stream == a.stream && b.delivered == a.delivered
  }

  // The message's event has its row.
  predicate HasRow(s: Sys, id: nat) {
    IsEncoded(s.stream, id) && HasEvent(s.db.events, s.stream[id].event.eventId)
  }

  // Only pending candidates are handed over, none twice, all of them when they fit, and those of the
  // first candidates before the others.
  lemma {:induction false} IdleOnesAre(candidates: seq<nat>, pending: map<nat, nat>, count: nat, x: nat, m: nat)
    ensures var ids := IdleOnes(candidates, pending, count);
      && |ids| <= count && Distinct(ids)
      && (x in ids ==> x in candidates && x in pending)
      && (x in candidates && x in pending && |ids| < count ==> x in ids)
      && (m <= |candidates| ==> IdleOnes(candidates[..m], pending, count) <= ids)
  {
    if candidates != [] {
      var f := Front(candidates);
      IdleOnesAre(f, pending, count, x, m);
      FrontLast(candidates);
      if m <= |f| {
        assert candidates[..m] == f[..m];
      } else if m == |candidates| {
        assert candidates[..m] == candidates;
      }
    } else if m == 0 {
      assert candidates[..m] == candidates;
    }
  }

  // The batch is the idle messages and then the undelivered ones in order, as many as fit.
  ghost predicate TakesTheWork(s: Sys, candidates: seq<nat>, size: nat, batch: seq<nat>)
    requires s.delivered <= |s.stream|
  {
    var stale, unread := IdleOnes(candidates, s.pending, size), |s.stream| - s.delivered;
    && stale <= batch && |batch| == (if |stale| + unread < size then |stale| + unread else size)
    && forall k :: |stale| <= k < |batch| ==> batch[k] == s.delivered + k - |stale|
  }

  lemma WorkIsTaken(s: Sys, candidates: seq<nat>, size: nat)
    requires s.delivered <= |s.stream|
    ensures TakesTheWork(s, candidates, size, WorkOf(s, candidates, size))
  {
    IdleOnesAre(candidates, s.pending, size, 0, 0);
  }

  class World {
    var sys: Sys
    var others: seq<seq<Label>>
    var faults: seq<Fault>
    ghost var trace: seq<Label>
    ghost var transactions: nat
    ghost const start: Sys

    constructor (sys: Sys, others: seq<seq<Label>>, faults: seq<Fault>)
      requires Sound(sys)
      ensures Valid() && this.sys == sys && trace == [] && transactions == 0
    {
      this.sys, this.start, this.others, this.faults, this.trace := sys, sys, others, faults, [];
      this.transactions := 0;
    }

    ghost predicate Valid()
      reads this
    {
      Admissible(start, trace) && sys == Exec(start, trace) && Sound(sys)
    }

    // Nobody interferes and nothing fails.
    predicate Quiet()
      reads this
    {
      others == [] && faults == []
    }

    // One atomic step.
    method Take(l: Label)
      requires Valid() && Enabled(sys, l)
      modifies this`sys, this`trace
      ensures Valid() && trace == old(trace) + [l] && sys == Step(old(sys), l) && Later(old(sys), sys)
    {
      hide Sound, Enabled, Step;
      StepSound(sys, l);
      sys := Step(sys, l);
      trace := trace + [l];
      assert Front(trace) == old(trace);
    }

    // Everybody else moves: producers and other consumers take whatever enabled steps they like.
    method Interfere()
      requires Valid()
      modifies this`sys, this`trace, this`others
      ensures Valid() && old(trace) <= trace && Later(old(sys), sys)
      ensures old(others) == [] ==> others == [] && sys == old(sys)
    {
      hide Sound, Enabled, Step;
      if others == [] {
        return;
      }
      var moves := others[0];
      others := others[1..];
      for i := 0 to |moves|
        invariant Valid() && old(trace) <= trace && Later(old(sys), sys)
      {
        if Enabled(sys, moves[i]) {
          ghost var before := sys;
          Take(moves[i]);
          LaterTransitive(old(sys), before, sys);
        }
      }
    }

    method NextFault() returns (f: Fault)
      modifies this`faults
      ensures f == Head(old(faults)) && faults == Tail(old(faults))
    {
      f := Fine;
      if faults != [] {
        f := faults[0];
        faults := faults[1..];
      }
    }

    // A command whose enabledness others cannot take away.
    method Command(l: Label) returns (reply: Reply)
      requires Valid() && (l.Bury? || l.Ack?) && Enabled(sys, l)
      modifies this`sys, this`trace, this`others, this`faults
      ensures Valid() && old(trace) <= trace && Later(old(sys), sys)
      ensures reply == Applied && l.Bury? ==> Buried(sys.dead, l.id)
      ensures reply == Applied && l.Ack? ==>
        forall k :: 0 <= k < |l.ids| && l.ids[k] < old(sys).delivered ==> l.ids[k] in sys.acked
      ensures old(others) == [] ==> others == [] && faults == Tail(old(faults))
      ensures old(others) == [] && Head(old(faults)) == Fine ==> reply == Applied && sys == Step(old(sys), l)
    {
      hide Sound, Settled, Exec, Admissible;
      Interfere();
      EnabledStays(old(sys), sys, l);
      var f := NextFault();
      reply := if f == Fine || f == Constraint then Applied else if f == Unexpected then Denied else NoReply;
      if reply == Applied || f == LostAfter {
        ghost var before := sys;
        Take(l);
        LaterTransitive(old(sys), before, sys);
        if l.Bury? {
          assert sys.dead[|sys.dead| - 1].origin == l.id;
        } else {
          AckedNow(before, sys, l.ids);
        }
      }
    }

    // The stale messages that the server hands over, among the candidates it considers idle.
    method ClaimIdle(consumer: nat, candidates: seq<nat>, count: nat) returns (ok: bool, ids: seq<nat>)
      requires Valid()
      modifies this
      ensures Valid() && old(trace) <= trace && Later(old(sys), sys)
      ensures |ids| <= count && forall k :: 0 <= k < |ids| ==> ids[k] < sys.delivered
      ensures old(Quiet()) ==> Quiet() && ok && ids == IdleOnes(candidates, old(sys).pending, count)
                               && sys == old(sys).(pending := sys.pending)
    {
      hide Sound, Exec, Admissible;
      Interfere();
      ids := [];
      for i := 0 to |candidates|
        invariant |ids| <= count && forall k :: 0 <= k < |ids| ==> ids[k] in sys.pending
        invariant ids == IdleOnes(candidates[..i], sys.pending, count)
        invariant Valid() && old(trace) <= trace && Later(old(sys), sys)
        invariant old(Quiet()) ==> Quiet() && sys == old(sys)
      {
        NextPrefix(candidates, i);
        if candidates[i] in sys.pending && candidates[i] !in ids && |ids| < count {
          ids := ids + [candidates[i]];
        }
      }
      assert candidates[..|candidates|] == candidates;
      var f := NextFault();
      ok := f == Fine || f == Constraint;
      if ok || f == LostAfter {
        ghost var before := sys;
        Take(Claim(consumer, ids));
        LaterTransitive(old(sys), before, sys);
      }
      DeliveredAre(sys, ids);
    }

    method ReadNew(consumer: nat, count: nat) returns (ok: bool, ids: seq<nat>)
      requires Valid()
      modifies this
      ensures Valid() && old(trace) <= trace && Later(old(sys), sys)
      ensures |ids| <= count && (ok ==> forall k :: 0 <= k < |ids| ==> ids[k] < sys.delivered)
      ensures old(sys).delivered <= |old(sys).stream|
      ensures old(Quiet()) ==>
        && Quiet() && ok && ids == NextOnes(old(sys), count)
        && sys == old(sys).(pending := sys.pending, delivered := old(sys).delivered + |ids|)
    {
      hide Sound, Exec, Admissible;
      DeliveredInStream(sys);
      Interfere();
      var from := sys.delivered;
      DeliveredInStream(sys);
      var n := if |sys.stream| - from < count then |sys.stream| - from else count;
      ids := seq(n, i => from + i);
      var f := NextFault();
      ok := f == Fine || f == Constraint;
      if ok || f == LostAfter {
        ghost var before := sys;
        Take(Read(consumer, n));
        LaterTransitive(old(sys), before, sys);
      }
    }

    // One database transaction for the messages' events.
    method Transact(ids: seq<nat>, now: int) returns (answer: Answer)
      requires Valid() && Enabled(sys, Store(ids, now))
      modifies this
      ensures Valid() && old(trace) <= trace && Later(old(sys), sys) && transactions == old(transactions) + 1
      ensures answer.Stored? ==> forall k :: 0 <= k < |ids| ==> Settled(sys, ids[k])
      ensures answer.Stored? ==> answer.report.inserted + answer.report.duplicates == |ids|
      ensures answer.Stored? ==> old(sys).inserted + answer.report.inserted <= sys.inserted
      ensures old(others) == [] ==> others == [] && faults == Tail(old(faults))
      ensures old(others) == [] && Head(old(faults)) == Fine ==>
        answer.Stored? && sys == Step(old(sys), Store(ids, now))
      ensures old(others) == [] && Head(old(faults)) == LostBefore ==> answer == Transient && sys == old(sys)
      ensures old(others) == [] && Head(old(faults)) == Constraint ==> answer == NonRetryable && sys == old(sys)
    {
      hide Sound, Settled, Exec, Admissible, Persist, TablesOk, HasEvent;
      transactions := transactions + 1;
      Interfere();
      EnabledStays(old(sys), sys, Store(ids, now));
      var f := NextFault();
      if f == LostBefore {
        return Transient;
      } else if f == Constraint {
        return NonRetryable;
      } else if f == Unexpected {
        return Raised;
      }
      ghost var before := sys;
      StoreSound(sys, ids, now);
      SoundTables(sys);
      var session := new Session(sys.db);
      var report := PersistBatch(session, EventsOf(sys.stream, ids), now);
      Take(Store(ids, now));
      LaterTransitive(old(sys), before, sys);
      answer := if f == Fine then Stored(report) else Transient;
    }
  }

  lemma AckedNow(a: Sys, b: Sys, ids: seq<nat>)
    requires Sound(b) && Later(a, b) && Enabled(a, Ack(ids)) && b == Step(a, Ack(ids))
    ensures forall k :: 0 <= k < |ids| && ids[k] < a.delivered ==> ids[k] in b.acked
  {
  }

  lemma BuriedStays(a: Sys, b: Sys, id: nat)
    requires Later(a, b) && Buried(a.dead, id)
    ensures Buried(b.dead, id)
  {
    var k :| 0 <= k < |a.dead| && a.dead[k].origin == id;
    assert b.dead[k].origin == id;
  }

  lemma SoundTables(s: Sys)
    requires Sound(s)
    ensures EntitiesOk(s.db)
  {
  }

  lemma DeliveredAre(s: Sys, ids: seq<nat>)
    requires Sound(s) && forall k :: 0 <= k < |ids| ==> ids[k] in s.pending
    ensures forall k :: 0 <= k < |ids| ==> ids[k] < s.delivered
  {
  }

  lemma DeliveredInStream(s: Sys)
    requires Sound(s)
    ensures s.delivered <= |s.stream|
  {
  }

  lemma EnabledStays(a: Sys, b: Sys, l: Label)
    requires Later(a, b) && Enabled(a, l) && (l.Bury? || l.Refuse? || l.Ack? || l.Store?)
    ensures Enabled(b, l)
  {
    match l
    case Ack(ids) =>
      forall k | 0 <= k < |ids|
        ensures Accounted(b, ids[k])
      {
        AccountedStays(a, b, ids[k]);
      }
    case Store(ids, _) =>
      forall k | 0 <= k < |ids|
        ensures IsEncoded(b.stream, ids[k])
      {
        assert IsEncoded(a.stream, ids[k]);
      }
    case _ =>
  }

  // ---- a consumer ------------------------------------------------------------------------------

  const INLINE_RETRY_ATTEMPTS := 3

  datatype BatchResult = BatchResult(
    received: nat, parsedOk: nat, deadLettered: nat, inserted: nat, duplicates: nat, errors: nat)

  // Deferred: left unacknowledged for another consumer to reclaim. Aborted: an exception escaped.
  datatype Ending = Done | Deferred | Aborted

  class Consumer {
    const world: World
    const name: nat
    const batchSize: nat

    constructor (world: World, name: nat, batchSize: nat)
      ensures this.world == world && this.name == name && this.batchSize == batchSize
    {
      this.world, this.name, this.batchSize := world, name, batchSize;
    }

    // Two commands of one non-transactional pipeline: the server goes on to the second when it refuses
    // the first, and the client raises behind both.
    method DeadLetterMessage(id: nat, reason: string) returns (ok: bool)
      requires world.Valid() && id < world.sys.delivered
      modifies world`sys, world`trace, world`others, world`faults
      ensures world.Valid() && old(world.trace) <= world.trace && Later(old(world.sys), world.sys)
      ensures ok ==> id in world.sys.acked && Buried(world.sys.dead, id)
      ensures old(world.others) == [] && Head(old(world.faults)) == Fine && Head(Tail(old(world.faults))) == Fine ==>
        && ok && world.others == [] && world.faults == Tail(Tail(old(world.faults)))
        && SameWork(old(world.sys), world.sys)
    {
      hide Sound, Exec, Admissible, Settled, Buried;
      DeliveredInStream(world.sys);
      var first := world.Command(Bury(id, reason));
      if first == NoReply {
        return false;
      }
      ghost var s0 := world.sys;
      if first == Denied {
        world.Take(Refuse(id));
      } else {
        BuriedSettles(world.sys, id);
      }
      ghost var s1 := world.sys;
      LaterTransitive(old(world.sys), s0, s1);
      assert Accounted(s1, [id][0]);
      var second := world.Command(Ack([id]));
      LaterTransitive(old(world.sys), s1, world.sys);
      ok := first == Applied && second == Applied;
      if ok {
        BuriedStays(s1, world.sys, id);
      }
    }

    // One event in a transaction of its own, dead-lettered when that or its acknowledgement fails.
    method PersistOne(id: nat, now: int, given: BatchResult) returns (ok: bool, result: BatchResult)
      requires world.Valid() && id < world.sys.delivered && IsEncoded(world.sys.stream, id)
      modifies world
      ensures world.Valid() && old(world.trace) <= world.trace && Later(old(world.sys), world.sys)
      ensures ok ==> id in world.sys.acked
      ensures world.transactions == old(world.transactions) + 1
      ensures result == given.(inserted := result.inserted, duplicates := result.duplicates, errors := result.errors)
      ensures result.errors >= given.errors
      ensures given.inserted <= result.inserted <= given.inserted + world.sys.inserted - old(world.sys).inserted
      ensures old(world.others) == [] && Head(old(world.faults)) == Fine && Head(Tail(old(world.faults))) == Fine ==>
        && ok && world.others == [] && world.faults == Tail(Tail(old(world.faults)))
        && SameWork(old(world.sys), world.sys) && result.errors == given.errors && HasRow(world.sys, id)
      ensures old(world.others) == [] && Head(old(world.faults)) == Constraint && Head(Tail(old(world.faults))) == Fine
              && Head(Tail(Tail(old(world.faults)))) == Fine ==>
        && ok && world.others == [] && world.faults == Tail(Tail(Tail(old(world.faults))))
        && SameWork(old(world.sys), world.sys) && result.errors == given.errors + 1 && Buried(world.sys.dead, id)
    {
      hide Sound, Exec, Admissible, Settled, Buried, IsEncoded, Enabled, Step, HasRow;
      result := given;
      ghost var s0 := world.sys;
      assert [id][0] == id;
      EncodedEnables(s0, s0, [id], now);
      var answer := world.Transact([id], now);
      ghost var s1 := world.sys;
      if answer.Stored? {
        result := result.(inserted := result.inserted + answer.report.inserted,
                          duplicates := result.duplicates + answer.report.duplicates);
        SettledEnables(s1, [id]);
        var reply := world.Command(Ack([id]));
        LaterTransitive(s0, s1, world.sys);
        if reply == Applied {
          if old(world.others) == [] && Head(old(world.faults)) == Fine && Head(Tail(old(world.faults))) == Fine {
            StoredThenAcked(s0, [id], now);
          }
          return true, result;
        }
      }
      // any exception of the attempt, also one of its acknowledgement
      ghost var s2 := world.sys;
      result := result.(errors := result.errors + 1);
      ok := DeadLetterMessage(id, "persist_failure");
      LaterTransitive(s0, s2, world.sys);
    }

    method PersistPerEvent(ids: seq<nat>, now: int, given: BatchResult, ghost poisoned: seq<bool>)
      returns (ok: bool, result: BatchResult)
      requires world.Valid()
      requires forall k :: 0 <= k < |ids| ==> ids[k] < world.sys.delivered && IsEncoded(world.sys.stream, ids[k])
      modifies world
      ensures world.Valid() && old(world.trace) <= world.trace && Later(old(world.sys), world.sys)
      ensures ok ==> forall k :: 0 <= k < |ids| ==> ids[k] in world.sys.acked
      ensures result == given.(inserted := result.inserted, duplicates := result.duplicates, errors := result.errors)
      ensures result.errors >= given.errors
      ensures world.transactions <= old(world.transactions) + |ids|
      ensures ok ==> world.transactions == old(world.transactions) + |ids|
      ensures given.inserted <= result.inserted <= given.inserted + world.sys.inserted - old(world.sys).inserted
      // with nobody interfering only the poisoned events are dead-lettered, and all others stored
      ensures old(world.others) == [] && |poisoned| == |ids| && Refuses(old(world.faults), poisoned) ==>
        && ok && world.Quiet() && SameWork(old(world.sys), world.sys)
        && result.errors == given.errors + Poisons(poisoned) && Isolated(world.sys, ids, poisoned)
    {
      hide Sound, Exec, Admissible, Settled, Buried, IsEncoded, HasRow, Isolated, Refuses, Poisons;
      result := given;
      ghost var calm := world.others == [] && |poisoned| == |ids| && Refuses(world.faults, poisoned);
      NothingIsolated(world.sys, ids, poisoned);
      for i := 0 to |ids|
        invariant world.Valid() && old(world.trace) <= world.trace && Later(old(world.sys), world.sys)
        invariant forall k :: 0 <= k < i ==> ids[k] in world.sys.acked
        invariant result == given.(inserted := result.inserted, duplicates := result.duplicates,
                                   errors := result.errors)
        invariant result.errors >= given.errors
        invariant world.transactions == old(world.transactions) + i
        invariant given.inserted <= result.inserted <= given.inserted + world.sys.inserted - old(world.sys).inserted
        invariant calm ==>
          && |poisoned| == |ids| && world.others == [] && Refuses(world.faults, poisoned[i..])
          && SameWork(old(world.sys), world.sys) && result.errors == given.errors + Poisons(poisoned[..i])
          && Isolated(world.sys, ids[..i], poisoned[..i])
      {
        ghost var s0 := world.sys;
        EncodedStays(old(world.sys), s0, ids[i]);
        if calm {
          RefusesNext(world.faults, poisoned, i);
        }
        ok, result := PersistOne(ids[i], now, result);
        LaterTransitive(old(world.sys), s0, world.sys);
        if !ok {
          return;
        }
        if calm {
          IsolatedNext(s0, world.sys, ids, poisoned, i);
        }
      }
      if calm {
        AllIsolated(world.sys, ids, poisoned);
        assert Refuses(world.faults, []) by { assert poisoned[|ids|..] == []; }
        NoMoreRefused(world.faults);
      }
      ok := true;
    }

    // One attempt at the whole batch: a transaction, and an acknowledgement behind it.
    method PersistOnce(ids: seq<nat>, now: int, given: BatchResult)
      returns (answer: Answer, ending: Ending, result: BatchResult)
      requires world.Valid()
      requires forall k :: 0 <= k < |ids| ==> ids[k] < world.sys.delivered && IsEncoded(world.sys.stream, ids[k])
      modifies world
      ensures world.Valid() && old(world.trace) <= world.trace && Later(old(world.sys), world.sys)
      ensures world.transactions == old(world.transactions) + 1 && ending != Deferred
      ensures ending == Done ==> answer.Stored? && forall k :: 0 <= k < |ids| ==> ids[k] in world.sys.acked
      ensures result == given.(inserted := result.inserted, duplicates := result.duplicates)
      ensures given.inserted <= result.inserted <= given.inserted + world.sys.inserted - old(world.sys).inserted
      ensures if answer.Stored? then
          result.inserted + result.duplicates == given.inserted + given.duplicates + |ids|
        else result == given
      ensures old(world.others) == [] ==> world.others == []
      ensures old(world.others) == [] && old(world.faults) == [] ==>
        && ending == Done && world.faults == [] && SameWork(old(world.sys), world.sys)
        && forall k :: 0 <= k < |ids| ==> HasRow(world.sys, ids[k])
      ensures old(world.others) == [] && Head(old(world.faults)) in {LostBefore, Constraint} ==>
        && answer == (if Head(old(world.faults)) == LostBefore then Transient else NonRetryable)
        && world.faults == Tail(old(world.faults)) && world.sys == old(world.sys)
    {
      hide Sound, Exec, Admissible, Settled, Buried, IsEncoded, Enabled, Step, HasRow;
      ghost var s0 := world.sys;
      EncodedEnables(s0, s0, ids, now);
      answer := world.Transact(ids, now);
      ghost var s1 := world.sys;
      result, ending := given, Aborted;
      if answer.Stored? {
        result := result.(inserted := result.inserted + answer.report.inserted,
                          duplicates := result.duplicates + answer.report.duplicates);
        SettledEnables(s1, ids);
        var reply := world.Command(Ack(ids));
        LaterTransitive(s0, s1, world.sys);
        ending := if reply == Applied then Done else Aborted;
        if old(world.others) == [] && old(world.faults) == [] {
          StoredThenAcked(s0, ids, now);
        }
      }
    }

    // The whole batch in one transaction, retried twice when it is lost, and event by event when a
    // constraint stops it.
    method PersistAndAck(ids: seq<nat>, now: int, given: BatchResult, ghost lost: nat, ghost poisoned: seq<bool>)
      returns (ending: Ending, result: BatchResult)
      requires world.Valid()
      requires forall k :: 0 <= k < |ids| ==> ids[k] < world.sys.delivered && IsEncoded(world.sys.stream, ids[k])
      modifies world
      ensures world.Valid() && old(world.trace) <= world.trace && Later(old(world.sys), world.sys)
      ensures ending == Done ==> forall k :: 0 <= k < |ids| ==> ids[k] in world.sys.acked
      ensures ending == Deferred ==> result.errors > given.errors && world.transactions == old(world.transactions) + 3
      ensures world.transactions <= old(world.transactions) + 3 + |ids|
      ensures result.errors == given.errors ==> world.transactions <= old(world.transactions) + 3
      ensures result == given.(inserted := result.inserted, duplicates := result.duplicates, errors := result.errors)
      ensures given.inserted <= result.inserted <= given.inserted + world.sys.inserted - old(world.sys).inserted
      ensures ending == Done && result.errors == given.errors ==>
        result.inserted + result.duplicates == given.inserted + given.duplicates + |ids|
      // with nobody interfering, up to two lost transactions are made good by the next
      ensures old(world.others) == [] && lost < 3 && OnlyLost(old(world.faults), lost) ==>
        && ending == Done && result.errors == given.errors && world.Quiet() && SameWork(old(world.sys), world.sys)
        && world.transactions == old(world.transactions) + lost + 1
        && forall k :: 0 <= k < |ids| ==> HasRow(world.sys, ids[k])
      // and events that the database refuses lose only themselves
      ensures old(world.others) == [] && lost < 3 && |poisoned| == |ids|
              && LostThenRefused(old(world.faults), lost, poisoned) ==>
        && ending == Done && result.errors == given.errors + 1 + Poisons(poisoned) && world.Quiet()
        && SameWork(old(world.sys), world.sys) && Isolated(world.sys, ids, poisoned)
    {
      hide Sound, Exec, Admissible, Settled, Buried, IsEncoded, Enabled, Step, HasRow, Later;
      hide Isolated, Refuses, Poisons;
      result := given;
      LaterFacts(world.sys, world.sys);
      ghost var retried := world.others == [] && lost < 3 && OnlyLost(world.faults, lost);
      ghost var refused := world.others == [] && lost < 3 && |poisoned| == |ids|
                           && LostThenRefused(world.faults, lost, poisoned);
      var attempt := 0;
      while attempt < INLINE_RETRY_ATTEMPTS
        invariant attempt <= INLINE_RETRY_ATTEMPTS && result == given
        invariant world.transactions == old(world.transactions) + attempt
        invariant retried || refused ==> attempt <= lost && world.others == [] && world.sys == old(world.sys)
        invariant retried ==> OnlyLost(world.faults, lost - attempt)
        invariant refused ==> LostThenRefused(world.faults, lost - attempt, poisoned)
        invariant world.Valid() && old(world.trace) <= world.trace && Later(old(world.sys), world.sys)
      {
        ghost var s0 := world.sys;
        AllEncodedStay(old(world.sys), s0, ids);
        LaterFacts(old(world.sys), s0);
        var answer: Answer;
        answer, ending, result := PersistOnce(ids, now, given);
        ghost var s1 := world.sys;
        LaterTransitive(old(world.sys), s0, s1);
        LaterFacts(s0, s1);
        if answer == Transient {
          attempt := attempt + 1;
        } else if answer == NonRetryable {
          AllEncodedStay(old(world.sys), s1, ids);
          var ok;
          ok, result := PersistPerEvent(ids, now, given.(errors := given.errors + 1), poisoned);
          LaterTransitive(old(world.sys), s1, world.sys);
          LaterFacts(s1, world.sys);
          return if ok then Done else Aborted, result;
        } else {
          return;
        }
      }
      LaterFacts(old(world.sys), world.sys);
      return Deferred, given.(errors := given.errors + 1);
    }

    // Claims stale work, reads new work, persists atomically and acknowledges by outcome.
    method ProcessBatch(idle: seq<nat>, now: int) returns (ending: Ending, result: BatchResult, ghost batch: seq<nat>)
      requires world.Valid()
      modifies world
      ensures world.Valid() && old(world.trace) <= world.trace && Later(old(world.sys), world.sys)
      ensures ending == Done ==> forall k :: 0 <= k < |batch| ==> batch[k] in world.sys.acked
      ensures ending == Deferred ==> result.errors > 0
      ensures ending != Aborted ==> result.received == |batch| == result.parsedOk + result.deadLettered <= batchSize
      ensures result.inserted <= world.sys.inserted - old(world.sys).inserted
      ensures ending == Done && result.errors == 0 ==> result.inserted + result.duplicates == result.parsedOk
      ensures old(world.sys).delivered <= |old(world.sys).stream|
      // with nobody interfering and nothing failing, the batch takes the work that is there and finishes it
      ensures old(world.Quiet()) ==>
        && ending == Done && result.errors == 0 && TakesTheWork(old(world.sys), idle, batchSize, batch)
        && world.sys.stream == old(world.sys).stream
        && world.sys.delivered
           == old(world.sys).delivered + |batch| - |IdleOnes(idle, old(world.sys).pending, batchSize)|
        && forall k :: 0 <= k < |batch| ==> Finished(world.sys, batch[k])
    {
      hide Sound, Exec, Admissible, Settled, Buried, IsEncoded, HasRow, Enabled, Step;
      hide WorkOf, IdleOnes, TakesTheWork, Finished, Sifted;
      DeliveredInStream(world.sys);
      WorkIsTaken(world.sys, idle, batchSize);
      result := BatchResult(0, 0, 0, 0, 0, 0);
      batch := [];
      var ok, entries := CollectEntries(idle);
      if !ok {
        return Aborted, result, [];
      }
      batch := entries;
      result := result.(received := |entries|);
      if entries == [] {
        return Done, result, batch;
      }
      ghost var s0, quiet := world.sys, world.Quiet();
      var valid;
      ok, valid := Sift(entries);
      ghost var s1 := world.sys;
      LaterTransitive(old(world.sys), s0, s1);
      if !ok {
        return Aborted, result, batch;
      }
      result := result.(parsedOk := |valid|, deadLettered := |entries| - |valid|);
      SiftedAll(s1, entries, valid, quiet);
      ending := Done;
      if valid != [] {
        ending, result := PersistAndAck(valid, now, result, 0, []);
        LaterTransitive(old(world.sys), s1, world.sys);
      }
      if ending == Done {
        AllAcked(s1, world.sys, entries, valid);
      }
      if old(world.Quiet()) {
        AllFinished(s1, world.sys, entries, valid);
      }
    }

    // Keeps the messages that parse and dead-letters the others.
    method Sift(entries: seq<nat>) returns (ok: bool, valid: seq<nat>)
      requires world.Valid() && forall k :: 0 <= k < |entries| ==> entries[k] < world.sys.delivered
      modifies world`sys, world`trace, world`others, world`faults
      ensures world.Valid() && old(world.trace) <= world.trace && Later(old(world.sys), world.sys)
      ensures |valid| <= |entries| && (ok ==> Sifted(world.sys, entries, valid, |entries|, old(world.Quiet())))
      ensures old(world.Quiet()) ==> ok && world.Quiet() && SameWork(old(world.sys), world.sys)
    {
      hide Sound, Exec, Admissible, Settled, Buried, IsEncoded, Enabled, Step, Sifted;
      ghost var quiet := world.Quiet();
      valid := [];
      NothingSifted(world.sys, entries, quiet);
      for i := 0 to |entries|
        invariant world.Valid() && old(world.trace) <= world.trace && Later(old(world.sys), world.sys)
        invariant |valid| <= i && Sifted(world.sys, entries, valid, i, quiet)
        invariant quiet ==> world.Quiet() && SameWork(old(world.sys), world.sys)
      {
        DeliveredInStream(world.sys);
        assert entries[i] < world.sys.delivered;
        if world.sys.stream[entries[i]].Encoded? {
          EncodedIs(world.sys, entries[i]);
          SiftedGood(world.sys, entries, valid, i, quiet);
          valid := valid + [entries[i]];
        } else {
          ghost var s1 := world.sys;
          ok := DeadLetterMessage(entries[i], "invalid payload");
          LaterTransitive(old(world.sys), s1, world.sys);
          if !ok {
            return;
          }
          SiftedStays(s1, world.sys, entries, valid, i, quiet);
          SiftedBad(world.sys, entries, valid, i, quiet);
        }
      }
      ok := true;
    }

    method CollectEntries(idle: seq<nat>) returns (ok: bool, entries: seq<nat>)
      requires world.Valid()
      modifies world
      ensures world.Valid() && old(world.trace) <= world.trace && Later(old(world.sys), world.sys)
      ensures ok ==> |entries| <= batchSize && forall k :: 0 <= k < |entries| ==> entries[k] < world.sys.delivered
      ensures old(world.sys).delivered <= |old(world.sys).stream|
      ensures old(world.Quiet()) ==>
        && ok && world.Quiet() && entries == WorkOf(old(world.sys), idle, batchSize)
        && world.sys.stream == old(world.sys).stream
        && world.sys.delivered
           == old(world.sys).delivered + |entries| - |IdleOnes(idle, old(world.sys).pending, batchSize)|
    {
      hide Sound, Exec, Admissible, IdleOnes;
      DeliveredInStream(world.sys);
      ok, entries := world.ClaimIdle(name, idle, batchSize);
      if ok && |entries| < batchSize {
        ghost var before := world.sys;
        var unread: seq<nat>;
        ok, unread := world.ReadNew(name, batchSize - |entries|);
        LaterTransitive(old(world.sys), before, world.sys);
        entries := entries + unread;
      }
    }
  }

  // The event is in the table, or the malformed message has its dead letter.
  ghost predicate Finished(s: Sys, id: nat) {
    && id < |s.stream| && id in s.acked
    && if s.stream[id].Encoded? then HasEvent(s.db.events, s.stream[id].event.eventId) else Buried(s.dead, id)
  }

  // A malformed message with its dead letter.
  predicate IsBuried(s: Sys, id: nat) {
    id < |s.stream| && !s.stream[id].Encoded? && Buried(s.dead, id)
  }

  // The first i messages of a batch are told apart: encoded ones are kept, the others have been
  // acknowledged, with a dead letter when nothing failed.
  ghost predicate Sifted(s: Sys, entries: seq<nat>, valid: seq<nat>, i: nat, quiet: bool) {
    && i <= |entries|
    && (forall k :: 0 <= k < |valid| ==> valid[k] < s.delivered && IsEncoded(s.stream, valid[k]))
    && (forall k :: 0 <= k < i ==> entries[k] in valid || entries[k] in s.acked)
    && (quiet ==> forall k :: 0 <= k < i ==> entries[k] in valid || IsBuried(s, entries[k]))
  }

  lemma NothingSifted(s: Sys, entries: seq<nat>, quiet: bool)
    ensures Sifted(s, entries, [], 0, quiet)
  {
  }

  lemma SiftedStays(a: Sys, b: Sys, entries: seq<nat>, valid: seq<nat>, i: nat, quiet: bool)
    requires Later(a, b) && Sifted(a, entries, valid, i, quiet)
    ensures Sifted(b, entries, valid, i, quiet)
  {
    hide Buried, IsEncoded;
    forall k | 0 <= k < |valid|
      ensures IsEncoded(b.stream, valid[k])
    {
      EncodedStays(a, b, valid[k]);
    }
    forall k | 0 <= k < i && IsBuried(a, entries[k])
      ensures IsBuried(b, entries[k])
    {
      BuriedStays(a, b, entries[k]);
    }
  }

  lemma SiftedGood(s: Sys, entries: seq<nat>, valid: seq<nat>, i: nat, quiet: bool)
    requires Sifted(s, entries, valid, i, quiet) && i < |entries|
    requires entries[i] < s.delivered && IsEncoded(s.stream, entries[i])
    ensures Sifted(s, entries, valid + [entries[i]], i + 1, quiet)
  {
    hide IsBuried, IsEncoded;
    assert forall x :: x in valid ==> x in valid + [entries[i]];
    assert entries[i] in valid + [entries[i]];
  }

  lemma SiftedBad(s: Sys, entries: seq<nat>, valid: seq<nat>, i: nat, quiet: bool)
    requires Sifted(s, entries, valid, i, quiet) && i < |entries|
    requires entries[i] in s.acked && (quiet ==> IsBuried(s, entries[i]))
    ensures Sifted(s, entries, valid, i + 1, quiet)
  {
    hide IsBuried, IsEncoded;
  }

  lemma SiftedAll(s: Sys, entries: seq<nat>, valid: seq<nat>, quiet: bool)
    requires Sifted(s, entries, valid, |entries|, quiet)
    ensures forall k :: 0 <= k < |valid| ==> valid[k] < s.delivered && IsEncoded(s.stream, valid[k])
    ensures forall k :: 0 <= k < |entries| ==> entries[k] in valid || entries[k] in s.acked
    ensures quiet ==> forall k :: 0 <= k < |entries| ==> entries[k] in valid || IsBuried(s, entries[k])
  {
    hide IsBuried, IsEncoded;
  }

  lemma AllAcked(a: Sys, b: Sys, entries: seq<nat>, valid: seq<nat>)
    requires Later(a, b) && forall k :: 0 <= k < |entries| ==> entries[k] in valid || entries[k] in a.acked
    requires forall k :: 0 <= k < |valid| ==> valid[k] in b.acked
    ensures forall k :: 0 <= k < |entries| ==> entries[k] in b.acked
  {
  }

  lemma AllFinished(a: Sys, b: Sys, entries: seq<nat>, valid: seq<nat>)
    requires Later(a, b) && b.stream == a.stream
    requires forall k :: 0 <= k < |valid| ==> HasRow(b, valid[k])
    requires forall k :: 0 <= k < |entries| ==> entries[k] in b.acked
    requires forall k :: 0 <= k < |entries| ==> entries[k] in valid || IsBuried(a, entries[k])
    ensures forall k :: 0 <= k < |entries| ==> Finished(b, entries[k])
  {
    hide Buried;
    forall k | 0 <= k < |entries|
      ensures Finished(b, entries[k])
    {
      if entries[k] in valid {
        var j :| 0 <= j < |valid| && valid[j] == entries[k];
        assert HasRow(b, valid[j]);
      } else {
        BuriedStays(a, b, entries[k]);
      }
    }
  }

  // Storing and acknowledging leaves a row for each event.
  lemma StoredThenAcked(s: Sys, ids: seq<nat>, now: int)
    requires Sound(s) && Enabled(s, Store(ids, now)) && Enabled(Step(s, Store(ids, now)), Ack(ids))
    ensures var t := Step(Step(s, Store(ids, now)), Ack(ids));
      SameWork(s, t) && forall k :: 0 <= k < |ids| ==> HasRow(t, ids[k])
  {
    hide Persist, EventsOf, Partition, TablesOk, HasEvent, AckedAccounted;
    var events := EventsOf(s.stream, ids);
    SoundTables(s);
    RowsAreUnique(s);
    PersistProperties(s.db, events, now);
    forall k | 0 <= k < |ids|
      ensures HasRow(Step(s, Store(ids, now)), ids[k])
    {
      assert IsEncoded(s.stream, ids[k]);
      assert HasId(events, events[k].eventId);
    }
  }

  // The poisoned events have a dead letter, and the others a row.
  ghost predicate Isolated(s: Sys, ids: seq<nat>, poisoned: seq<bool>)
    requires |poisoned| == |ids|
  {
    forall k :: 0 <= k < |ids| ==> if poisoned[k] then Buried(s.dead, ids[k]) else HasRow(s, ids[k])
  }

  lemma NothingIsolated(s: Sys, ids: seq<nat>, poisoned: seq<bool>)
    ensures Isolated(s, ids[..0], poisoned[..0]) && Poisons(poisoned[..0]) == 0 && poisoned[0..] == poisoned
  {
  }

  lemma AllIsolated(s: Sys, ids: seq<nat>, poisoned: seq<bool>)
    requires |ids| == |poisoned| && Isolated(s, ids[..|ids|], poisoned[..|ids|])
    ensures Isolated(s, ids, poisoned) && Poisons(poisoned[..|ids|]) == Poisons(poisoned)
  {
    assert ids[..|ids|] == ids && poisoned[..|ids|] == poisoned;
  }

  lemma NoMoreRefused(faults: seq<Fault>)
    requires Refuses(faults, [])
    ensures faults == []
  {
  }

  lemma IsolatedNext(a: Sys, b: Sys, ids: seq<nat>, poisoned: seq<bool>, i: nat)
    requires i < |ids| == |poisoned| && Later(a, b) && Isolated(a, ids[..i], poisoned[..i])
    requires if poisoned[i] then Buried(b.dead, ids[i]) else HasRow(b, ids[i])
    ensures Isolated(b, ids[..i + 1], poisoned[..i + 1])
    ensures Poisons(poisoned[..i + 1]) == Poisons(poisoned[..i]) + if poisoned[i] then 1 else 0
  {
    hide Buried, HasRow;
    NextPrefix(poisoned, i);
    forall k | 0 <= k < i
      ensures if poisoned[k] then Buried(b.dead, ids[k]) else HasRow(b, ids[k])
    {
      assert ids[..i][k] == ids[k] && poisoned[..i][k] == poisoned[k];
      if poisoned[k] {
        BuriedStays(a, b, ids[k]);
      } else {
        RowStays(a, b, ids[k]);
      }
    }
  }

  lemma RowStays(a: Sys, b: Sys, id: nat)
    requires Later(a, b) && HasRow(a, id)
    ensures HasRow(b, id)
  {
    var i :| 0 <= i < |a.db.events| && a.db.events[i].eventId == a.stream[id].event.eventId;
    assert b.db.events[i].eventId == a.stream[id].event.eventId;
  }

  lemma LaterFacts(a: Sys, b: Sys)
    ensures Later(a, a)
    ensures Later(a, b) ==> a.stream <= b.stream && a.delivered <= b.delivered && a.inserted <= b.inserted
  {
  }

  lemma AllEncodedStay(a: Sys, b: Sys, ids: seq<nat>)
    requires Later(a, b)
    requires forall k :: 0 <= k < |ids| ==> ids[k] < a.delivered && IsEncoded(a.stream, ids[k])
    ensures forall k :: 0 <= k < |ids| ==> ids[k] < b.delivered && IsEncoded(b.stream, ids[k])
  {
  }

  lemma RefusesNext(faults: seq<Fault>, poisoned: seq<bool>, i: nat)
    requires i < |poisoned| && Refuses(faults, poisoned[i..])
    ensures if poisoned[i] then
        && Head(faults) == Constraint && Head(Tail(faults)) == Fine && Head(Tail(Tail(faults))) == Fine
        && Refuses(Tail(Tail(Tail(faults))), poisoned[i + 1..])
      else Head(faults) == Fine && Head(Tail(faults)) == Fine && Refuses(Tail(Tail(faults)), poisoned[i + 1..])
  {
    assert poisoned[i..][0] == poisoned[i] && poisoned[i..][1..] == poisoned[i + 1..];
  }

  lemma RowsAreUnique(s: Sys)
    requires Sound(s)
    ensures TablesOk(s.db)
  {
  }

  lemma BuriedSettles(s: Sys, id: nat)
    requires id < |s.stream| && Buried(s.dead, id)
    ensures Settled(s, id)
  {
  }

  lemma EncodedStays(a: Sys, b: Sys, id: nat)
    requires Later(a, b) && IsEncoded(a.stream, id)
    ensures IsEncoded(b.stream, id)
  {
  }

  lemma EncodedEnables(a: Sys, b: Sys, ids: seq<nat>, now: int)
    requires Later(a, b) && forall k :: 0 <= k < |ids| ==> IsEncoded(a.stream, ids[k])
    ensures Enabled(b, Store(ids, now)) && forall k :: 0 <= k < |ids| ==> IsEncoded(b.stream, ids[k])
  {
    hide IsEncoded;
    forall k | 0 <= k < |ids|
      ensures IsEncoded(b.stream, ids[k])
    {
      EncodedStays(a, b, ids[k]);
    }
  }

  lemma SettledEnables(s: Sys, ids: seq<nat>)
    requires forall k :: 0 <= k < |ids| ==> Settled(s, ids[k])
    ensures Enabled(s, Ack(ids))
  {
    hide Settled;
  }

  lemma EncodedIs(s: Sys, id: nat)
    requires id < |s.stream| && s.stream[id].Encoded?
    ensures IsEncoded(s.stream, id)
  {
  }
}
