/**
 The replay injector: sends a scenario's lines to a stream in pipelined chunks, and stores a
 checkpoint after each confirmed chunk.

 A run is described by the list of Redis writes it would issue; a crash, at any point of a
 pipeline or between two commands, executes a prefix of that list.
 */
module Injector {
  import opened Common

  const XADD_BATCH := 500

  // A non-blank scenario line: it parses to a payload or it does not.
  datatype Line<P> = Good(payload: P) | Bad

  datatype Entry<P> = Entry(payload: P, seqNo: nat)

  datatype Redis<P> = Redis(stream: seq<Entry<P>>, checkpoint: Option<nat>)

  datatype Command<P> = Add(entry: Entry<P>) | SetCheckpoint(index: nat) | DeleteCheckpoint

  // The lines that follow the blank-line filter.
  datatype RawLine<P> = Blank | Text(line: Line<P>)

  function LoadLines<P>(raw: seq<RawLine<P>>): seq<Line<P>> {
    if raw == [] then []
    else LoadLines(Front(raw)) + match Last(raw) { case Blank => [] case Text(l) => [l] }
  }

  function Exec1<P>(r: Redis<P>, c: Command<P>): Redis<P> {
    match c
    case Add(e) => r.(stream := r.stream + [e])
    case SetCheckpoint(n) => r.(checkpoint := Some(n))
    case DeleteCheckpoint => r.(checkpoint := None)
  }

  function Exec<P>(r: Redis<P>, cs: seq<Command<P>>): Redis<P> {
    if cs == [] then r else Exec1(Exec(r, Front(cs)), Last(cs))
  }

  // ---- what a run would issue ----------------------------------------------------------------

  function Start<P>(lines: seq<Line<P>>, checkpoint: Option<nat>, reset: bool): (s: nat)
    ensures s <= |lines|
  {
    var c := if reset then 0 else checkpoint.GetOr(0);
    if c < |lines| then c else |lines|
  }

  // Where the row limit stops the run.
  function End<P>(lines: seq<Line<P>>, start: nat, limit: Option<int>): (e: nat)
    requires start <= |lines|
    ensures start <= e <= |lines|
  {
    if limit.None? || limit.value >= |lines| - start then |lines|
    else if limit.value <= 0 then start
    else start + limit.value
  }

  // The first bad line in [from, end), or end.
  function FirstBad<P>(lines: seq<Line<P>>, from: nat, end: nat): (b: nat)
    requires from <= end <= |lines|
    ensures from <= b <= end && (b < end ==> lines[b].Bad?)
    ensures forall i :: from <= i < b ==> lines[i].Good?
    decreases end - from
  {
    if from == end || lines[from].Bad? then from else FirstBad(lines, from + 1, end)
  }

  ghost predicate AllGood<P>(lines: seq<Line<P>>, from: nat, to: nat) {
    from <= to <= |lines| && forall i :: from <= i < to ==> lines[i].Good?
  }

  ghost function Entries<P>(lines: seq<Line<P>>, from: nat, to: nat): seq<Entry<P>>
    requires AllGood(lines, from, to)
  {
    seq(to - from, i requires 0 <= i < to - from => Entry(lines[from + i].payload, from + i))
  }

  ghost function Adds<P>(lines: seq<Line<P>>, from: nat, to: nat): seq<Command<P>>
    requires AllGood(lines, from, to)
  {
    seq(to - from, i requires 0 <= i < to - from => Add(Entries(lines, from, to)[i]))
  }

  ghost function Chunk<P>(lines: seq<Line<P>>, from: nat, to: nat): seq<Command<P>>
    requires AllGood(lines, from, to)
  {
    Adds(lines, from, to) + [SetCheckpoint(to)]
  }

  ghost function FullChunks<P>(lines: seq<Line<P>>, start: nat, k: nat): seq<Command<P>>
    requires AllGood(lines, start, start + k * XADD_BATCH)
  {
    if k == 0 then []
    else
      FullChunks(lines, start, k - 1) + Chunk(lines, start + (k - 1) * XADD_BATCH, start + k * XADD_BATCH)
  }

  ghost function Rest<P>(lines: seq<Line<P>>, from: nat, to: nat): seq<Command<P>>
    requires AllGood(lines, from, to)
  {
    if from == to then [] else Chunk(lines, from, to)
  }

  function Closing<P>(lines: seq<Line<P>>, end: nat, limit: Option<int>): seq<Command<P>> {
    if end == |lines| && limit.None? then [SetCheckpoint(end)] else []
  }

  // Whole chunks before the first bad line; without one also the rest, and the closing checkpoint
  // of a run that reached the end unlimited.
  ghost function Body<P>(lines: seq<Line<P>>, start: nat, limit: Option<int>): seq<Command<P>>
    requires start <= |lines|
  {
    var end := End(lines, start, limit);
    var bad := FirstBad(lines, start, end);
    var k := (bad - start) / XADD_BATCH;
    var mid := start + k * XADD_BATCH;
    FullChunks(lines, start, k)
    + if bad < end then []
      else Rest(lines, mid, end)
           + Closing(lines, end, limit)
  }

  ghost function Script<P>(lines: seq<Line<P>>, checkpoint: Option<nat>, reset: bool, limit: Option<int>)
    : seq<Command<P>>
  {
    (if reset then [DeleteCheckpoint] else []) + Body(lines, Start(lines, checkpoint, reset), limit)
  }

  function Min(a: nat, b: nat): nat {
    if a < b then a else b
  }

  ghost function RunRedis<P>(lines: seq<Line<P>>, r: Redis<P>, reset: bool, limit: Option<int>, fuel: nat): Redis<P> {
    if lines == [] then r
    else
      var script := Script(lines, r.checkpoint, reset, limit);
      Exec(r, script[..Min(fuel, |script|)])
  }

  // ---- the injector --------------------------------------------------------------------------

  datatype Summary = Summary(totalLines: nat, sent: nat, skipped: nat, completed: bool)

  datatype Outcome = EmptyScenario | Invalid(line: nat) | Crashed | Replayed(summary: Summary)

  // What is left of a script after the connection served part of it: the crash cuts it short.
  ghost predicate Cut<P>(before: seq<Command<P>>, script: seq<Command<P>>, fuel: nat, after: seq<Command<P>>, left: nat)
  {
    after == before + script[..Min(fuel, |script|)] && left == fuel - Min(fuel, |script|)
  }

  // The Redis server, reached over a connection that survives a number of writes.
  class Connection<P> {
    var redis: Redis<P>
    var fuel: nat
    ghost var issued: seq<Command<P>>
    ghost const initial: Redis<P>

    constructor (redis: Redis<P>, fuel: nat)
      ensures this.redis == redis && initial == redis && this.fuel == fuel && issued == []
    {
      this.redis, this.initial, this.fuel, this.issued := redis, redis, fuel, [];
    }

    ghost predicate Valid()
      reads this
    {
      redis == Exec(initial, issued)
    }

    method Issue(c: Command<P>) returns (ok: bool)
      requires Valid()
      modifies this
      ensures Valid() && (ok <==> old(fuel) > 0) && redis == if ok then Exec1(old(redis), c) else old(redis)
      ensures Cut(old(issued), [c], old(fuel), issued, fuel)
    {
      hide Exec, Exec1, Cut;
      ok := fuel > 0;
      CutOne(issued, c, fuel);
      if ok {
        ExecSnoc(initial, issued, c);
        redis := Exec1(redis, c);
        issued := issued + [c];
        fuel := fuel - 1;
      }
    }

    // A non-transactional pipeline: the commands run in order up to a crash.
    method ExecutePipeline(pipe: seq<Command<P>>) returns (ok: bool)
      requires Valid()
      modifies this
      ensures Valid() && (ok <==> |pipe| <= old(fuel))
      ensures Cut(old(issued), pipe, old(fuel), issued, fuel)
    {
      hide Exec, Exec1, Cut;
      assert pipe[..0] == [];
      CutStart(issued, fuel);
      for i := 0 to |pipe|
        invariant Valid() && i + fuel == old(fuel) && Cut(old(issued), pipe[..i], old(fuel), issued, fuel)
      {
        ghost var b, g := issued, fuel;
        ok := Issue(pipe[i]);
        CutNext(old(issued), pipe, i, old(fuel), b, g, issued, fuel);
        if !ok {
          return;
        }
      }
      assert pipe[..|pipe|] == pipe;
      ok := true;
    }
  }

  lemma ExecSnoc<P>(r: Redis<P>, cs: seq<Command<P>>, c: Command<P>)
    ensures Exec(r, cs + [c]) == Exec1(Exec(r, cs), c)
  {
    Snoc(cs, c);
  }

  lemma CutOne<P>(a: seq<Command<P>>, c: Command<P>, f: nat)
    ensures if f > 0 then Cut(a, [c], f, a + [c], f - 1) else Cut(a, [c], f, a, 0)
  {
    assert [c][..1] == [c] && [c][..0] == [] && a + [] == a;
  }

  // One more command of a pipeline: it is executed, or the pipeline ends here.
  lemma CutNext<P>(a: seq<Command<P>>, pipe: seq<Command<P>>, i: nat, f: nat, b: seq<Command<P>>, g: nat,
                   c: seq<Command<P>>, h: nat)
    requires i < |pipe| && i + g == f && Cut(a, pipe[..i], f, b, g) && Cut(b, [pipe[i]], g, c, h)
    ensures if g > 0 then i + 1 + h == f && Cut(a, pipe[..i + 1], f, c, h) else f < |pipe| && Cut(a, pipe, f, c, h)
  {
    CutThen(a, pipe[..i], f, b, g, [pipe[i]], c, h);
    NextPrefix(pipe, i);
    if g == 0 {
      CutShort(a, pipe[..i + 1], f, c, h, pipe[i + 1..]);
      assert pipe[..i + 1] + pipe[i + 1..] == pipe;
    }
  }

  lemma CutThen<P>(a: seq<Command<P>>, s: seq<Command<P>>, f: nat, b: seq<Command<P>>, g: nat,
                   t: seq<Command<P>>, c: seq<Command<P>>, h: nat)
    requires Cut(a, s, f, b, g) && |s| <= f && Cut(b, t, g, c, h)
    ensures Cut(a, s + t, f, c, h) && h == f - Min(f, |s + t|)
  {
    assert b == a + s;
    assert (s + t)[..Min(f, |s + t|)] == s + t[..Min(g, |t|)];
  }

  // A crash inside the first part of a script is a crash of the whole script.
  lemma CutShort<P>(a: seq<Command<P>>, s: seq<Command<P>>, f: nat, b: seq<Command<P>>, g: nat, t: seq<Command<P>>)
    requires Cut(a, s, f, b, g) && f < |s|
    ensures Cut(a, s + t, f, b, g)
  {
    assert (s + t)[..f] == s[..f];
  }

  lemma {:induction false} FirstBadIs<P>(lines: seq<Line<P>>, from: nat, b: nat, end: nat)
    requires from <= b <= end <= |lines| && AllGood(lines, from, b) && (b < end ==> lines[b].Bad?)
    ensures FirstBad(lines, from, end) == b
    decreases b - from
  {
    if from < b {
      FirstBadIs(lines, from + 1, b, end);
    }
  }

  lemma {:induction false} ChunksPrefix<P>(lines: seq<Line<P>>, start: nat, k: nat, q: nat)
    returns (rest: seq<Command<P>>)
    requires k <= q && AllGood(lines, start, start + q * XADD_BATCH)
    ensures AllGood(lines, start, start + k * XADD_BATCH)
    ensures FullChunks(lines, start, q) == FullChunks(lines, start, k) + rest
  {
    if k == q {
      rest := [];
    } else {
      var before := ChunksPrefix(lines, start, k, q - 1);
      rest := before + Chunk(lines, start + (q - 1) * XADD_BATCH, start + q * XADD_BATCH);
    }
  }

  lemma BodyStarts<P>(lines: seq<Line<P>>, start: nat, limit: Option<int>, k: nat) returns (rest: seq<Command<P>>)
    requires start <= |lines| && AllGood(lines, start, start + k * XADD_BATCH)
    requires start + k * XADD_BATCH <= End(lines, start, limit)
    ensures Body(lines, start, limit) == FullChunks(lines, start, k) + rest
  {
    hide FullChunks, FirstBad;
    var end := End(lines, start, limit);
    var bad := FirstBad(lines, start, end);
    var q := (bad - start) / XADD_BATCH;
    assert start + k * XADD_BATCH <= bad;
    ChunksReach(start, k, bad);
    var more := ChunksPrefix(lines, start, k, q);
    if bad < end {
      rest := more;
    } else {
      rest := more + (Rest(lines, start + q * XADD_BATCH, end) + Closing(lines, end, limit));
    }
  }

  // As many whole chunks fit before a position as lie before it.
  lemma ChunksReach(start: nat, k: nat, bad: nat)
    requires start + k * XADD_BATCH <= bad
    ensures k <= (bad - start) / XADD_BATCH && start + (bad - start) / XADD_BATCH * XADD_BATCH <= bad
  {
  }

  lemma CutFuel<P>(a: seq<Command<P>>, s: seq<Command<P>>, f: nat, b: seq<Command<P>>, g: nat)
    requires Cut(a, s, f, b, g) && |s| <= f
    ensures g == f - |s|
  {
  }

  lemma CutStart<P>(a: seq<Command<P>>, f: nat)
    ensures Cut(a, [], f, a, f)
  {
  }

  lemma ExecNothing<P>(r: Redis<P>, cs: seq<Command<P>>)
    ensures Exec(r, cs[..0]) == r
  {
  }

  lemma NoChunks<P>(lines: seq<Line<P>>, start: nat)
    requires start <= |lines|
    ensures FullChunks(lines, start, 0) == []
  {
  }

  lemma NoEntries<P>(lines: seq<Line<P>>, at: nat)
    requires at <= |lines|
    ensures Entries(lines, at, at) == []
  {
  }

  lemma NextEntry<P>(lines: seq<Line<P>>, from: nat, at: nat)
    requires from <= at < |lines| && AllGood(lines, from, at) && lines[at].Good?
    ensures Entries(lines, from, at + 1) == Entries(lines, from, at) + [Entry(lines[at].payload, at)]
  {
  }

  lemma NextChunk<P>(lines: seq<Line<P>>, start: nat, k: nat, to: nat)
    requires AllGood(lines, start, to) && to == start + (k + 1) * XADD_BATCH
    ensures FullChunks(lines, start, k + 1) == FullChunks(lines, start, k) + Rest(lines, to - XADD_BATCH, to)
  {
  }

  lemma WholeBody<P>(lines: seq<Line<P>>, start: nat, limit: Option<int>, k: nat, mid: nat)
    requires start <= |lines| && AllGood(lines, start, End(lines, start, limit))
    requires mid == start + k * XADD_BATCH && mid <= End(lines, start, limit) < mid + XADD_BATCH
    ensures var end := End(lines, start, limit);
      && Body(lines, start, limit) == FullChunks(lines, start, k) + (Rest(lines, mid, end) + Closing(lines, end, limit))
      && FirstBad(lines, start, end) == end
  {
    hide FullChunks, Chunk;
    var end := End(lines, start, limit);
    FirstBadIs(lines, start, end, end);
    assert (end - start) / XADD_BATCH == k;
  }

  lemma BrokenBody<P>(lines: seq<Line<P>>, start: nat, limit: Option<int>, k: nat, bad: nat)
    requires start <= |lines| && start <= bad < End(lines, start, limit)
    requires AllGood(lines, start, bad) && lines[bad].Bad?
    requires start + k * XADD_BATCH <= bad < start + (k + 1) * XADD_BATCH
    ensures FirstBad(lines, start, End(lines, start, limit)) == bad
    ensures Body(lines, start, limit) == FullChunks(lines, start, k)
  {
    hide FullChunks, Chunk;
    FirstBadIs(lines, start, bad, End(lines, start, limit));
    assert (bad - start) / XADD_BATCH == k;
    assert FullChunks(lines, start, k) + [] == FullChunks(lines, start, k);
  }

  // ---- the sending loop, step by step ------------------------------------------------------------

  // k whole chunks are out; the buffer holds the lines behind them, all good so far.
  ghost predicate Sending<P>(lines: seq<Line<P>>, start: nat, limit: Option<int>, i0: seq<Command<P>>, f0: nat, k: nat,
                             seqNo: nat, buffer: seq<Entry<P>>, issued: seq<Command<P>>, fuel: nat)
  {
    && start <= seqNo <= |lines| && AllGood(lines, start, seqNo)
    && seqNo <= End(lines, start, limit) && seqNo == start + k * XADD_BATCH + |buffer| && |buffer| <= XADD_BATCH
    && buffer == Entries(lines, seqNo - |buffer|, seqNo)
    && fuel == f0 - |FullChunks(lines, start, k)|
    && Cut(i0, FullChunks(lines, start, k), f0, issued, fuel)
  }

  lemma SendingStarts<P>(lines: seq<Line<P>>, start: nat, limit: Option<int>, i0: seq<Command<P>>, f0: nat)
    requires start <= |lines|
    ensures Sending(lines, start, limit, i0, f0, 0, start, [], i0, f0)
  {
    hide Cut, FullChunks, Entries;
    NoChunks(lines, start);
    NoEntries(lines, start);
    CutStart(i0, f0);
  }

  lemma SendingBroken<P>(lines: seq<Line<P>>, start: nat, limit: Option<int>, i0: seq<Command<P>>, f0: nat, k: nat,
                         seqNo: nat, buffer: seq<Entry<P>>, issued: seq<Command<P>>, fuel: nat)
    requires Sending(lines, start, limit, i0, f0, k, seqNo, buffer, issued, fuel) && |buffer| < XADD_BATCH
    requires seqNo < |lines| && lines[seqNo].Bad? && (limit.None? || seqNo - start < limit.value)
    ensures Cut(i0, Body(lines, start, limit), f0, issued, fuel) && |Body(lines, start, limit)| <= f0
    ensures seqNo < End(lines, start, limit) && FirstBad(lines, start, End(lines, start, limit)) == seqNo
  {
    hide Cut, FullChunks, Body, FirstBad, Entries;
    BrokenBody(lines, start, limit, k, seqNo);
  }

  lemma SendingReads<P>(lines: seq<Line<P>>, start: nat, limit: Option<int>, i0: seq<Command<P>>, f0: nat, k: nat,
                        seqNo: nat, buffer: seq<Entry<P>>, issued: seq<Command<P>>, fuel: nat)
    requires Sending(lines, start, limit, i0, f0, k, seqNo, buffer, issued, fuel) && |buffer| < XADD_BATCH
    requires seqNo < |lines| && lines[seqNo].Good? && (limit.None? || seqNo - start < limit.value)
    ensures Sending(lines, start, limit, i0, f0, k, seqNo + 1, buffer + [Entry(lines[seqNo].payload, seqNo)], issued,
                    fuel)
  {
    hide Cut, FullChunks, Entries;
    NextEntry(lines, seqNo - |buffer|, seqNo);
  }

  lemma SendingFull<P>(lines: seq<Line<P>>, start: nat, limit: Option<int>, i0: seq<Command<P>>, f0: nat, k: nat,
                       seqNo: nat, buffer: seq<Entry<P>>, issued: seq<Command<P>>, fuel: nat)
    requires Sending(lines, start, limit, i0, f0, k, seqNo, buffer, issued, fuel)
    ensures start + |buffer| <= seqNo && AllGood(lines, seqNo - |buffer|, seqNo)
    ensures buffer == Entries(lines, seqNo - |buffer|, seqNo)
  {
    hide Cut, FullChunks, Entries;
  }

  lemma SendingFlushes<P>(lines: seq<Line<P>>, start: nat, limit: Option<int>, i0: seq<Command<P>>, f0: nat, k: nat,
                          seqNo: nat, buffer: seq<Entry<P>>, i1: seq<Command<P>>, f1: nat, i2: seq<Command<P>>, f2: nat)
    requires Sending(lines, start, limit, i0, f0, k, seqNo, buffer, i1, f1) && |buffer| == XADD_BATCH
    requires AllGood(lines, seqNo - XADD_BATCH, seqNo) && Cut(i1, Rest(lines, seqNo - XADD_BATCH, seqNo), f1, i2, f2)
    ensures if |Rest(lines, seqNo - XADD_BATCH, seqNo)| <= f1
            then Sending(lines, start, limit, i0, f0, k + 1, seqNo, [], i2, f2)
            else f0 < |Body(lines, start, limit)| && Cut(i0, Body(lines, start, limit), f0, i2, f2)
  {
    hide Cut, FullChunks, Body, Rest, Entries;
    var done, chunk := FullChunks(lines, start, k), Rest(lines, seqNo - XADD_BATCH, seqNo);
    NextChunk(lines, start, k, seqNo);
    CutThen(i0, done, f0, i1, f1, chunk, i2, f2);
    NoEntries(lines, seqNo);
    if |chunk| > f1 {
      var rest := BodyStarts(lines, start, limit, k + 1);
      CutShort(i0, done + chunk, f0, i2, f2, rest);
    }
  }

  lemma SendingEnds<P>(lines: seq<Line<P>>, start: nat, limit: Option<int>, i0: seq<Command<P>>, f0: nat, k: nat,
                       seqNo: nat, buffer: seq<Entry<P>>, issued: seq<Command<P>>, fuel: nat)
    requires Sending(lines, start, limit, i0, f0, k, seqNo, buffer, issued, fuel) && |buffer| < XADD_BATCH
    requires seqNo >= |lines| || (limit.Some? && seqNo - start >= limit.value)
    ensures seqNo == End(lines, start, limit) && FirstBad(lines, start, seqNo) == seqNo
    ensures |buffer| <= seqNo - start && AllGood(lines, seqNo - |buffer|, seqNo)
    ensures buffer == Entries(lines, seqNo - |buffer|, seqNo)
  {
    hide Cut, FullChunks, Entries;
    FirstBadIs(lines, start, seqNo, seqNo);
  }

  lemma SendingConcluded<P>(lines: seq<Line<P>>, start: nat, limit: Option<int>, i0: seq<Command<P>>, f0: nat, k: nat,
                            seqNo: nat, buffer: seq<Entry<P>>, i1: seq<Command<P>>, f1: nat, i2: seq<Command<P>>,
                            f2: nat)
    requires Sending(lines, start, limit, i0, f0, k, seqNo, buffer, i1, f1) && |buffer| < XADD_BATCH
    requires seqNo == End(lines, start, limit) && AllGood(lines, seqNo - |buffer|, seqNo)
    requires Cut(i1, Rest(lines, seqNo - |buffer|, seqNo) + Closing(lines, seqNo, limit), f1, i2, f2)
    ensures Cut(i0, Body(lines, start, limit), f0, i2, f2)
    ensures f0 < |Body(lines, start, limit)|
       <==> f1 < |Rest(lines, seqNo - |buffer|, seqNo) + Closing(lines, seqNo, limit)|
  {
    hide Cut, FullChunks, Body, Rest, Entries, Closing, FirstBad;
    WholeBody(lines, start, limit, k, seqNo - |buffer|);
    CutThen(i0, FullChunks(lines, start, k), f0, i1, f1,
            Rest(lines, seqNo - |buffer|, seqNo) + Closing(lines, seqNo, limit), i2, f2);
  }

  // ---- where a run starts, ends and stops -----------------------------------------------------

  // The line at which a run from `from` to `to` stops: the first bad one, or the end.
  ghost predicate StopsAt<P>(lines: seq<Line<P>>, from: nat, to: nat, stop: nat) {
    && from <= stop <= to <= |lines| && (forall i :: from <= i < stop ==> lines[i].Good?)
    && (stop < to ==> lines[stop].Bad?)
  }

  // Where a replay starts: at the checkpoint, which a reset deletes, within the scenario.
  ghost predicate StartsAt<P>(lines: seq<Line<P>>, checkpoint: Option<nat>, reset: bool, start: nat) {
    start == if reset || checkpoint.None? then 0 else if checkpoint.value <= |lines| then checkpoint.value else |lines|
  }

  // Where its limit ends it.
  ghost predicate EndsAt<P>(lines: seq<Line<P>>, start: nat, limit: Option<int>, end: nat) {
    && (limit.None? ==> end == |lines|)
    && (limit.Some? ==> end == if start + limit.value > |lines| then |lines|
                               else if limit.value < 0 then start else start + limit.value)
  }

  lemma StartAndEnd<P>(lines: seq<Line<P>>, checkpoint: Option<nat>, reset: bool, limit: Option<int>, start: nat,
                       end: nat, stop: nat)
    requires StartsAt(lines, checkpoint, reset, start) && EndsAt(lines, start, limit, end)
    requires StopsAt(lines, start, end, stop)
    ensures Start(lines, checkpoint, reset) == start && End(lines, start, limit) == end
    ensures FirstBad(lines, start, end) == stop
  {
    FirstBadIs(lines, start, stop, end);
  }

  // An outcome names the line where the run stopped, or counts what it skipped and sent.
  ghost predicate Reports<P>(lines: seq<Line<P>>, checkpoint: Option<nat>, reset: bool, limit: Option<int>,
                             outcome: Outcome)
  {
    match outcome
    case Replayed(s) =>
      && s.totalLines == |lines| && StartsAt(lines, checkpoint, reset, s.skipped)
      && EndsAt(lines, s.skipped, limit, s.skipped + s.sent)
      && StopsAt(lines, s.skipped, s.skipped + s.sent, s.skipped + s.sent)
      && (s.completed <==> s.skipped + s.sent == |lines| && limit.None?)
    case Invalid(line) =>
      forall start, end :: StartsAt(lines, checkpoint, reset, start) && EndsAt(lines, start, limit, end) ==>
        StopsAt(lines, start, end, line) && line < end
    case _ => true
  }

  lemma NothingToReport<P>(lines: seq<Line<P>>, checkpoint: Option<nat>, reset: bool, limit: Option<int>,
                           outcome: Outcome)
    requires outcome.EmptyScenario? || outcome.Crashed?
    ensures Reports(lines, checkpoint, reset, limit, outcome)
  {
  }

  lemma ReportsIts<P>(lines: seq<Line<P>>, checkpoint: Option<nat>, reset: bool, limit: Option<int>, outcome: Outcome)
    requires outcome.Invalid? || outcome.Replayed?
    requires var start := Start(lines, checkpoint, reset);
      var end := End(lines, start, limit);
      outcome == if FirstBad(lines, start, end) < end then Invalid(FirstBad(lines, start, end))
                 else Replayed(Summary(|lines|, end - start, start, end == |lines| && limit.None?))
    ensures Reports(lines, checkpoint, reset, limit, outcome)
  {
  }

  // A script issues one command for each line it sends, one for each chunk, and at most two more.
  lemma {:induction false} ChunksAreShort<P>(lines: seq<Line<P>>, start: nat, k: nat)
    requires AllGood(lines, start, start + k * XADD_BATCH)
    ensures |FullChunks(lines, start, k)| == k * (XADD_BATCH + 1)
  {
    if k > 0 {
      ChunksAreShort(lines, start, k - 1);
    }
  }

  lemma ScriptIsShort<P>(lines: seq<Line<P>>, checkpoint: Option<nat>, reset: bool, limit: Option<int>)
    ensures |Script(lines, checkpoint, reset, limit)| <= 2 * |lines| + 2
  {
    hide FirstBad, FullChunks, Start, End;
    var start := Start(lines, checkpoint, reset);
    var end := End(lines, start, limit);
    var bad := FirstBad(lines, start, end);
    ChunksReach(start, 0, bad);
    ChunksAreShort(lines, start, (bad - start) / XADD_BATCH);
  }

  class ReplayInjector<P> {
    const lines: seq<Line<P>>
    const connection: Connection<P>

    constructor (raw: seq<RawLine<P>>, connection: Connection<P>)
      ensures lines == LoadLines(raw) && this.connection == connection
    {
      lines := LoadLines(raw);
      this.connection := connection;
    }

    // Sends the buffered lines in one round trip, then the checkpoint behind them.
    method Flush(from: nat, buffer: seq<Entry<P>>) returns (ok: bool)
      requires connection.Valid() && AllGood(lines, from, from + |buffer|)
      requires buffer == Entries(lines, from, from + |buffer|)
      modifies connection
      ensures connection.Valid()
      ensures var chunk := Rest(lines, from, from + |buffer|);
        && (ok <==> |chunk| <= old(connection.fuel))
        && Cut(old(connection.issued), chunk, old(connection.fuel), connection.issued, connection.fuel)
    {
      if buffer == [] {
        return true;
      }
      var pipe: seq<Command<P>> := [];
      ghost var adds := Adds(lines, from, from + |buffer|);
      for i := 0 to |buffer|
        invariant pipe == adds[..i]
      {
        pipe := pipe + [Add(buffer[i])];
      }
      ghost var confirm := [SetCheckpoint(from + |buffer|)];
      ghost var i0, f0 := connection.issued, connection.fuel;
      ok := connection.ExecutePipeline(pipe);
      ghost var i1, f1 := connection.issued, connection.fuel;
      if !ok {
        CutShort(i0, adds, f0, i1, f1, confirm);
        return;
      }
      ok := connection.Issue(SetCheckpoint(from + |buffer|));
      CutThen(i0, adds, f0, i1, f1, confirm, connection.issued, connection.fuel);
    }

    method Run(reset: bool, limit: Option<int>) returns (outcome: Outcome)
      requires connection.Valid() && connection.issued == []
      modifies connection
      ensures connection.Valid()
      ensures connection.redis == RunRedis(lines, old(connection.redis), reset, limit, old(connection.fuel))
      ensures lines == [] <==> outcome == EmptyScenario
      ensures outcome.Crashed? <==>
        lines != [] && old(connection.fuel) < |Script(lines, old(connection.redis).checkpoint, reset, limit)|
      ensures Reports(lines, old(connection.redis).checkpoint, reset, limit, outcome)
      ensures outcome.Crashed? ==> old(connection.fuel) < 2 * |lines| + 2
    {
      hide Body, FirstBad, Exec, End, Reports;
      if lines == [] {
        NothingToReport(lines, connection.redis.checkpoint, reset, limit, EmptyScenario);
        return EmptyScenario;
      }
      ExecNothing(connection.initial, connection.issued);
      assert connection.issued == connection.issued[..0] && connection.redis == connection.initial;
      ghost var checkpoint := connection.redis.checkpoint;
      ghost var f0 := connection.fuel;
      ghost var del: seq<Command<P>> := if reset then [DeleteCheckpoint] else [];
      ghost var body := Body(lines, Start(lines, checkpoint, reset), limit);
      assert Script(lines, checkpoint, reset, limit) == del + body;
      CutStart<P>([], f0);
      if reset {
        var ok := connection.Issue(DeleteCheckpoint);
        if !ok {
          ExecNothing(connection.redis, del + body);
          CutShort([], del, f0, connection.issued, connection.fuel, body);
          NothingToReport(lines, checkpoint, reset, limit, Crashed);
          ScriptIsShort(lines, checkpoint, reset, limit);
          return Crashed;
        }
      }
      ghost var i1, f1 := connection.issued, connection.fuel;
      assert Cut([], del, f0, i1, f1);
      var start := Min(connection.redis.checkpoint.GetOr(0), |lines|);
      assert start == Start(lines, checkpoint, reset);
      outcome := Send(start, limit);
      CutThen([], del, f0, i1, f1, body, connection.issued, connection.fuel);
      assert connection.issued == (del + body)[..Min(f0, |del + body|)];
      ScriptIsShort(lines, checkpoint, reset, limit);
      if outcome.Crashed? {
        NothingToReport(lines, checkpoint, reset, limit, outcome);
      } else {
        ReportsIts(lines, checkpoint, reset, limit, outcome);
      }
    }

    method Send(start: nat, limit: Option<int>) returns (outcome: Outcome)
      requires start <= |lines| && connection.Valid()
      modifies connection
      ensures connection.Valid() && !outcome.EmptyScenario?
      ensures Cut(old(connection.issued), Body(lines, start, limit), old(connection.fuel), connection.issued,
                  connection.fuel)
      ensures outcome.Crashed? <==> old(connection.fuel) < |Body(lines, start, limit)|
      ensures outcome.Invalid? || outcome.Replayed? ==>
        var end := End(lines, start, limit);
        outcome == if FirstBad(lines, start, end) < end then Invalid(FirstBad(lines, start, end))
                   else Replayed(Summary(|lines|, end - start, start, end == |lines| && limit.None?))
    {
      hide Cut, FullChunks, Body, FirstBad, Rest, Exec, Exec1, Entries, Closing, End, Sending;
      ghost var i0, f0 := connection.issued, connection.fuel;
      ghost var k: nat := 0;
      var sent: nat, seqNo := 0, start;
      var buffer: seq<Entry<P>> := [];
      SendingStarts(lines, start, limit, i0, f0);
      while seqNo < |lines| && (limit.None? || sent < limit.value)
        invariant connection.Valid() && start <= seqNo == start + sent <= |lines| && |buffer| < XADD_BATCH
        invariant Sending(lines, start, limit, i0, f0, k, seqNo, buffer, connection.issued, connection.fuel)
      {
        if lines[seqNo].Bad? {
          SendingBroken(lines, start, limit, i0, f0, k, seqNo, buffer, connection.issued, connection.fuel);
          return Invalid(seqNo);
        }
        SendingReads(lines, start, limit, i0, f0, k, seqNo, buffer, connection.issued, connection.fuel);
        buffer := buffer + [Entry(lines[seqNo].payload, seqNo)];
        sent := sent + 1;
        seqNo := seqNo + 1;
        if |buffer| >= XADD_BATCH {
          SendingFull(lines, start, limit, i0, f0, k, seqNo, buffer, connection.issued, connection.fuel);
          ghost var i1, f1 := connection.issued, connection.fuel;
          var ok := Flush(seqNo - XADD_BATCH, buffer);
          SendingFlushes(lines, start, limit, i0, f0, k, seqNo, buffer, i1, f1, connection.issued, connection.fuel);
          if !ok {
            return Crashed;
          }
          buffer := [];
          k := k + 1;
        }
      }
      SendingEnds(lines, start, limit, i0, f0, k, seqNo, buffer, connection.issued, connection.fuel);
      ghost var i1, f1 := connection.issued, connection.fuel;
      outcome := Conclude(start, sent, buffer, limit);
      SendingConcluded(lines, start, limit, i0, f0, k, seqNo, buffer, i1, f1, connection.issued, connection.fuel);
    }

    // The last partial chunk, and the closing checkpoint of a run that reached the end.
    method Conclude(start: nat, sent: nat, buffer: seq<Entry<P>>, limit: Option<int>) returns (outcome: Outcome)
      requires connection.Valid() && |buffer| <= sent && AllGood(lines, start + sent - |buffer|, start + sent)
      requires buffer == Entries(lines, start + sent - |buffer|, start + sent)
      modifies connection
      ensures connection.Valid()
      ensures var tail := Rest(lines, start + sent - |buffer|, start + sent) + Closing(lines, start + sent, limit);
        && Cut(old(connection.issued), tail, old(connection.fuel), connection.issued, connection.fuel)
        && outcome == if old(connection.fuel) < |tail| then Crashed
                      else Replayed(Summary(|lines|, sent, start, start + sent == |lines| && limit.None?))
    {
      hide Cut, Rest, Exec, Exec1, Entries;
      var nextIndex := start + sent;
      ghost var i0, f0 := connection.issued, connection.fuel;
      ghost var chunk := Rest(lines, nextIndex - |buffer|, nextIndex);
      ghost var close := Closing(lines, nextIndex, limit);
      var ok := Flush(nextIndex - |buffer|, buffer);
      if !ok {
        CutShort(i0, chunk, f0, connection.issued, connection.fuel, close);
        return Crashed;
      }
      ghost var i1, f1 := connection.issued, connection.fuel;
      CutFuel(i0, chunk, f0, i1, f1);
      if nextIndex >= |lines| && limit == None {
        ok := connection.Issue(SetCheckpoint(nextIndex));
        CutThen(i0, chunk, f0, i1, f1, close, connection.issued, connection.fuel);
        if !ok {
          return Crashed;
        }
      } else {
        assert chunk + close == chunk;
      }
      return Replayed(Summary(|lines|, sent, start, nextIndex >= |lines| && limit == None));
    }
  }
}
