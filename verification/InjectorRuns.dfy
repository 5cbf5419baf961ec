/**
 Every history of replays of one scenario: nothing is skipped, little is repeated, and a completed
 replay has sent every line.
 */
module InjectorRuns {
  import opened Common
  import opened Injector

  // One call of the injector, over a connection that survives `fuel` writes.
  datatype Replay = Replay(reset: bool, limit: Option<int>, fuel: nat)

  ghost function RunAll<P>(lines: seq<Line<P>>, replays: seq<Replay>): Redis<P> {
    if replays == [] then Redis([], None)
    else
      var a := Last(replays);
      RunRedis(lines, RunAll(lines, Front(replays)), a.reset, a.limit, a.fuel)
  }

  // One more than the largest line number sent.
  function Next<P>(stream: seq<Entry<P>>): nat {
    if stream == [] then 0
    else
      var n := Next(Front(stream));
      if Last(stream).seqNo < n then n else Last(stream).seqNo + 1
  }

  // ---- the shape of a script ---------------------------------------------------------------------

  function CountAdds<P>(cs: seq<Command<P>>): nat {
    if cs == [] then 0 else CountAdds(Front(cs)) + if Last(cs).Add? then 1 else 0
  }

  // Lines sent since the last checkpoint of the script.
  function Lag<P>(cs: seq<Command<P>>): nat {
    if cs == [] then 0
    else match Last(cs)
      case Add(_) => Lag(Front(cs)) + 1
      case _ => 0
  }

  predicate HasSet<P>(cs: seq<Command<P>>) {
    cs != [] && (Last(cs).SetCheckpoint? || HasSet(Front(cs)))
  }

  // Sends the lines from pos on in order, checkpointing at the true position at least every
  // XADD_BATCH lines.
  ghost predicate Follows<P>(lines: seq<Line<P>>, cs: seq<Command<P>>, pos: nat) {
    cs == [] ||
    (&& Follows(lines, Front(cs), pos)
     && var at := pos + CountAdds(Front(cs));
        match Last(cs)
        case Add(e) => at < |lines| && lines[at] == Good(e.payload) && e.seqNo == at && Lag(cs) <= XADD_BATCH
        case SetCheckpoint(n) => n == at
        case DeleteCheckpoint => false)
  }

  lemma {:induction false} FollowsPrefix<P>(lines: seq<Line<P>>, cs: seq<Command<P>>, pos: nat, k: nat)
    requires Follows(lines, cs, pos) && k <= |cs|
    ensures Follows(lines, cs[..k], pos)
  {
    if k < |cs| {
      FollowsPrefix(lines, Front(cs), pos, k);
      assert Front(cs)[..k] == cs[..k];
    } else {
      assert cs[..k] == cs;
    }
  }

  lemma {:induction false} AddsFollow<P>(lines: seq<Line<P>>, cs: seq<Command<P>>, pos: nat, from: nat, to: nat)
    requires Follows(lines, cs, pos) && from == pos + CountAdds(cs) && AllGood(lines, from, to)
    requires Lag(cs) == 0 && to <= from + XADD_BATCH
    ensures var all := cs + Adds(lines, from, to);
      && Follows(lines, all, pos) && CountAdds(all) == CountAdds(cs) + (to - from) && Lag(all) == to - from
  {
    hide Follows, Adds, Entries, CountAdds, Lag;
    if from == to {
      assert Adds(lines, from, to) == [] && cs + [] == cs by { NoAdds(lines, from); }
    } else {
      AddsFollow(lines, cs, pos, from, to - 1);
      var before, last := cs + Adds(lines, from, to - 1), Entry(lines[to - 1].payload, to - 1);
      NextAdd(lines, from, to);
      assert cs + Adds(lines, from, to) == before + [Add(last)];
      OneAddFollows(lines, before, pos, last);
    }
  }

  lemma NoAdds<P>(lines: seq<Line<P>>, from: nat)
    requires from <= |lines|
    ensures Adds(lines, from, from) == []
  {
  }

  lemma NextAdd<P>(lines: seq<Line<P>>, from: nat, to: nat)
    requires AllGood(lines, from, to) && from < to
    ensures Adds(lines, from, to) == Adds(lines, from, to - 1) + [Add(Entry(lines[to - 1].payload, to - 1))]
  {
    NextEntry(lines, from, to - 1);
    assert forall i :: 0 <= i < to - from ==> Adds(lines, from, to)[i] == Add(Entries(lines, from, to)[i]);
  }

  lemma OneAddFollows<P>(lines: seq<Line<P>>, cs: seq<Command<P>>, pos: nat, e: Entry<P>)
    requires Follows(lines, cs, pos) && e.seqNo == pos + CountAdds(cs) && Lag(cs) < XADD_BATCH
    requires e.seqNo < |lines| && lines[e.seqNo] == Good(e.payload)
    ensures var all := cs + [Add(e)];
      Follows(lines, all, pos) && CountAdds(all) == CountAdds(cs) + 1 && Lag(all) == Lag(cs) + 1
  {
    assert Front(cs + [Add(e)]) == cs;
  }

  lemma RestFollows<P>(lines: seq<Line<P>>, cs: seq<Command<P>>, pos: nat, from: nat, to: nat)
    requires Follows(lines, cs, pos) && from == pos + CountAdds(cs) && AllGood(lines, from, to)
    requires Lag(cs) == 0 && to <= from + XADD_BATCH
    ensures var all := cs + Rest(lines, from, to);
      Follows(lines, all, pos) && CountAdds(all) == CountAdds(cs) + (to - from) && Lag(all) == 0
  {
    var all := cs + Rest(lines, from, to);
    if from == to {
      assert all == cs;
    } else {
      AddsFollow(lines, cs, pos, from, to);
      assert Front(all) == cs + Adds(lines, from, to) && Last(all) == SetCheckpoint(to);
    }
  }

  lemma {:induction false} ChunksFollow<P>(lines: seq<Line<P>>, start: nat, k: nat)
    requires AllGood(lines, start, start + k * XADD_BATCH)
    ensures var cs := FullChunks(lines, start, k);
      Follows(lines, cs, start) && CountAdds(cs) == k * XADD_BATCH && Lag(cs) == 0
  {
    hide Follows, Rest;
    if k == 0 {
      assert Follows(lines, FullChunks(lines, start, 0), start) by { NoneFollow(lines, start); }
    } else {
      ChunksFollow(lines, start, k - 1);
      NextChunk(lines, start, k - 1, start + k * XADD_BATCH);
      RestFollows(lines, FullChunks(lines, start, k - 1), start, start + (k - 1) * XADD_BATCH, start + k * XADD_BATCH);
    }
  }

  lemma NoneFollow<P>(lines: seq<Line<P>>, start: nat)
    requires start <= |lines|
    ensures Follows(lines, FullChunks(lines, start, 0), start)
  {
  }

  // How many lines a whole run sends.
  function Sends<P>(lines: seq<Line<P>>, start: nat, limit: Option<int>): nat
    requires start <= |lines|
  {
    var end := End(lines, start, limit);
    var bad := FirstBad(lines, start, end);
    if bad < end then (bad - start) / XADD_BATCH * XADD_BATCH else end - start
  }

  lemma BodyFollows<P>(lines: seq<Line<P>>, start: nat, limit: Option<int>)
    requires start <= |lines|
    ensures var cs := Body(lines, start, limit);
      && Follows(lines, cs, start) && Lag(cs) == 0 && CountAdds(cs) == Sends(lines, start, limit)
  {
    hide Follows, FullChunks, Rest;
    var end := End(lines, start, limit);
    var bad := FirstBad(lines, start, end);
    var k := (bad - start) / XADD_BATCH;
    var mid := start + k * XADD_BATCH;
    var chunks := FullChunks(lines, start, k);
    ChunksFollow(lines, start, k);
    if bad < end {
      assert Body(lines, start, limit) == chunks + [];
      assert chunks + [] == chunks;
    } else {
      RestFollows(lines, chunks, start, mid, end);
      var sent := chunks + Rest(lines, mid, end);
      var close := Closing(lines, end, limit);
      assert Body(lines, start, limit) == sent + close;
      CloseFollows(lines, sent, start, end, limit);
    }
  }

  lemma CloseFollows<P>(lines: seq<Line<P>>, cs: seq<Command<P>>, pos: nat, end: nat, limit: Option<int>)
    requires Follows(lines, cs, pos) && end == pos + CountAdds(cs) && Lag(cs) == 0
    ensures var all := cs + Closing(lines, end, limit);
      Follows(lines, all, pos) && CountAdds(all) == CountAdds(cs) && Lag(all) == 0
  {
    if Closing(lines, end, limit) == [] {
      assert cs + Closing(lines, end, limit) == cs;
    } else {
      assert Front(cs + Closing(lines, end, limit)) == cs;
    }
  }

  // ---- what a prefix of a script does --------------------------------------------------------------

  ghost function Sent<P>(lines: seq<Line<P>>, start: nat, n: nat): seq<Entry<P>>
    requires AllGood(lines, start, start + n)
  {
    Entries(lines, start, start + n)
  }

  lemma NextSent<P>(lines: seq<Line<P>>, start: nat, n: nat)
    requires AllGood(lines, start, start + n) && start + n < |lines| && lines[start + n].Good?
    ensures AllGood(lines, start, start + (n + 1))
    ensures Sent(lines, start, n + 1) == Sent(lines, start, n) + [Entry(lines[start + n].payload, start + n)]
  {
    NextEntry(lines, start, start + n);
  }

  // The lines are appended in order, and the checkpoint stands at the last confirmed position.
  lemma {:induction false} ExecShape<P>(lines: seq<Line<P>>, r: Redis<P>, cs: seq<Command<P>>, start: nat)
    requires start <= |lines| && Follows(lines, cs, start)
    ensures AllGood(lines, start, start + CountAdds(cs)) && Lag(cs) <= XADD_BATCH && Lag(cs) <= CountAdds(cs)
    ensures Exec(r, cs).stream == r.stream + Sent(lines, start, CountAdds(cs))
    ensures Exec(r, cs).checkpoint
         == if HasSet(cs) then Some(start + CountAdds(cs) - Lag(cs)) else r.checkpoint
    ensures !HasSet(cs) ==> Lag(cs) == CountAdds(cs)
  {
    if cs == [] {
      assert Sent(lines, start, 0) == [];
    } else {
      var f := Front(cs);
      ExecShape(lines, r, f, start);
      if Last(cs).Add? {
        NextSent(lines, start, CountAdds(f));
      }
    }
  }

  lemma {:induction false} ExecThen<P>(r: Redis<P>, a: seq<Command<P>>, b: seq<Command<P>>)
    ensures Exec(r, a + b) == Exec(Exec(r, a), b)
  {
    if b == [] {
      assert a + b == a;
    } else {
      ExecThen(r, a, Front(b));
      assert Front(a + b) == a + Front(b) && Last(a + b) == Last(b);
    }
  }

  // The effect of one replay, crashed or not: from where it starts, how many lines it appends, and
  // where it leaves the checkpoint.
  datatype Effect = Effect(start: nat, sent: nat, lag: nat, checkpoint: Option<nat>)

  ghost predicate HasEffect<P>(lines: seq<Line<P>>, before: Redis<P>, after: Redis<P>, e: Effect) {
    && AllGood(lines, e.start, e.start + e.sent) && e.lag <= XADD_BATCH && e.lag <= e.sent
    && after.stream == before.stream + Sent(lines, e.start, e.sent)
    && after.checkpoint == e.checkpoint
  }

  lemma ReplayEffect<P>(lines: seq<Line<P>>, r: Redis<P>, a: Replay) returns (e: Effect)
    requires lines != []
    ensures HasEffect(lines, r, RunRedis(lines, r, a.reset, a.limit, a.fuel), e)
    ensures e.checkpoint == Some(e.start + e.sent - e.lag) || (e.sent == e.lag && e.checkpoint == r.checkpoint)
            || (a.reset && e.sent == e.lag && e.checkpoint == None)
    ensures e.start == Start(lines, r.checkpoint, a.reset)
    ensures a.fuel >= |Script(lines, r.checkpoint, a.reset, a.limit)| ==>
              && e.lag == 0 && e.sent == Sends(lines, e.start, a.limit)
              && e.checkpoint == if HasSet(Body(lines, e.start, a.limit)) then Some(e.start + e.sent)
                                 else if a.reset then None else r.checkpoint
  {
    hide Follows, Body, Exec, HasEffect, CountAdds, Lag, HasSet;
    var start := Start(lines, r.checkpoint, a.reset);
    var body := Body(lines, start, a.limit);
    BodyFollows(lines, start, a.limit);
    if !a.reset {
      PlainScript(lines, r.checkpoint, a.limit);
      e := PrefixEffect(lines, r, body, start, Min(a.fuel, |body|));
    } else if a.fuel == 0 {
      e := Effect(0, 0, 0, r.checkpoint);
      NothingSent(lines, r, e);
    } else {
      var n := Min(a.fuel - 1, |body|);
      ResetScript(lines, r.checkpoint, a.limit, n);
      ExecThen(r, [DeleteCheckpoint], body[..n]);
      DeleteFirst(r);
      var reset := r.(checkpoint := None);
      e := PrefixEffect(lines, reset, body, start, n);
      EffectOnStream(lines, r, reset, Exec(reset, body[..n]), e);
    }
  }

  lemma EffectOnStream<P>(lines: seq<Line<P>>, a: Redis<P>, b: Redis<P>, after: Redis<P>, e: Effect)
    requires HasEffect(lines, b, after, e) && a.stream == b.stream
    ensures HasEffect(lines, a, after, e)
  {
  }

  lemma PlainScript<P>(lines: seq<Line<P>>, checkpoint: Option<nat>, limit: Option<int>)
    requires lines != []
    ensures Script(lines, checkpoint, false, limit) == Body(lines, Start(lines, checkpoint, false), limit)
  {
    hide Body;
  }

  // A reset run first deletes the checkpoint.
  lemma ResetScript<P>(lines: seq<Line<P>>, checkpoint: Option<nat>, limit: Option<int>, n: nat)
    requires lines != [] && n <= |Body(lines, Start(lines, checkpoint, true), limit)|
    ensures var script := Script(lines, checkpoint, true, limit);
      var body := Body(lines, Start(lines, checkpoint, true), limit);
      |script| == |body| + 1 && script[..n + 1] == [DeleteCheckpoint] + body[..n]
  {
    hide Body, Start;
  }

  lemma DeleteFirst<P>(r: Redis<P>)
    ensures Exec(r, [DeleteCheckpoint]) == r.(checkpoint := None)
  {
    var one: seq<Command<P>> := [DeleteCheckpoint];
    assert Front(one) == [];
  }

  lemma NothingSent<P>(lines: seq<Line<P>>, r: Redis<P>, e: Effect)
    requires e == Effect(0, 0, 0, r.checkpoint)
    ensures Exec(r, []) == r && HasEffect(lines, r, r, e)
  {
    assert Sent(lines, 0, 0) == [];
  }

  lemma PrefixEffect<P>(lines: seq<Line<P>>, r: Redis<P>, body: seq<Command<P>>, start: nat, n: nat) returns (e: Effect)
    requires start <= |lines| && Follows(lines, body, start) && Lag(body) == 0 && n <= |body|
    ensures HasEffect(lines, r, Exec(r, body[..n]), e) && e.start == start
    ensures e.checkpoint == Some(e.start + e.sent - e.lag) || (e.sent == e.lag && e.checkpoint == r.checkpoint)
    ensures n == |body| ==>
      && e.lag == 0 && e.sent == CountAdds(body)
      && e.checkpoint == if HasSet(body) then Some(start + e.sent) else r.checkpoint
  {
    hide Follows, Exec;
    var cs := body[..n];
    FollowsPrefix(lines, body, start, n);
    ExecShape(lines, r, cs, start);
    e := Effect(start, CountAdds(cs), Lag(cs), Exec(r, cs).checkpoint);
    if n == |body| {
      assert cs == body;
    }
  }

  // ---- every history ------------------------------------------------------------------------------

  // No entry jumps ahead: each line number is at most one more than the largest before it.
  ghost predicate NoSkips<P>(stream: seq<Entry<P>>) {
    forall i :: 0 <= i < |stream| ==> stream[i].seqNo <= Next(stream[..i])
  }

  ghost predicate FromScenario<P>(lines: seq<Line<P>>, stream: seq<Entry<P>>) {
    forall i :: 0 <= i < |stream| ==> stream[i].seqNo < |lines| && lines[stream[i].seqNo] == Good(stream[i].payload)
  }

  ghost predicate Sound<P>(lines: seq<Line<P>>, r: Redis<P>) {
    NoSkips(r.stream) && FromScenario(lines, r.stream) && r.checkpoint.GetOr(0) <= Next(r.stream)
    && Next(r.stream) <= |lines|
  }

  lemma {:induction false} SentNext<P>(lines: seq<Line<P>>, s: seq<Entry<P>>, start: nat, n: nat)
    requires AllGood(lines, start, start + n) && NoSkips(s) && FromScenario(lines, s) && start <= Next(s)
    ensures var t := s + Sent(lines, start, n);
      && NoSkips(t) && FromScenario(lines, t)
      && Next(t) == if n == 0 || start + n < Next(s) then Next(s) else start + n
  {
    hide NoSkips, FromScenario, Next;
    var t := s + Sent(lines, start, n);
    if n == 0 {
      assert t == s;
    } else {
      hide Sent;
      NextSent(lines, start, n - 1);
      SentNext(lines, s, start, n - 1);
      var f := s + Sent(lines, start, n - 1);
      var last := Entry(lines[start + n - 1].payload, start + n - 1);
      assert t == f + [last];
      OneMore(lines, f, last);
    }
  }

  lemma OneMore<P>(lines: seq<Line<P>>, f: seq<Entry<P>>, last: Entry<P>)
    requires NoSkips(f) && FromScenario(lines, f) && last.seqNo <= Next(f)
    requires last.seqNo < |lines| && lines[last.seqNo] == Good(last.payload)
    ensures NoSkips(f + [last]) && FromScenario(lines, f + [last])
    ensures Next(f + [last]) == if last.seqNo < Next(f) then Next(f) else last.seqNo + 1
  {
    var t := f + [last];
    assert Front(t) == f;
    forall i | 0 <= i < |t|
      ensures t[i].seqNo <= Next(t[..i])
    {
      if i < |f| {
        assert t[..i] == f[..i] && t[i] == f[i];
      } else {
        assert t[..i] == f;
      }
    }
  }

  lemma {:induction false} EveryReplayIsSound<P>(lines: seq<Line<P>>, replays: seq<Replay>)
    requires lines != []
    ensures Sound(lines, RunAll(lines, replays))
  {
    hide RunRedis, Start, Sends;
    if replays != [] {
      EveryReplayIsSound(lines, Front(replays));
      var r, a := RunAll(lines, Front(replays)), Last(replays);
      var e := ReplayEffect(lines, r, a);
      assert e.start <= Next(r.stream) by { StartBehind(lines, r, a, e); }
      SentNext(lines, r.stream, e.start, e.sent);
    }
  }

  lemma StartBehind<P>(lines: seq<Line<P>>, r: Redis<P>, a: Replay, e: Effect)
    requires r.checkpoint.GetOr(0) <= Next(r.stream)
    requires e.start == Start(lines, r.checkpoint, a.reset)
    ensures e.start <= Next(r.stream)
  {
  }

  // Every line before the largest sent one has been sent.
  lemma {:induction false} Covered<P>(stream: seq<Entry<P>>, s: nat)
    requires NoSkips(stream) && s < Next(stream)
    ensures exists i :: 0 <= i < |stream| && stream[i].seqNo == s
  {
    var f := Front(stream);
    assert stream[..|stream| - 1] == f;
    if s < Next(f) {
      assert forall i :: 0 <= i < |f| ==> stream[..i] == f[..i];
      Covered(f, s);
      var i :| 0 <= i < |f| && f[i].seqNo == s;
      assert stream[i].seqNo == s;
    } else {
      assert Last(stream).seqNo == s;
    }
  }

  // Whatever the resets, limits, bad lines and crashes: no entry jumps ahead, every entry is a line
  // of the scenario, and every line below the checkpoint has been sent.
  lemma NothingIsSkipped<P>(lines: seq<Line<P>>, replays: seq<Replay>, s: nat)
    requires lines != []
    ensures var r := RunAll(lines, replays);
      && NoSkips(r.stream) && FromScenario(lines, r.stream)
      && (s < r.checkpoint.GetOr(0) ==> exists i :: 0 <= i < |r.stream| && r.stream[i].seqNo == s)
  {
    hide RunAll;
    EveryReplayIsSound(lines, replays);
    var r := RunAll(lines, replays);
    if s < r.checkpoint.GetOr(0) {
      Covered(r.stream, s);
    }
  }

  ghost function Crashes<P>(lines: seq<Line<P>>, replays: seq<Replay>): nat {
    if replays == [] then 0
    else Crashes(lines, Front(replays)) + if CutShortLast(lines, replays) then 1 else 0
  }

  // The last replay of the history crashed.
  ghost predicate CutShortLast<P>(lines: seq<Line<P>>, replays: seq<Replay>)
    requires replays != []
  {
    var r, a := RunAll(lines, Front(replays)), Last(replays);
    a.fuel < |Script(lines, r.checkpoint, a.reset, a.limit)|
  }

  // Without resets the stream holds at most the checkpointed lines and one chunk for each crash.
  lemma {:induction false} FewRepeats<P>(lines: seq<Line<P>>, replays: seq<Replay>)
    requires lines != [] && forall i :: 0 <= i < |replays| ==> !replays[i].reset
    ensures var r := RunAll(lines, replays);
      |r.stream| <= r.checkpoint.GetOr(0) + XADD_BATCH * Crashes(lines, replays) && r.checkpoint.GetOr(0) <= |lines|
  {
    hide RunRedis, Script;
    if replays != [] {
      assert !replays[|replays| - 1].reset;
      FewRepeats(lines, Front(replays));
      var r, a := RunAll(lines, Front(replays)), Last(replays);
      var e := ReplayEffect(lines, r, a);
    }
  }

  // ---- a replay that no crash cuts short ------------------------------------------------------------

  // Blank lines are dropped and the others kept in order.
  lemma {:induction false} BlankLinesAreDropped<P>(a: seq<RawLine<P>>, b: seq<RawLine<P>>, l: Line<P>)
    ensures LoadLines(a + b) == LoadLines(a) + LoadLines(b)
    ensures LoadLines<P>([]) == [] && LoadLines<P>([Blank]) == [] && LoadLines([Text(l)]) == [l]
  {
    assert Front<RawLine<P>>([Blank]) == [] && Front([Text(l)]) == [];
    if b == [] {
      assert a + b == a;
    } else {
      BlankLinesAreDropped(a, Front(b), l);
      assert Front(a + b) == a + Front(b) && Last(a + b) == Last(b);
    }
  }

  // A replay whose connection lasts, from its first line to its last: what it sends is everything
  // up to the end, or the whole chunks of 500 in front of a bad line; it checkpoints exactly that.
  ghost predicate SendsItsShare<P>(lines: seq<Line<P>>, before: Redis<P>, after: Redis<P>, a: Replay, start: nat,
                                   end: nat, stop: nat)
    requires StopsAt(lines, start, end, stop)
  {
    var sent := if stop < end then (stop - start) / 500 * 500 else end - start;
    && after.stream == before.stream + seq(sent, i requires 0 <= i < sent => Entry(lines[start + i].payload, start + i))
    && after.checkpoint == if sent > 0 || (stop == end && a.limit.None?) then Some(start + sent)
                           else if a.reset then None else before.checkpoint
  }

  // A script without a checkpoint is empty but for the reset.
  lemma BodyCheckpoints<P>(lines: seq<Line<P>>, start: nat, limit: Option<int>)
    requires start <= |lines|
    ensures var end := End(lines, start, limit);
      HasSet(Body(lines, start, limit))
      <==> Sends(lines, start, limit) > 0 || (FirstBad(lines, start, end) == end && limit.None? && end == |lines|)
  {
    hide FirstBad, Adds, End;
    var end := End(lines, start, limit);
    var bad := FirstBad(lines, start, end);
    var k := (bad - start) / XADD_BATCH;
    ChunksReach(start, 0, bad);
    var chunks, body := FullChunks(lines, start, k), Body(lines, start, limit);
    var tail := if bad < end then [] else Rest(lines, start + k * XADD_BATCH, end) + Closing(lines, end, limit);
    assert body == chunks + tail;
    assert chunks != [] ==> Last(chunks).SetCheckpoint?;
    assert tail != [] ==> Last(tail).SetCheckpoint?;
    assert body != [] ==> Last(body) == if tail != [] then Last(tail) else Last(chunks);
  }

  // That replay appends exactly its share to the stream, and leaves the checkpoint behind it.
  lemma WholeReplay<P>(lines: seq<Line<P>>, replays: seq<Replay>, start: nat, end: nat, stop: nat)
    requires lines != [] && replays != []
    requires Last(replays).fuel >= 2 * |lines| + 2 || !CutShortLast(lines, replays)
    requires var r, a := RunAll(lines, Front(replays)), Last(replays);
      StartsAt(lines, r.checkpoint, a.reset, start) && EndsAt(lines, start, a.limit, end)
    requires StopsAt(lines, start, end, stop)
    ensures SendsItsShare(lines, RunAll(lines, Front(replays)), RunAll(lines, replays), Last(replays), start, end, stop)
  {
    hide RunRedis, Script, SendsItsShare;
    var r, a := RunAll(lines, Front(replays)), Last(replays);
    ScriptIsShort(lines, r.checkpoint, a.reset, a.limit);
    StartAndEnd(lines, r.checkpoint, a.reset, a.limit, start, end, stop);
    var e := ReplayEffect(lines, r, a);
    BodyCheckpoints(lines, start, a.limit);
    ShareIs(lines, r, RunRedis(lines, r, a.reset, a.limit, a.fuel), a, e, end, stop);
  }

  lemma ShareIs<P>(lines: seq<Line<P>>, before: Redis<P>, after: Redis<P>, a: Replay, e: Effect, end: nat, stop: nat)
    requires StopsAt(lines, e.start, end, stop) && HasEffect(lines, before, after, e)
    requires e.sent == if stop < end then (stop - e.start) / XADD_BATCH * XADD_BATCH else end - e.start
    requires e.checkpoint == if e.sent > 0 || (stop == end && a.limit.None?) then Some(e.start + e.sent)
                             else if a.reset then None else before.checkpoint
    ensures SendsItsShare(lines, before, after, a, e.start, end, stop)
  {
  }

  // The module's promise that a broken scenario never partially executes holds exactly when the bad
  // line lies in the first chunk after the start: otherwise whole chunks have already been sent.
  lemma BrokenScenarioSendsNothingIff<P>(lines: seq<Line<P>>, replays: seq<Replay>, start: nat, end: nat, bad: nat)
    requires lines != [] && replays != []
    requires Last(replays).fuel >= 2 * |lines| + 2 || !CutShortLast(lines, replays)
    requires var r, a := RunAll(lines, Front(replays)), Last(replays);
      StartsAt(lines, r.checkpoint, a.reset, start) && EndsAt(lines, start, a.limit, end)
    requires StopsAt(lines, start, end, bad) && bad < end
    ensures RunAll(lines, replays).stream == RunAll(lines, Front(replays)).stream <==> bad < start + 500
  {
    hide RunAll, SendsItsShare, StopsAt;
    WholeReplay(lines, replays, start, end, bad);
    BrokenShare(lines, RunAll(lines, Front(replays)), RunAll(lines, replays), Last(replays), start, end, bad);
  }

  lemma BrokenShare<P>(lines: seq<Line<P>>, before: Redis<P>, after: Redis<P>, a: Replay, start: nat, end: nat,
                       bad: nat)
    requires StopsAt(lines, start, end, bad) && bad < end && SendsItsShare(lines, before, after, a, start, end, bad)
    ensures after.stream == before.stream <==> bad < start + 500
  {
    var sent := (bad - start) / 500 * 500;
    assert |after.stream| == |before.stream| + sent;
    if sent == 0 {
      assert after.stream == before.stream + [];
    }
  }

  // A scenario of 501 lines whose last one is bad: the chunk before it is sent although the run fails.
  lemma BrokenScenarioPartlySent<P>(lines: seq<Line<P>>, fuel: nat)
    requires |lines| == 501 && (forall i :: 0 <= i < 500 ==> lines[i].Good?) && lines[500].Bad? && fuel >= 1004
    ensures |RunAll(lines, [Replay(false, None, fuel)]).stream| == 500
  {
    hide RunRedis;
    var a := Replay(false, None, fuel);
    assert Front([a]) == [] && Last([a]) == a;
    assert RunAll(lines, []) == Redis([], None);
    WholeReplay(lines, [a], 0, 501, 500);
  }

  // A replay is complete when it read the whole scenario, unlimited, without a crash or a bad line.
  ghost predicate CompletesLast<P>(lines: seq<Line<P>>, replays: seq<Replay>)
    requires replays != []
  {
    && !CutShortLast(lines, replays) && Last(replays).limit == None
    && forall start: nat :: StartsAt(lines, RunAll(lines, Front(replays)).checkpoint, Last(replays).reset, start)
                         ==> AllGood(lines, start, |lines|)
  }

  // Once some replay has completed, every line of the scenario has been sent, whatever came before
  // and after.
  lemma {:induction false} CompletedSendsAll<P>(lines: seq<Line<P>>, replays: seq<Replay>, k: nat)
    requires lines != [] && 0 < k <= |replays| && CompletesLast(lines, replays[..k])
    ensures Next(RunAll(lines, replays).stream) == |lines|
  {
    hide RunRedis, Script, FirstBad, Follows;
    var f := Front(replays);
    EveryReplayIsSound(lines, f);
    EveryReplayIsSound(lines, replays);
    var r, a := RunAll(lines, f), Last(replays);
    var e := ReplayEffect(lines, r, a);
    SentNext(lines, r.stream, e.start, e.sent);
    if k < |replays| {
      assert f[..k] == replays[..k];
      CompletedSendsAll(lines, f, k);
    } else {
      assert replays[..k] == replays;
      CompleteSends(lines, r, a);
    }
  }

  lemma CompleteSends<P>(lines: seq<Line<P>>, r: Redis<P>, a: Replay)
    requires a.limit == None && AllGood(lines, Start(lines, r.checkpoint, a.reset), |lines|)
    ensures var start := Start(lines, r.checkpoint, a.reset); start + Sends(lines, start, a.limit) == |lines|
  {
    FirstBadIs(lines, Start(lines, r.checkpoint, a.reset), |lines|, |lines|);
  }
}
