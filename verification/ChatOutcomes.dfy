/**
 What a chat does, said from the counters and the replies alone: which providers it calls, in which
 order and how often, and how it ends.
 */
module ChatOutcomes {
  import opened Common
  import opened LlmGateway

  // ---- the play of calls and replies ---------------------------------------------------------------

  // The reply to the i-th exchange; a silent provider times out.
  function ReplyAt(replies: seq<Reply>, i: nat): Reply {
    if i < |replies| then replies[i] else Timeout
  }

  function After(replies: seq<Reply>, n: nat): seq<Reply> {
    if n <= |replies| then replies[n..] else []
  }

  predicate Retryable(r: Reply) {
    r == RetryStatus || r == Timeout
  }

  predicate Good(cfg: Config, r: Reply) {
    r.Content? && cfg.isObject(r.raw)
  }

  // A failure that sends the chat to the next provider.
  predicate Handled(cfg: Config, r: Reply, tries: nat) {
    r == FatalStatus || (r.Content? && !cfg.isObject(r.raw)) || (Retryable(r) && tries == 3)
  }

  // The call of a provider, by its position in the list, and how often it has been tried by then.
  datatype Turn = Turn(at: nat, tries: nat)

  // After this reply the chat goes on to that turn.
  predicate Goes(cfg: Config, n: nat, t: Turn, r: Reply, u: Turn) {
    || (Retryable(r) && t.tries < 3 && u == Turn(t.at, t.tries + 1))
    || (Handled(cfg, r, t.tries) && t.at + 1 < n && u == Turn(t.at + 1, 1))
  }

  // After this reply the chat ends like that.
  predicate Ends(cfg: Config, room: seq<Provider>, t: Turn, r: Reply, o: Outcome) {
    && t.at < |room|
    && (|| (Good(cfg, r) && o == Answered(Answer(r.raw, room[t.at].name, room[t.at].model, false)))
        || (r == Unhandled && o == Raised)
        || (Handled(cfg, r, t.tries) && t.at + 1 == |room| && o == AllFailed))
  }

  // Turn i is a call of its provider, which the reply answered.
  predicate Called(cfg: Config, room: seq<Provider>, day: nat, replies: seq<Reply>, t: Turn, call: Call, i: nat) {
    t.at < |room| && call == Call(room[t.at].name, day, Good(cfg, ReplyAt(replies, i)))
  }

  // The calls of a chat from its first turn on: a retryable reply is followed by another call of the
  // same provider, up to three; a handled failure by the next provider; good content is the answer;
  // and nothing else ends the chat.
  ghost predicate PlayedFrom(cfg: Config, room: seq<Provider>, day: nat, replies: seq<Reply>, first: Turn,
                             turns: seq<Turn>, calls: seq<Call>, o: Outcome)
  {
    && |turns| == |calls| > 0 && turns[0] == first
    && (forall i :: 0 <= i < |turns| ==> Called(cfg, room, day, replies, turns[i], calls[i], i))
    && (forall i :: 0 < i < |turns| ==> Goes(cfg, |room|, turns[i - 1], ReplyAt(replies, i - 1), turns[i]))
    && Ends(cfg, room, Last(turns), ReplyAt(replies, |turns| - 1), o)
  }

  // A whole chat over the providers that have room: the first of them is called first.
  ghost predicate Played(cfg: Config, room: seq<Provider>, day: nat, replies: seq<Reply>, turns: seq<Turn>,
                         calls: seq<Call>, o: Outcome)
  {
    PlayedFrom(cfg, room, day, replies, Turn(0, 1), turns, calls, o)
  }

  // ---- building the play ---------------------------------------------------------------------------

  lemma OneTurn(cfg: Config, room: seq<Provider>, day: nat, replies: seq<Reply>, t: Turn, o: Outcome)
    requires t.at < |room| && Ends(cfg, room, t, ReplyAt(replies, 0), o)
    ensures PlayedFrom(cfg, room, day, replies, t, [t], [Call(room[t.at].name, day, Good(cfg, ReplyAt(replies, 0)))], o)
  {
    hide Ends, Good;
  }

  lemma TurnBefore(cfg: Config, room: seq<Provider>, day: nat, replies: seq<Reply>, t: Turn, u: Turn,
                   turns: seq<Turn>, calls: seq<Call>, o: Outcome)
    requires t.at < |room| && Goes(cfg, |room|, t, ReplyAt(replies, 0), u)
    requires PlayedFrom(cfg, room, day, After(replies, 1), u, turns, calls, o)
    ensures PlayedFrom(cfg, room, day, replies, t, [t] + turns,
                       [Call(room[t.at].name, day, Good(cfg, ReplyAt(replies, 0)))] + calls, o)
  {
    hide Ends, Goes, Called;
    var call := Call(room[t.at].name, day, Good(cfg, ReplyAt(replies, 0)));
    var ts, cs := [t] + turns, [call] + calls;
    assert Called(cfg, room, day, replies, t, call, 0) by { CalledNow(cfg, room, day, replies, t); }
    forall i | 0 < i < |ts|
      ensures Called(cfg, room, day, replies, ts[i], cs[i], i)
      ensures Goes(cfg, |room|, ts[i - 1], ReplyAt(replies, i - 1), ts[i])
    {
      CalledLater(cfg, room, day, replies, turns[i - 1], calls[i - 1], i - 1);
      assert ts[i] == turns[i - 1] && cs[i] == calls[i - 1];
      if i > 1 {
        assert Goes(cfg, |room|, turns[i - 2], ReplyAt(After(replies, 1), i - 2), turns[i - 1]);
        LaterReply(replies, i - 2);
      }
    }
    LaterReply(replies, |turns| - 1);
    assert Last(ts) == Last(turns);
  }

  lemma LaterReply(replies: seq<Reply>, i: nat)
    ensures ReplyAt(After(replies, 1), i) == ReplyAt(replies, i + 1)
  {
  }

  lemma CalledNow(cfg: Config, room: seq<Provider>, day: nat, replies: seq<Reply>, t: Turn)
    requires t.at < |room|
    ensures Called(cfg, room, day, replies, t, Call(room[t.at].name, day, Good(cfg, ReplyAt(replies, 0))), 0)
  {
  }

  lemma CalledLater(cfg: Config, room: seq<Provider>, day: nat, replies: seq<Reply>, t: Turn, call: Call, i: nat)
    requires Called(cfg, room, day, After(replies, 1), t, call, i)
    ensures Called(cfg, room, day, replies, t, call, i + 1)
  {
    LaterReply(replies, i);
  }

  // ---- the chain plays ---------------------------------------------------------------------------

  // Redis is up and stays up, or is out of use.
  ghost predicate Settled(s: Net) {
    Steady(s) || !s.up
  }

  // With Redis in use a provider has room while its counter of the day is below the budget.
  predicate HasRoom(cfg: Config, s: Net, p: Provider, day: nat) {
    s.up ==> (if BudgetKey(p.name, day) in s.spent then s.spent[BudgetKey(p.name, day)] else 0) < cfg.budget
  }

  function WithRoom(cfg: Config, s: Net, ps: seq<Provider>, day: nat): seq<Provider> {
    if ps == [] then []
    else (if HasRoom(cfg, s, ps[0], day) then [ps[0]] else []) + WithRoom(cfg, s, ps[1..], day)
  }

  // Nothing that decides on room has changed.
  ghost predicate SameRoom(s: Net, t: Net) {
    t.up == s.up && t.spent == s.spent && Settled(t)
  }

  lemma TouchSettled(s: Net)
    requires Settled(s)
    ensures SameRoom(s, Touch(s)) && Touch(s) == s.(redisFine := Touch(s).redisFine)
  {
  }

  lemma {:induction false} RoomStays(cfg: Config, s: Net, t: Net, ps: seq<Provider>, day: nat)
    requires t.up == s.up && t.spent == s.spent
    ensures WithRoom(cfg, t, ps, day) == WithRoom(cfg, s, ps, day)
  {
    if ps != [] {
      RoomStays(cfg, s, t, ps[1..], day);
    }
  }

  lemma AllowedIff(cfg: Config, s: Net, p: Provider, day: nat)
    requires Settled(s)
    ensures var b := BudgetAllows(cfg, s, p, day);
      && (b.allowed <==> HasRoom(cfg, s, p, day)) && SameRoom(s, b.net)
      && b.net == s.(redisFine := b.net.redisFine)
  {
    TouchSettled(s);
  }

  // What one exchange leaves behind.
  lemma OneExchange(cfg: Config, s: Net, p: Provider, day: nat, k: CacheKey)
    requires Settled(s)
    ensures var t, r := CallOnce(cfg, s, p, day, k), ReplyAt(s.replies, 0);
      && SameRoom(s, t.net) && t.net.replies == After(s.replies, 1)
      && t.net.calls == s.calls + [Call(p.name, day, Good(cfg, r))]
      && (Good(cfg, r) <==> t.attempt.Succeeded?) && (t.attempt.Succeeded? ==> t.attempt.raw == r.raw)
      && (t.attempt == Retry <==> Retryable(r)) && (t.attempt == Escaped <==> r == Unhandled)
      && (t.attempt == Failed <==> r == FatalStatus || (r.Content? && !cfg.isObject(r.raw)))
      && t.net.cache == if Good(cfg, r) && s.up then s.cache[k := Cached(r.raw, p.name, p.model)] else s.cache
  {
  }

  // What is still to do for the first provider of the list at its given try, and for those after it.
  function FromTry(cfg: Config, s: Net, ps: seq<Provider>, day: nat, k: CacheKey, left: nat): Chat
    requires ps != []
  {
    var t := CallWithRetries(cfg, s, ps[0], day, k, left);
    match t.attempt
    case Succeeded(raw) => Chat(RecordSpend(t.net, ps[0], day), Answered(Answer(raw, ps[0].name, ps[0].model, false)))
    case Escaped => Chat(t.net, Raised)
    case _ => Chain(cfg, t.net, ps[1..], day, k, false)
  }

  // How the shared store ends up: an answer is counted and cached.
  ghost predicate StoreAfter(s: Net, c: Chat, day: nat, k: CacheKey, n: nat) {
    && c.net.up == s.up && c.net.replies == After(s.replies, n)
    && if c.outcome.Answered? && s.up then
         var a := c.outcome.answer; var b := BudgetKey(a.provider, day);
         && c.net.spent == s.spent[b := (if b in s.spent then s.spent[b] else 0) + 1]
         && c.net.cache == s.cache[k := Cached(a.raw, a.provider, a.model)]
       else c.net.spent == s.spent && c.net.cache == s.cache
  }

  // The chat went on from s to c over the providers with room, the first `at` of which are done.
  ghost predicate PlaysOn(cfg: Config, s: Net, room: seq<Provider>, day: nat, k: CacheKey, first: Turn, c: Chat,
                          turns: seq<Turn>)
  {
    && s.calls <= c.net.calls
    && PlayedFrom(cfg, room, day, s.replies, first, turns, c.net.calls[|s.calls|..], c.outcome)
    && StoreAfter(s, c, day, k, |turns|)
  }

  // The chain over providers none of which has room, or that come after the last with room.
  lemma {:induction false} NoRoomLeft(cfg: Config, s: Net, ps: seq<Provider>, day: nat, k: CacheKey, onlyBudget: bool)
    requires Settled(s) && WithRoom(cfg, s, ps, day) == []
    ensures var c := Chain(cfg, s, ps, day, k, onlyBudget);
      && c.outcome == (if onlyBudget then BudgetExhausted else AllFailed)
      && c.net == s.(redisFine := c.net.redisFine) && SameRoom(s, c.net)
    decreases |ps|
  {
    if ps != [] {
      AllowedIff(cfg, s, ps[0], day);
      var b := BudgetAllows(cfg, s, ps[0], day);
      RoomStays(cfg, s, b.net, ps[1..], day);
      NoRoomLeft(cfg, b.net, ps[1..], day, k, onlyBudget);
    }
  }

  // Providers without room in front change nothing.
  lemma {:induction false} SkipsFull(cfg: Config, s: Net, ps: seq<Provider>, day: nat, k: CacheKey, onlyBudget: bool)
    returns (t: Net, rest: seq<Provider>)
    requires Settled(s) && WithRoom(cfg, s, ps, day) != []
    ensures SameRoom(s, t) && t == s.(redisFine := t.redisFine) && rest != []
    ensures WithRoom(cfg, t, rest[1..], day) == WithRoom(cfg, s, ps, day)[1..]
            && rest[0] == WithRoom(cfg, s, ps, day)[0]
    ensures Chain(cfg, s, ps, day, k, onlyBudget) == FromTry(cfg, t, rest, day, k, 3)
    ensures |rest| <= |ps|
    decreases |ps|
  {
    AllowedIff(cfg, s, ps[0], day);
    var b := BudgetAllows(cfg, s, ps[0], day);
    RoomStays(cfg, s, b.net, ps[1..], day);
    if b.allowed {
      t, rest := b.net, ps;
      assert WithRoom(cfg, s, ps, day)[1..] == WithRoom(cfg, s, ps[1..], day);
    } else {
      t, rest := SkipsFull(cfg, b.net, ps[1..], day, k, onlyBudget);
    }
  }

  // The play of the chat from one try of one provider on.
  lemma {:induction false} TryPlays(cfg: Config, s: Net, ps: seq<Provider>, room: seq<Provider>, at: nat, day: nat,
                                    k: CacheKey, left: nat) returns (turns: seq<Turn>)
    requires Settled(s) && ps != [] && 1 <= left <= 3
    requires at < |room| && room[at] == ps[0] && room[at + 1..] == WithRoom(cfg, s, ps[1..], day)
    ensures PlaysOn(cfg, s, room, day, k, Turn(at, 4 - left), FromTry(cfg, s, ps, day, k, left), turns)
    decreases |ps|, left
  {
    hide PlayedFrom, PlaysOn, StoreAfter, FromTry, CallOnce, Chain, Goes, Ends, Good, Retryable, Handled;
    var p, r, t := ps[0], ReplyAt(s.replies, 0), CallOnce(cfg, s, ps[0], day, k);
    var now, c := Turn(at, 4 - left), FromTry(cfg, s, ps, day, k, left);
    OneExchange(cfg, s, p, day, k);
    if t.attempt == Retry && left > 1 {
      RoomStays(cfg, s, t.net, ps[1..], day);
      var more := TryPlays(cfg, t.net, ps, room, at, day, k, left - 1);
      TryAgain(cfg, s, ps, day, k, left);
      GoesAgain(cfg, |room|, now, r);
      turns := [now] + more;
      PlaysBefore(cfg, s, t.net, room, day, k, now, Turn(at, 5 - left), c, more);
    } else if t.attempt == Retry || t.attempt == Failed {
      GivesUp(cfg, s, ps, day, k, left);
      HandledHere(cfg, r, 4 - left);
      RoomStays(cfg, s, t.net, ps[1..], day);
      if at + 1 == |room| {
        NoRoomLeft(cfg, t.net, ps[1..], day, k, false);
        EndsFailed(cfg, room, now, r);
        turns := [now];
        PlaysLast(cfg, s, room, day, k, now, c);
      } else {
        var u, rest := SkipsFull(cfg, t.net, ps[1..], day, k, false);
        assert room[at + 1..][0] == room[at + 1] && room[at + 1..][1..] == room[at + 2..];
        var more := TryPlays(cfg, u, rest, room, at + 1, day, k, 3);
        GoesNext(cfg, |room|, now, r);
        turns := [now] + more;
        PlaysBefore(cfg, s, u, room, day, k, now, Turn(at + 1, 1), c, more);
      }
    } else {
      EndsNow(cfg, s, ps, room, at, day, k, left);
      turns := [now];
      PlaysLast(cfg, s, room, day, k, now, c);
    }
  }

  lemma TryAgain(cfg: Config, s: Net, ps: seq<Provider>, day: nat, k: CacheKey, left: nat)
    requires ps != [] && left > 1 && CallOnce(cfg, s, ps[0], day, k).attempt == Retry
    ensures FromTry(cfg, s, ps, day, k, left) == FromTry(cfg, CallOnce(cfg, s, ps[0], day, k).net, ps, day, k, left - 1)
  {
    hide CallOnce, Chain, RecordSpend;
  }

  lemma GivesUp(cfg: Config, s: Net, ps: seq<Provider>, day: nat, k: CacheKey, left: nat)
    requires ps != [] && left > 0
    requires var a := CallOnce(cfg, s, ps[0], day, k).attempt; a == Failed || (a == Retry && left == 1)
    ensures FromTry(cfg, s, ps, day, k, left) == Chain(cfg, CallOnce(cfg, s, ps[0], day, k).net, ps[1..], day, k, false)
  {
    hide CallOnce, Chain, RecordSpend;
    assert CallWithRetries(cfg, CallOnce(cfg, s, ps[0], day, k).net, ps[0], day, k, 0).attempt == Failed;
  }

  lemma GoesAgain(cfg: Config, n: nat, t: Turn, r: Reply)
    requires Retryable(r) && t.tries < 3
    ensures Goes(cfg, n, t, r, Turn(t.at, t.tries + 1))
  {
  }

  lemma GoesNext(cfg: Config, n: nat, t: Turn, r: Reply)
    requires Handled(cfg, r, t.tries) && t.at + 1 < n
    ensures Goes(cfg, n, t, r, Turn(t.at + 1, 1))
  {
  }

  lemma HandledHere(cfg: Config, r: Reply, tries: nat)
    requires r == FatalStatus || (r.Content? && !cfg.isObject(r.raw)) || (Retryable(r) && tries == 3)
    ensures Handled(cfg, r, tries)
  {
  }

  lemma EndsFailed(cfg: Config, room: seq<Provider>, t: Turn, r: Reply)
    requires t.at + 1 == |room| && Handled(cfg, r, t.tries)
    ensures Ends(cfg, room, t, r, AllFailed)
  {
  }

  // Good content, or a failure that nothing handles.
  lemma EndsNow(cfg: Config, s: Net, ps: seq<Provider>, room: seq<Provider>, at: nat, day: nat, k: CacheKey, left: nat)
    requires Settled(s) && ps != [] && left > 0 && at < |room| && room[at] == ps[0]
    requires var a := CallOnce(cfg, s, ps[0], day, k).attempt; a.Succeeded? || a == Escaped
    ensures var c := FromTry(cfg, s, ps, day, k, left);
      && Ends(cfg, room, Turn(at, if left <= 4 then 4 - left else 0), ReplyAt(s.replies, 0), c.outcome)
      && c.net.calls == s.calls + [Call(ps[0].name, day, Good(cfg, ReplyAt(s.replies, 0)))]
      && StoreAfter(s, c, day, k, 1)
  {
    hide CallOnce, Chain;
    OneExchange(cfg, s, ps[0], day, k);
    var t := CallOnce(cfg, s, ps[0], day, k);
    TouchSettled(t.net);
  }

  lemma PlaysLast(cfg: Config, s: Net, room: seq<Provider>, day: nat, k: CacheKey, t: Turn, c: Chat)
    requires t.at < |room| && Ends(cfg, room, t, ReplyAt(s.replies, 0), c.outcome) && StoreAfter(s, c, day, k, 1)
    requires c.net.calls == s.calls + [Call(room[t.at].name, day, Good(cfg, ReplyAt(s.replies, 0)))]
    ensures PlaysOn(cfg, s, room, day, k, t, c, [t])
  {
    OneTurn(cfg, room, day, s.replies, t, c.outcome);
    assert c.net.calls[|s.calls|..] == [Call(room[t.at].name, day, Good(cfg, ReplyAt(s.replies, 0)))];
  }

  lemma PlaysBefore(cfg: Config, s: Net, m: Net, room: seq<Provider>, day: nat, k: CacheKey, t: Turn, u: Turn, c: Chat,
                    turns: seq<Turn>)
    requires t.at < |room| && Goes(cfg, |room|, t, ReplyAt(s.replies, 0), u)
    requires m.calls == s.calls + [Call(room[t.at].name, day, Good(cfg, ReplyAt(s.replies, 0)))]
    requires m.replies == After(s.replies, 1) && m.up == s.up && m.spent == s.spent && m.cache == s.cache
    requires PlaysOn(cfg, m, room, day, k, u, c, turns)
    ensures PlaysOn(cfg, s, room, day, k, t, c, [t] + turns)
  {
    hide PlayedFrom, Goes, Good;
    TurnBefore(cfg, room, day, s.replies, t, u, turns, c.net.calls[|m.calls|..], c.outcome);
    assert c.net.calls[|s.calls|..]
        == [Call(room[t.at].name, day, Good(cfg, ReplyAt(s.replies, 0)))] + c.net.calls[|m.calls|..];
  }

  // ---- one chat -----------------------------------------------------------------------------------

  // The chat is not answered from the cache: Redis is out of use, or does not hold the key, or is
  // told to drop it first.
  predicate Uncached(cfg: Config, s: Net, purpose: string, messages: seq<Message>, bust: Option<CacheKey>) {
    var k := CacheKey(purpose, messages, cfg.providers);
    !s.up || k !in s.cache || bust == Some(k)
  }

  // The store when the chain begins.
  function Opened(cfg: Config, s: Net, purpose: string, messages: seq<Message>, bust: Option<CacheKey>): Net {
    var k := CacheKey(purpose, messages, cfg.providers);
    if s.up && bust == Some(k) then s.(cache := s.cache - {k}) else s
  }

  lemma ChatOpens(cfg: Config, s: Net, purpose: string, messages: seq<Message>, day: nat, bust: Option<CacheKey>)
    returns (t: Net)
    requires cfg.providers != [] && Settled(s) && Uncached(cfg, s, purpose, messages, bust)
    ensures var k := KeyOf(cfg, purpose, messages);
      && ChatJson(cfg, s, purpose, messages, day, bust) == Chain(cfg, t, cfg.providers, day, k, true)
      && t == Opened(cfg, s, purpose, messages, bust).(redisFine := t.redisFine) && SameRoom(s, t)
  {
    hide Chain;
    var k := KeyOf(cfg, purpose, messages);
    TouchSettled(s);
    var b := Bust(s, k, bust);
    TouchSettled(b);
    t := Lookup(b, k).net;
  }

  // With Redis steady or out of use, a chat without a cached answer reports an exhausted budget
  // exactly when no provider has room, and then calls nobody.
  lemma ExhaustedIff(cfg: Config, s: Net, purpose: string, messages: seq<Message>, day: nat, bust: Option<CacheKey>)
    requires cfg.providers != [] && Settled(s) && Uncached(cfg, s, purpose, messages, bust)
    ensures var c := ChatJson(cfg, s, purpose, messages, day, bust);
      && (c.outcome == BudgetExhausted <==>
            forall i :: 0 <= i < |cfg.providers| ==> !HasRoom(cfg, s, cfg.providers[i], day))
      && (c.outcome == BudgetExhausted ==> c.net.calls == s.calls)
  {
    hide Chain, Played, PlaysOn;
    ChatCalls(cfg, s, purpose, messages, day, bust);
    RoomMembers(cfg, s, cfg.providers, day);
    if WithRoom(cfg, s, cfg.providers, day) == [] {
      var t := ChatOpens(cfg, s, purpose, messages, day, bust);
      RoomStays(cfg, s, t, cfg.providers, day);
      NoRoomLeft(cfg, t, cfg.providers, day, KeyOf(cfg, purpose, messages), true);
    } else {
      var turns := ChatPlays(cfg, s, purpose, messages, day, bust);
      PlayNeverExhausts(cfg, s, purpose, messages, day, bust, turns);
    }
  }

  lemma PlayNeverExhausts(cfg: Config, s: Net, purpose: string, messages: seq<Message>, day: nat,
                          bust: Option<CacheKey>, turns: seq<Turn>)
    requires var c := ChatJson(cfg, s, purpose, messages, day, bust);
      s.calls <= c.net.calls
      && Played(cfg, WithRoom(cfg, s, cfg.providers, day), day, s.replies, turns, c.net.calls[|s.calls|..], c.outcome)
    ensures ChatJson(cfg, s, purpose, messages, day, bust).outcome != BudgetExhausted
  {
    hide ChatJson, Goes, Handled;
  }

  lemma {:induction false} RoomMembers(cfg: Config, s: Net, ps: seq<Provider>, day: nat)
    ensures WithRoom(cfg, s, ps, day) == [] <==> forall i :: 0 <= i < |ps| ==> !HasRoom(cfg, s, ps[i], day)
  {
    hide HasRoom;
    if ps != [] {
      RoomMembers(cfg, s, ps[1..], day);
      assert forall i :: 0 <= i < |ps| - 1 ==> ps[1..][i] == ps[i + 1];
      assert forall i :: 0 < i < |ps| ==> ps[i] == ps[1..][i - 1];
    }
  }

  // When some provider has room the chat plays over exactly the providers with room, in their order;
  // an answer is counted once and cached, and nothing else changes in the store.
  lemma ChatPlays(cfg: Config, s: Net, purpose: string, messages: seq<Message>, day: nat, bust: Option<CacheKey>)
    returns (turns: seq<Turn>)
    requires cfg.providers != [] && Settled(s) && Uncached(cfg, s, purpose, messages, bust)
    requires WithRoom(cfg, s, cfg.providers, day) != []
    ensures var c := ChatJson(cfg, s, purpose, messages, day, bust);
      && s.calls <= c.net.calls
      && Played(cfg, WithRoom(cfg, s, cfg.providers, day), day, s.replies, turns, c.net.calls[|s.calls|..], c.outcome)
      && StoreAfter(Opened(cfg, s, purpose, messages, bust), c, day, CacheKey(purpose, messages, cfg.providers),
                    |turns|)
  {
    hide Chain, ChatJson, PlaysOn, PlayedFrom, StoreAfter, FromTry, WithRoom;
    var k, room := KeyOf(cfg, purpose, messages), WithRoom(cfg, s, cfg.providers, day);
    var t := ChatOpens(cfg, s, purpose, messages, day, bust);
    RoomStays(cfg, s, t, cfg.providers, day);
    var u, rest := SkipsFull(cfg, t, cfg.providers, day, k, true);
    turns := TryPlays(cfg, u, rest, room, 0, day, k, 3);
    PlaysFrom(cfg, Opened(cfg, s, purpose, messages, bust), u, room, day, k, FromTry(cfg, u, rest, day, k, 3), turns);
  }

  // Which commands Redis has answered by then makes no difference.
  lemma PlaysFrom(cfg: Config, s: Net, u: Net, room: seq<Provider>, day: nat, k: CacheKey, c: Chat, turns: seq<Turn>)
    requires u == s.(redisFine := u.redisFine) && PlaysOn(cfg, u, room, day, k, Turn(0, 1), c, turns)
    ensures s.calls <= c.net.calls
    ensures Played(cfg, room, day, s.replies, turns, c.net.calls[|s.calls|..], c.outcome)
    ensures StoreAfter(s, c, day, k, |turns|)
  {
    hide PlayedFrom;
  }

  // Whether or not Redis fails on the way, a chat that reports an exhausted budget found Redis in use
  // and every provider's counter at the budget, unless nothing is budgeted.
  lemma ExhaustedMeansSpent(cfg: Config, s: Net, purpose: string, messages: seq<Message>, day: nat,
                            bust: Option<CacheKey>, i: nat)
    requires cfg.budget > 0 && i < |cfg.providers|
    requires ChatJson(cfg, s, purpose, messages, day, bust).outcome == BudgetExhausted
    ensures s.up && !HasRoom(cfg, s, cfg.providers[i], day)
  {
    hide Chain;
    var k := KeyOf(cfg, purpose, messages);
    var f := Lookup(Bust(s, k, bust), k);
    SkippedAreSpent(cfg, f.net, cfg.providers, day, k, i);
  }

  lemma {:induction false} SkippedAreSpent(cfg: Config, s: Net, ps: seq<Provider>, day: nat, k: CacheKey, i: nat)
    requires cfg.budget > 0 && i < |ps| && Chain(cfg, s, ps, day, k, true).outcome == BudgetExhausted
    ensures s.up && !HasRoom(cfg, s, ps[i], day)
    decreases |ps|
  {
    hide CallWithRetries;
    var b := BudgetAllows(cfg, s, ps[0], day);
    if b.allowed {
      ChainCalls(cfg, CallWithRetries(cfg, b.net, ps[0], day, k, ATTEMPTS).net, ps[1..], day, k, false);
    } else if i > 0 {
      SkippedAreSpent(cfg, b.net, ps[1..], day, k, i - 1);
    }
  }
}
