/**
 The tamper-evident audit chain: append-only rows, each hashed together with the hash of
 its predecessor.

 The digest and the canonical form of payloads are parameters. Nothing is assumed about the
 digest except that its output holds no '|'; every theorem names the collision it would need.
 */
module Audit {
  import opened Common

  datatype Row<P> = Row(
    seqNo: nat, ts: string, actor: string, eventType: string,
    refType: Option<string>, refId: Option<nat>, payload: P, prevHash: string, hash: string)

  datatype Hasher<!P> = Hasher(canonical: P -> string, digest: string -> string)

  function Zeros(n: nat): (s: string)
    ensures |s| == n && forall c :: c in s ==> c == '0'
  {
    if n == 0 then "" else "0" + Zeros(n - 1)
  }

  const GENESIS := Zeros(64)

  const MAX_ACTOR := 96
  const MAX_EVENT_TYPE := 48

  function Truncate(s: string, n: nat): string {
    if |s| <= n then s else s[..n]
  }

  function Material(prev: string, ts: string, actor: string, eventType: string, payload: string): string {
    prev + ("|" + (ts + ("|" + (actor + ("|" + (eventType + ("|" + payload)))))))
  }

  function ComputeEntryHash<P>(h: Hasher<P>, prev: string, ts: string, actor: string, eventType: string, payload: P)
    : string
  {
    h.digest(Material(prev, ts, actor, eventType, h.canonical(payload)))
  }

  function LastHash<P>(log: seq<Row<P>>): string {
    if log == [] then GENESIS else Last(log).hash
  }

  function AppendEntry<P>(h: Hasher<P>, log: seq<Row<P>>, seqNo: nat, ts: string, actor: string, eventType: string,
                          refType: Option<string>, refId: Option<nat>, payload: P): seq<Row<P>>
  {
    var a, e, prev := Truncate(actor, MAX_ACTOR), Truncate(eventType, MAX_EVENT_TYPE), LastHash(log);
    log + [Row(seqNo, ts, a, e, refType, refId, payload, prev, ComputeEntryHash(h, prev, ts, a, e, payload))]
  }

  // ---- verification --------------------------------------------------------------------

  function Recomputed<P>(h: Hasher<P>, expectedPrev: string, row: Row<P>): string {
    ComputeEntryHash(h, expectedPrev, row.ts, row.actor, row.eventType, row.payload)
  }

  // Row i agrees with its predecessor's stored hash and with its own recomputed hash.
  predicate LinkedAt<P>(h: Hasher<P>, log: seq<Row<P>>, i: nat)
    requires i < |log|
  {
    var prev := LastHash(log[..i]);
    log[i].prevHash == prev && log[i].hash == Recomputed(h, prev, log[i])
  }

  ghost predicate Intact<P>(h: Hasher<P>, log: seq<Row<P>>) {
    forall i :: 0 <= i < |log| ==> LinkedAt(h, log, i)
  }

  // Verification stops at row k.
  ghost predicate StopsAt<P>(h: Hasher<P>, log: seq<Row<P>>, k: nat) {
    k < |log| && !LinkedAt(h, log, k) && forall i :: 0 <= i < k ==> LinkedAt(h, log, i)
  }

  lemma NextHash<P>(log: seq<Row<P>>, i: nat)
    requires i < |log|
    ensures LastHash(log[..i + 1]) == log[i].hash
  {
    NextPrefix(log, i);
  }

  lemma AllLinked<P>(h: Hasher<P>, log: seq<Row<P>>)
    requires forall i :: 0 <= i < |log| ==> LinkedAt(h, log, i)
    ensures Intact(h, log)
  {
  }

  lemma BadRow<P>(h: Hasher<P>, log: seq<Row<P>>, k: nat)
    requires k < |log| && !LinkedAt(h, log, k)
    ensures !Intact(h, log)
  {
  }

  // Walks the chain; returns the number of good rows and the sequence number of the first bad one.
  method VerifyChain<P>(h: Hasher<P>, log: seq<Row<P>>) returns (checked: nat, firstBad: Option<nat>)
    ensures firstBad == None <==> Intact(h, log)
    ensures firstBad == None ==> checked == |log|
    ensures firstBad.Some? ==> StopsAt(h, log, checked) && firstBad.value == log[checked].seqNo
  {
    hide Recomputed, Intact;
    var expectedPrev := GENESIS;
    checked := 0;
    while checked < |log|
      invariant checked <= |log| && expectedPrev == LastHash(log[..checked])
      invariant forall i :: 0 <= i < checked ==> LinkedAt(h, log, i)
    {
      var row := log[checked];
      if row.prevHash != expectedPrev || row.hash != Recomputed(h, expectedPrev, row) {
        BadRow(h, log, checked);
        return checked, Some(row.seqNo);
      }
      NextHash(log, checked);
      expectedPrev := row.hash;
      checked := checked + 1;
    }
    AllLinked(h, log);
    return checked, None;
  }

  // A chain that verifies still verifies after an append, so every log built by appends does.
  lemma AppendKeepsIntact<P>(h: Hasher<P>, log: seq<Row<P>>, seqNo: nat, ts: string, actor: string, eventType: string,
                             refType: Option<string>, refId: Option<nat>, payload: P)
    requires Intact(h, log)
    ensures Intact(h, AppendEntry(h, log, seqNo, ts, actor, eventType, refType, refId, payload))
  {
    var after := AppendEntry(h, log, seqNo, ts, actor, eventType, refType, refId, payload);
    forall i | 0 <= i < |after|
      ensures LinkedAt(h, after, i)
    {
      if i < |log| {
        assert after[..i] == log[..i] && LinkedAt(h, log, i);
      } else {
        assert after[..i] == log;
      }
    }
  }

  // ---- what is hashed, in full -------------------------------------------------------------------

  // The five texts joined by bars.
  function Joined(prev: string, ts: string, actor: string, eventType: string, payload: string): string {
    prev + "|" + ts + "|" + actor + "|" + eventType + "|" + payload
  }

  lemma MaterialIsJoined(prev: string, ts: string, actor: string, eventType: string, payload: string)
    ensures Material(prev, ts, actor, eventType, payload) == Joined(prev, ts, actor, eventType, payload)
  {
    var head := prev + "|" + ts + "|";
    assert head + (actor + ("|" + (eventType + ("|" + payload))))
      == head + actor + ("|" + (eventType + ("|" + payload)));
    assert head + actor + ("|" + (eventType + ("|" + payload))) == head + actor + "|" + eventType + ("|" + payload);
  }

  // The hash in front of row i: that of the row before, or 64 zeros.
  ghost predicate Precedes<P>(log: seq<Row<P>>, i: nat, prev: string)
    requires i <= |log|
  {
    if i == 0 then |prev| == 64 && forall k :: 0 <= k < 64 ==> prev[k] == '0' else prev == log[i - 1].hash
  }

  lemma PrecedesIs<P>(log: seq<Row<P>>, i: nat, prev: string)
    requires i <= |log|
    ensures Precedes(log, i, prev) <==> prev == LastHash(log[..i])
  {
    if i == 0 {
      assert GENESIS == Zeros(64) && |Zeros(64)| == 64 && forall k :: 0 <= k < 64 ==> Zeros(64)[k] in Zeros(64);
      hide Zeros;
      assert Precedes(log, i, prev) ==> prev == Zeros(64);
    }
  }

  // An append adds one row with the columns as given, the two texts cut to the widths of their
  // columns, and the hash of its own columns behind the hash of the row before.
  lemma AppendsOneRow<P>(h: Hasher<P>, log: seq<Row<P>>, seqNo: nat, ts: string, actor: string, eventType: string,
                         refType: Option<string>, refId: Option<nat>, payload: P)
    ensures var after := AppendEntry(h, log, seqNo, ts, actor, eventType, refType, refId, payload);
      && |after| == |log| + 1 && after[..|log|] == log
      && var row := after[|log|];
         && row.seqNo == seqNo && row.ts == ts && row.refType == refType && row.refId == refId && row.payload == payload
         && row.actor <= actor && |row.actor| == (if |actor| < 96 then |actor| else 96)
         && row.eventType <= eventType && |row.eventType| == (if |eventType| < 48 then |eventType| else 48)
         && Precedes(log, |log|, row.prevHash)
         && row.hash == h.digest(Joined(row.prevHash, ts, row.actor, row.eventType, h.canonical(payload)))
  {
    var after := AppendEntry(h, log, seqNo, ts, actor, eventType, refType, refId, payload);
    var row := after[|log|];
    assert log[..|log|] == log;
    PrecedesIs(log, |log|, row.prevHash);
    MaterialIsJoined(row.prevHash, ts, row.actor, row.eventType, h.canonical(payload));
  }

  // A log verifies exactly when each row names the hash before it, the first one 64 zeros, and
  // carries the hash of that and its own columns.
  lemma IntactIff<P>(h: Hasher<P>, log: seq<Row<P>>)
    ensures Intact(h, log) <==> forall i :: 0 <= i < |log| ==>
      && Precedes(log, i, log[i].prevHash)
      && log[i].hash == h.digest(Joined(log[i].prevHash, log[i].ts, log[i].actor, log[i].eventType,
                                        h.canonical(log[i].payload)))
  {
    hide Material, Joined, Precedes, LastHash;
    forall i | 0 <= i < |log|
      ensures LinkedAt(h, log, i) <==>
        && Precedes(log, i, log[i].prevHash)
        && log[i].hash == h.digest(Joined(log[i].prevHash, log[i].ts, log[i].actor, log[i].eventType,
                                          h.canonical(log[i].payload)))
    {
      PrecedesIs(log, i, log[i].prevHash);
      MaterialIsJoined(log[i].prevHash, log[i].ts, log[i].actor, log[i].eventType, h.canonical(log[i].payload));
    }
  }

  // ---- what the last hash commits to ------------------------------------------------------

  function MaterialOf<P>(h: Hasher<P>, row: Row<P>): string {
    Material(row.prevHash, row.ts, row.actor, row.eventType, h.canonical(row.payload))
  }

  predicate NoBar(s: string) {
    '|' !in s
  }

  // The hashed columns other than the payload hold no separator.
  ghost predicate Separable<P>(log: seq<Row<P>>) {
    forall i :: 0 <= i < |log| ==> NoBar(log[i].ts) && NoBar(log[i].actor) && NoBar(log[i].eventType)
  }

  ghost predicate DigestHasNoBar<P(!new)>(h: Hasher<P>) {
    forall s :: NoBar(h.digest(s))
  }

  // The columns that enter the hash agree.
  ghost predicate SameHashed<P>(h: Hasher<P>, a: Row<P>, b: Row<P>) {
    a.ts == b.ts && a.actor == b.actor && a.eventType == b.eventType && h.canonical(a.payload) == h.canonical(b.payload)
  }

  ghost predicate CollisionAt<P>(h: Hasher<P>, a: seq<Row<P>>, b: seq<Row<P>>, i: nat, j: nat)
    requires i < |a| && j < |b|
  {
    MaterialOf(h, a[i]) != MaterialOf(h, b[j]) && h.digest(MaterialOf(h, a[i])) == h.digest(MaterialOf(h, b[j]))
  }

  ghost predicate HitsGenesis<P>(h: Hasher<P>, log: seq<Row<P>>, i: nat)
    requires i < |log|
  {
    h.digest(MaterialOf(h, log[i])) == GENESIS
  }

  // The rows of the two logs exhibit a digest collision or a preimage of the genesis value.
  ghost predicate DigestBroken<P>(h: Hasher<P>, a: seq<Row<P>>, b: seq<Row<P>>) {
    || (exists i, j :: 0 <= i < |a| && 0 <= j < |b| && CollisionAt(h, a, b, i, j))
    || (exists i :: 0 <= i < |a| && HitsGenesis(h, a, i))
    || (exists j :: 0 <= j < |b| && HitsGenesis(h, b, j))
  }

  lemma BarSplits(a: string, x: string, b: string, y: string)
    requires NoBar(a) && NoBar(b) && a + ("|" + x) == b + ("|" + y)
    ensures a == b && x == y
  {
    var s, t := a + ("|" + x), b + ("|" + y);
    assert s[|a|] == '|' && t[|b|] == '|';
    assert forall i :: 0 <= i < |a| ==> s[i] == a[i];
    assert forall i :: 0 <= i < |b| ==> t[i] == b[i];
    assert |a| == |b|;
    assert a == s[..|a|] && b == t[..|b|];
    assert x == s[|a| + 1..] && y == t[|b| + 1..];
  }

  lemma MaterialBinds<P>(h: Hasher<P>, a: Row<P>, b: Row<P>)
    requires NoBar(a.prevHash) && NoBar(a.ts) && NoBar(a.actor) && NoBar(a.eventType)
    requires NoBar(b.prevHash) && NoBar(b.ts) && NoBar(b.actor) && NoBar(b.eventType)
    requires MaterialOf(h, a) == MaterialOf(h, b)
    ensures a.prevHash == b.prevHash && SameHashed(h, a, b)
  {
    var pa, pb := h.canonical(a.payload), h.canonical(b.payload);
    BarSplits(a.prevHash, a.ts + ("|" + (a.actor + ("|" + (a.eventType + ("|" + pa))))),
              b.prevHash, b.ts + ("|" + (b.actor + ("|" + (b.eventType + ("|" + pb))))));
    BarSplits(a.ts, a.actor + ("|" + (a.eventType + ("|" + pa))), b.ts, b.actor + ("|" + (b.eventType + ("|" + pb))));
    BarSplits(a.actor, a.eventType + ("|" + pa), b.actor, b.eventType + ("|" + pb));
    BarSplits(a.eventType, pa, b.eventType, pb);
  }

  lemma IntactRow<P(!new)>(h: Hasher<P>, log: seq<Row<P>>, i: nat)
    requires Intact(h, log) && i < |log| && DigestHasNoBar(h)
    ensures log[i].hash == h.digest(MaterialOf(h, log[i])) && log[i].prevHash == LastHash(log[..i])
    ensures NoBar(log[i].prevHash) && (i + 1 == |log| ==> LastHash(log) == log[i].hash)
  {
    assert LinkedAt(h, log, i);
    assert NoBar(GENESIS);
    if i > 0 {
      assert LinkedAt(h, log, i - 1) && Last(log[..i]) == log[i - 1];
    }
  }

  lemma IntactPrefix<P>(h: Hasher<P>, log: seq<Row<P>>, k: nat)
    requires Intact(h, log) && k <= |log|
    ensures Intact(h, log[..k])
  {
    forall i | 0 <= i < k
      ensures LinkedAt(h, log[..k], i)
    {
      assert LinkedAt(h, log, i) && log[..k][..i] == log[..i];
    }
  }

  lemma PreviousBinds<P>(h: Hasher<P>, a: Row<P>, b: Row<P>)
    requires NoBar(a.prevHash) && NoBar(b.prevHash) && MaterialOf(h, a) == MaterialOf(h, b)
    ensures a.prevHash == b.prevHash
  {
    BarSplits(a.prevHash, a.ts + ("|" + (a.actor + ("|" + (a.eventType + ("|" + h.canonical(a.payload)))))),
              b.prevHash, b.ts + ("|" + (b.actor + ("|" + (b.eventType + ("|" + h.canonical(b.payload)))))));
  }

  // Two verified logs ending in the same hash agree in length and in every row's hashed text,
  // unless their own rows break the digest.
  lemma {:induction false} ChainBinds<P(!new)>(h: Hasher<P>, a: seq<Row<P>>, b: seq<Row<P>>)
    requires Intact(h, a) && Intact(h, b) && DigestHasNoBar(h)
    requires LastHash(a) == LastHash(b)
    ensures DigestBroken(h, a, b) || SameTexts(h, a, b)
    decreases |a| + |b|
  {
    hide MaterialOf, LastHash, LinkedAt, Intact, DigestBroken, SameTexts, NoBar, DigestHasNoBar;
    if a == [] && b == [] {
      NoTexts(h);
    } else if a == [] {
      IntactRow(h, b, |b| - 1);
      GenesisBreaks(h, a, b, |b| - 1);
    } else if b == [] {
      IntactRow(h, a, |a| - 1);
      GenesisBreaks(h, b, a, |a| - 1);
      BrokenEitherWay(h, b, a);
    } else {
      var m, n := |a| - 1, |b| - 1;
      IntactRow(h, a, m);
      IntactRow(h, b, n);
      if MaterialOf(h, a[m]) != MaterialOf(h, b[n]) {
        CollisionBreaks(h, a, b, m, n);
      } else {
        PreviousBinds(h, a[m], b[n]);
        IntactPrefix(h, a, m);
        IntactPrefix(h, b, n);
        ChainBinds(h, a[..m], b[..n]);
        if DigestBroken(h, a[..m], b[..n]) {
          BrokenPrefix(h, a, b, m, n);
        } else {
          OneMoreText(h, a, b, m, n);
        }
      }
    }
  }

  // Row by row the two logs hash the same text.
  ghost predicate SameTexts<P>(h: Hasher<P>, a: seq<Row<P>>, b: seq<Row<P>>) {
    |a| == |b| && forall i :: 0 <= i < |a| ==> MaterialOf(h, a[i]) == MaterialOf(h, b[i])
  }

  lemma NoTexts<P>(h: Hasher<P>)
    ensures SameTexts(h, [], [])
  {
  }

  lemma OneMoreText<P>(h: Hasher<P>, a: seq<Row<P>>, b: seq<Row<P>>, m: nat, n: nat)
    requires m + 1 == |a| && n + 1 == |b| && SameTexts(h, a[..m], b[..n]) && MaterialOf(h, a[m]) == MaterialOf(h, b[n])
    ensures SameTexts(h, a, b)
  {
    hide MaterialOf;
    assert forall i :: 0 <= i < m ==> a[..m][i] == a[i] && b[..n][i] == b[i];
  }

  lemma GenesisBreaks<P>(h: Hasher<P>, a: seq<Row<P>>, b: seq<Row<P>>, j: nat)
    requires a == [] && j < |b| && h.digest(MaterialOf(h, b[j])) == LastHash(a)
    ensures DigestBroken(h, a, b)
  {
    assert HitsGenesis(h, b, j);
  }

  lemma CollisionBreaks<P>(h: Hasher<P>, a: seq<Row<P>>, b: seq<Row<P>>, i: nat, j: nat)
    requires i < |a| && j < |b| && MaterialOf(h, a[i]) != MaterialOf(h, b[j])
    requires h.digest(MaterialOf(h, a[i])) == h.digest(MaterialOf(h, b[j]))
    ensures DigestBroken(h, a, b)
  {
    assert CollisionAt(h, a, b, i, j);
  }

  lemma BrokenEitherWay<P>(h: Hasher<P>, a: seq<Row<P>>, b: seq<Row<P>>)
    requires DigestBroken(h, a, b)
    ensures DigestBroken(h, b, a)
  {
    if exists i, j :: 0 <= i < |a| && 0 <= j < |b| && CollisionAt(h, a, b, i, j) {
      var i, j :| 0 <= i < |a| && 0 <= j < |b| && CollisionAt(h, a, b, i, j);
      assert CollisionAt(h, b, a, j, i);
    }
  }

  // Where no column holds a separator the same last hash binds every hashed column.
  lemma ChainBindsColumns<P(!new)>(h: Hasher<P>, a: seq<Row<P>>, b: seq<Row<P>>, i: nat)
    requires Intact(h, a) && Intact(h, b) && Separable(a) && Separable(b) && DigestHasNoBar(h)
    requires LastHash(a) == LastHash(b) && !DigestBroken(h, a, b) && i < |a|
    ensures |a| == |b| && SameHashed(h, a[i], b[i])
  {
    hide Intact, DigestBroken, DigestHasNoBar, LastHash;
    ChainBinds(h, a, b);
    IntactRow(h, a, i);
    IntactRow(h, b, i);
    MaterialBinds(h, a[i], b[i]);
  }

  lemma BrokenPrefix<P>(h: Hasher<P>, a: seq<Row<P>>, b: seq<Row<P>>, m: nat, n: nat)
    requires m <= |a| && n <= |b| && DigestBroken(h, a[..m], b[..n])
    ensures DigestBroken(h, a, b)
  {
    if exists i, j :: 0 <= i < m && 0 <= j < n && CollisionAt(h, a[..m], b[..n], i, j) {
      var i, j :| 0 <= i < m && 0 <= j < n && CollisionAt(h, a[..m], b[..n], i, j);
      assert CollisionAt(h, a, b, i, j);
    } else if exists i :: 0 <= i < m && HitsGenesis(h, a[..m], i) {
      var i :| 0 <= i < m && HitsGenesis(h, a[..m], i);
      assert HitsGenesis(h, a, i);
    } else {
      var j :| 0 <= j < n && HitsGenesis(h, b[..n], j);
      assert HitsGenesis(h, b, j);
    }
  }

  // All hashes of a verified log differ from each other and from the genesis value.
  lemma HashesDiffer<P(!new)>(h: Hasher<P>, log: seq<Row<P>>, i: nat, j: nat)
    requires Intact(h, log) && DigestHasNoBar(h) && !DigestBroken(h, log, log)
    requires i < j <= |log|
    ensures LastHash(log[..i]) != LastHash(log[..j])
  {
    if LastHash(log[..i]) == LastHash(log[..j]) {
      IntactPrefix(h, log, i);
      IntactPrefix(h, log, j);
      ChainBinds(h, log[..i], log[..j]);
      BrokenPrefix(h, log, log, i, j);
    }
  }

  // ---- tampering ---------------------------------------------------------------------------

  // Rewriting columns while keeping the stored hash columns.
  ghost predicate SameHashColumns<P>(a: seq<Row<P>>, b: seq<Row<P>>) {
    |a| == |b| && forall i :: 0 <= i < |a| ==> a[i].hash == b[i].hash && a[i].prevHash == b[i].prevHash
  }

  // The rows at position i have different hashed texts with the same digest.
  ghost predicate CollidesAt<P>(h: Hasher<P>, a: seq<Row<P>>, b: seq<Row<P>>, i: nat) {
    i < |a| && i < |b| && CollisionAt(h, a, b, i, i)
  }

  lemma RewrittenRow<P>(h: Hasher<P>, a: seq<Row<P>>, b: seq<Row<P>>, i: nat)
    requires Intact(h, a) && SameHashColumns(a, b) && i < |a| && !CollidesAt(h, a, b, i)
    ensures LinkedAt(h, b, i) <==> MaterialOf(h, a[i]) == MaterialOf(h, b[i])
  {
    assert LinkedAt(h, a, i);
    assert LastHash(a[..i]) == LastHash(b[..i]);
    assert b[i].prevHash == LastHash(b[..i]);
  }

  // A rewritten log passes verification exactly when no row's hashed text changed.
  lemma RewriteDetectedIff<P>(h: Hasher<P>, a: seq<Row<P>>, b: seq<Row<P>>)
    requires Intact(h, a) && SameHashColumns(a, b) && forall i :: 0 <= i < |a| ==> !CollidesAt(h, a, b, i)
    ensures Intact(h, b) <==> forall i :: 0 <= i < |a| ==> MaterialOf(h, a[i]) == MaterialOf(h, b[i])
  {
    hide LinkedAt, MaterialOf;
    forall i | 0 <= i < |a|
      ensures LinkedAt(h, b, i) <==> MaterialOf(h, a[i]) == MaterialOf(h, b[i])
    {
      RewrittenRow(h, a, b, i);
    }
  }

  // Without separators inside the columns the hashed texts agree exactly when the hashed columns do.
  lemma SameTextIff<P>(h: Hasher<P>, a: Row<P>, b: Row<P>)
    requires a.prevHash == b.prevHash && NoBar(a.prevHash)
    requires NoBar(a.ts) && NoBar(a.actor) && NoBar(a.eventType)
    requires NoBar(b.ts) && NoBar(b.actor) && NoBar(b.eventType)
    ensures MaterialOf(h, a) == MaterialOf(h, b) <==> SameHashed(h, a, b)
  {
    if MaterialOf(h, a) == MaterialOf(h, b) {
      MaterialBinds(h, a, b);
    }
  }

  // Rewriting the reference columns of any row goes unnoticed.
  lemma ReferenceRewriteUnnoticed<P>(h: Hasher<P>, log: seq<Row<P>>, k: nat, refType: Option<string>,
                                     refId: Option<nat>)
    requires Intact(h, log) && k < |log|
    ensures Intact(h, log[k := log[k].(refType := refType, refId := refId)])
  {
    SameTextUnnoticed(h, log, k, log[k].(refType := refType, refId := refId));
  }

  lemma SameTextUnnoticed<P>(h: Hasher<P>, log: seq<Row<P>>, k: nat, edited: Row<P>)
    requires Intact(h, log) && k < |log| && edited.hash == log[k].hash && edited.prevHash == log[k].prevHash
    requires MaterialOf(h, edited) == MaterialOf(h, log[k])
    ensures Intact(h, log[k := edited])
  {
    var b := log[k := edited];
    forall i | 0 <= i < |b|
      ensures LinkedAt(h, b, i)
    {
      assert LinkedAt(h, log, i) && LastHash(log[..i]) == LastHash(b[..i]);
    }
  }

  lemma ShiftedText(prev: string, ts: string, u: string, w: string, e: string, p: string)
    ensures Material(prev, ts, u + ("|" + w), e, p) == Material(prev, ts, u, w + ("|" + e), p)
  {
    assert (u + ("|" + w)) + ("|" + (e + ("|" + p))) == u + ("|" + ((w + ("|" + e)) + ("|" + p)));
  }

  // A separator inside a column lets text move into the next column unnoticed: the part of an actor
  // behind its bar can become the front of the event type.
  lemma MovedBarUnnoticed<P>(h: Hasher<P>, log: seq<Row<P>>, k: nat, u: string, w: string)
    requires Intact(h, log) && k < |log| && log[k].actor == u + ("|" + w)
    ensures Intact(h, log[k := log[k].(actor := u, eventType := w + ("|" + log[k].eventType))])
  {
    var edited := log[k].(actor := u, eventType := w + ("|" + log[k].eventType));
    ShiftedText(log[k].prevHash, log[k].ts, u, w, log[k].eventType, h.canonical(log[k].payload));
    SameTextUnnoticed(h, log, k, edited);
  }

  const ADDRESS_FRONT := "user:ann"
  const ADDRESS_REST := "bob@example.org"

  // Such a log: one entry of a user whose address holds a bar. With the bar moved into the event
  // type the entry names a shorter address, and the log still verifies.
  lemma MovedBarExample(h: Hasher<string>, ts: string, payload: string)
    ensures var log := AppendEntry(h, [], 1, ts, ADDRESS_FRONT + ("|" + ADDRESS_REST), "action_queued", None, None,
                                   payload);
      var rewritten := log[0].(actor := ADDRESS_FRONT, eventType := ADDRESS_REST + ("|" + log[0].eventType));
      Intact(h, log) && rewritten != log[0] && Intact(h, [rewritten])
  {
    hide Material;
    var actor := ADDRESS_FRONT + ("|" + ADDRESS_REST);
    AppendKeepsIntact(h, [], 1, ts, actor, "action_queued", None, None, payload);
    var log := AppendEntry(h, [], 1, ts, actor, "action_queued", None, None, payload);
    assert |actor| <= MAX_ACTOR && log[0].actor == actor && |actor| != |ADDRESS_FRONT|;
    MovedBarUnnoticed(h, log, 0, ADDRESS_FRONT, ADDRESS_REST);
    var rewritten := log[0].(actor := ADDRESS_FRONT, eventType := ADDRESS_REST + ("|" + log[0].eventType));
    assert log[0 := rewritten] == [rewritten];
  }

  // Editing a row's hashed text stops verification at exactly that row.
  lemma EditStopsThere<P>(h: Hasher<P>, log: seq<Row<P>>, k: nat, edited: Row<P>)
    requires Intact(h, log) && k < |log| && edited.hash == log[k].hash && edited.prevHash == log[k].prevHash
    requires MaterialOf(h, log[k]) != MaterialOf(h, edited) && !CollidesAt(h, log, log[k := edited], k)
    ensures StopsAt(h, log[k := edited], k)
  {
    hide MaterialOf;
    var b := log[k := edited];
    RewrittenRow(h, log, b, k);
    forall i | 0 <= i < k
      ensures LinkedAt(h, b, i)
    {
      assert LinkedAt(h, log, i) && b[..i] == log[..i];
    }
  }

  // Removing a row other than the last stops verification at exactly its position.
  lemma RemovalStopsThere<P(!new)>(h: Hasher<P>, log: seq<Row<P>>, k: nat)
    requires Intact(h, log) && DigestHasNoBar(h) && k + 1 < |log|
    requires !DigestBroken(h, log, log)
    ensures StopsAt(h, log[..k] + log[k + 1..], k)
  {
    var b := log[..k] + log[k + 1..];
    assert b[k] == log[k + 1] && b[..k] == log[..k];
    assert LinkedAt(h, log, k + 1);
    HashesDiffer(h, log, k, k + 1);
    forall i | 0 <= i < k
      ensures LinkedAt(h, b, i)
    {
      assert LinkedAt(h, log, i) && b[..i] == log[..i];
    }
  }

  // Cutting the tail leaves a log that verifies.
  lemma TailCutUnnoticed<P>(h: Hasher<P>, log: seq<Row<P>>, k: nat)
    requires Intact(h, log) && k <= |log|
    ensures Intact(h, log[..k])
  {
    IntactPrefix(h, log, k);
  }
}
