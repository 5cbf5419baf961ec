/**
 Reservoir sampling with replacement by index, as the dataset preparation does for each class:
 the first K rows fill the reservoir; row t > K draws j in [0, t - 1] and replaces slot j when
 j < K.

 Fairness is stated by counting draw sequences, for the whole reservoir and for its first M slots.
 */
module Reservoir {
  import opened Common

  // One row meets the reservoir; j is read only when the reservoir is full.
  function Offer<T>(kept: seq<T>, cap: nat, row: T, j: nat): seq<T> {
    if |kept| < cap then kept + [row]
    else if j < |kept| then kept[j := row]
    else kept
  }

  // The slots after the rows 0..n-1, as row positions; draws has one entry for each row past K.
  function Positions(n: nat, cap: nat, draws: seq<nat>): seq<nat>
    requires |draws| == Draws(n, cap)
  {
    if n == 0 then []
    else if n <= cap then Offer(Positions(n - 1, cap, draws), cap, n - 1, 0)
    else Offer(Positions(n - 1, cap, Front(draws)), cap, n - 1, Last(draws))
  }

  function Draws(n: nat, cap: nat): nat {
    if n <= cap then 0 else n - cap
  }

  // Draw sequences the random source can produce for n rows.
  ghost predicate Possible(n: nat, cap: nat, draws: seq<nat>) {
    |draws| == Draws(n, cap) && forall t :: 0 <= t < |draws| ==> draws[t] < cap + t + 1
  }

  // At every step the reservoir holds min(n, K) distinct row positions.
  lemma {:induction false} KeepsDistinctRows(n: nat, cap: nat, draws: seq<nat>)
    requires |draws| == Draws(n, cap)
    ensures var p := Positions(n, cap, draws);
      && |p| == (if n < cap then n else cap) && Distinct(p)
      && (forall s :: 0 <= s < |p| ==> p[s] < n)
  {
    if n > 0 {
      KeepsDistinctRows(n - 1, cap, if n <= cap then draws else Front(draws));
    }
  }

  // ---- counting --------------------------------------------------------------------------------

  ghost function Longer(c: seq<nat>, below: set<nat>): set<seq<nat>> {
    set j | j in below :: c + [j]
  }

  predicate Any(c: seq<nat>, j: nat) {
    true
  }

  // Every draw sequence for n rows.
  ghost function AllDraws(n: nat, cap: nat): set<seq<nat>> {
    if n <= cap then {[]} else Extend(AllDraws(n - 1, cap), n, Any)
  }

  ghost function Below(n: nat): (s: set<nat>)
    ensures |s| == n && forall j: nat :: j in s <==> j < n
  {
    if n == 0 then {} else Below(n - 1) + {n - 1}
  }

  // The extensions of the sequences in s by a draw below n that satisfies ok.
  ghost function Extend(s: set<seq<nat>>, n: nat, ok: (seq<nat>, nat) -> bool): set<seq<nat>> {
    set c, j | c in s && j in Below(n) && ok(c, j) :: c + [j]
  }

  ghost function Choices(c: seq<nat>, n: nat, ok: (seq<nat>, nat) -> bool): set<nat> {
    set j | j in Below(n) && ok(c, j)
  }

  lemma {:induction false} LongerSize(c: seq<nat>, below: set<nat>)
    ensures |Longer(c, below)| == |below|
  {
    if below != {} {
      var j :| j in below;
      LongerSize(c, below - {j});
      forall x
        ensures x in Longer(c, below) <==> x in Longer(c, below - {j}) || x == c + [j]
      {
      }
      assert Longer(c, below) == Longer(c, below - {j}) + {c + [j]};
      forall k | k in below - {j}
        ensures c + [k] != c + [j]
      {
        assert (c + [k])[|c|] == k && (c + [j])[|c|] == j;
      }
    }
  }

  // With m acceptable draws after each sequence there are m times as many extensions.
  lemma {:induction false} ExtendSize(s: set<seq<nat>>, n: nat, ok: (seq<nat>, nat) -> bool, m: nat)
    requires forall c :: c in s ==> |Choices(c, n, ok)| == m
    ensures |Extend(s, n, ok)| == m * |s|
  {
    hide Choices, Longer, Below, Extend;
    if s == {} {
      ExtendNothing(n, ok);
    } else {
      var c :| c in s;
      var rest := s - {c};
      ExtendSize(rest, n, ok, m);
      LongerSize(c, Choices(c, n, ok));
      ExtendSplits(s, c, n, ok);
      OneMoreShare(m, |rest|);
    }
  }

  lemma ExtendNothing(n: nat, ok: (seq<nat>, nat) -> bool)
    ensures Extend({}, n, ok) == {}
  {
  }

  lemma OneMoreShare(m: nat, k: nat)
    ensures m * (k + 1) == m * k + m
  {
  }

  lemma ExtendSplits(s: set<seq<nat>>, c: seq<nat>, n: nat, ok: (seq<nat>, nat) -> bool)
    requires c in s
    ensures var more := Longer(c, Choices(c, n, ok));
      Extend(s, n, ok) == Extend(s - {c}, n, ok) + more && Extend(s - {c}, n, ok) !! more
  {
    var rest, more := Extend(s - {c}, n, ok), Longer(c, Choices(c, n, ok));
    forall x
      ensures x in Extend(s, n, ok) <==> x in rest || x in more
    {
      if x in Extend(s, n, ok) {
        var d, j :| d in s && j in Below(n) && ok(d, j) && x == d + [j];
        assert d == c ==> j in Choices(c, n, ok);
      }
    }
    forall x | x in rest
      ensures x !in more
    {
      var d, j :| d in s - {c} && j in Below(n) && ok(d, j) && x == d + [j];
      assert x[..|x| - 1] == d;
      forall k | k in Choices(c, n, ok)
        ensures c + [k] != x
      {
        assert (c + [k])[..|c + [k]| - 1] == c;
      }
    }
  }

  ghost predicate Extends(s: set<seq<nat>>, n: nat, x: seq<nat>) {
    x != [] && Front(x) in s && Last(x) < n
  }

  lemma ExtendMembers(s: set<seq<nat>>, n: nat, ok: (seq<nat>, nat) -> bool, x: seq<nat>)
    ensures x in Extend(s, n, ok) <==> Extends(s, n, x) && ok(Front(x), Last(x))
  {
    if Extends(s, n, x) && ok(Front(x), Last(x)) {
      FrontLast(x);
      assert Last(x) in Below(n);
    }
    if x in Extend(s, n, ok) {
      var c, j :| c in s && j in Below(n) && ok(c, j) && x == c + [j];
      assert Front(x) == c && Last(x) == j;
    }
  }

  // A sequence for n rows is one for n - 1 rows and a draw below n.
  lemma LastDraw(n: nat, cap: nat, draws: seq<nat>)
    requires n > cap
    ensures draws in AllDraws(n, cap) <==> Extends(AllDraws(n - 1, cap), n, draws)
  {
    ExtendMembers(AllDraws(n - 1, cap), n, Any, draws);
  }

  lemma PossibleSnoc(n: nat, cap: nat, draws: seq<nat>)
    requires n > cap
    ensures Possible(n, cap, draws) <==> draws != [] && Possible(n - 1, cap, Front(draws)) && Last(draws) < n
  {
    if draws != [] {
      var f := Front(draws);
      assert forall t :: 0 <= t < |f| ==> f[t] == draws[t];
    }
  }

  lemma {:induction false} AllDrawsArePossible(n: nat, cap: nat, draws: seq<nat>)
    ensures draws in AllDraws(n, cap) <==> Possible(n, cap, draws)
  {
    if n > cap {
      LastDraw(n, cap, draws);
      PossibleSnoc(n, cap, draws);
      hide AllDraws, Possible;
      if draws != [] {
        AllDrawsArePossible(n - 1, cap, Front(draws));
      }
    }
  }

  lemma AllDrawsSize(n: nat, cap: nat)
    requires n > cap
    ensures |AllDraws(n, cap)| == n * |AllDraws(n - 1, cap)|
  {
    forall c | c in AllDraws(n - 1, cap)
      ensures |Choices(c, n, Any)| == n
    {
      assert Choices(c, n, Any) == Below(n);
    }
    ExtendSize(AllDraws(n - 1, cap), n, Any, n);
  }

  // ---- fairness --------------------------------------------------------------------------------

  // Row i sits in one of the first m slots.
  ghost predicate Keeps(n: nat, cap: nat, m: nat, i: nat, draws: seq<nat>) {
    && |draws| == Draws(n, cap)
    && exists s :: 0 <= s < m && s < |Positions(n, cap, draws)| && Positions(n, cap, draws)[s] == i
  }

  // The draw sequences under which row i ends in one of the first m slots.
  ghost function KeepingDraws(n: nat, cap: nat, m: nat, i: nat): set<seq<nat>> {
    set c | c in AllDraws(n, cap) && Keeps(n, cap, m, i, c)
  }

  // How much the first m slots favour row i, in parts of n.
  function Weight(cap: nat, m: nat, i: nat): nat {
    if i >= cap then m else if i < m then cap else 0
  }

  lemma KeepsStep(n: nat, cap: nat, m: nat, i: nat, c: seq<nat>, j: nat)
    requires n > cap >= m && i < n && j < n && |c| == Draws(n - 1, cap)
    ensures Keeps(n, cap, m, i, c + [j])
       <==> if i == n - 1 then j < m
            else Keeps(n - 1, cap, m, i, c) && !(j < |Positions(n - 1, cap, c)| && Positions(n - 1, cap, c)[j] == i)
  {
    var p, q := Positions(n - 1, cap, c), Positions(n, cap, c + [j]);
    KeepsDistinctRows(n - 1, cap, c);
    assert Front(c + [j]) == c && Last(c + [j]) == j;
    assert q == Offer(p, cap, n - 1, j) && |p| == cap;
    if i == n - 1 {
      if j < m {
        assert q[j] == i;
      }
    } else if Keeps(n - 1, cap, m, i, c) {
      var s :| 0 <= s < m && s < |p| && p[s] == i;
      if !(j < cap && p[j] == i) {
        assert q[s] == i;
      }
    }
  }

  // The draws that leave row i where it is: all but the one that names its slot.
  lemma StayingDraws(n: nat, cap: nat, m: nat, i: nat, c: seq<nat>) returns (s: nat)
    requires n > cap >= m && i < n - 1 && Keeps(n - 1, cap, m, i, c)
    ensures s < m && forall j: nat :: j < n ==> (Keeps(n, cap, m, i, c + [j]) <==> j != s)
  {
    var p := Positions(n - 1, cap, c);
    KeepsDistinctRows(n - 1, cap, c);
    s :| 0 <= s < m && s < |p| && p[s] == i;
    forall j: nat | j < n
      ensures Keeps(n, cap, m, i, c + [j]) <==> j != s
    {
      KeepsStep(n, cap, m, i, c, j);
      assert j < cap && j != s ==> p[j] != p[s];
    }
  }

  // The draws after which row i is in one of the first m slots.
  ghost function KeepsAfter(n: nat, cap: nat, m: nat, i: nat): (seq<nat>, nat) -> bool {
    (c: seq<nat>, j: nat) => Keeps(n, cap, m, i, c + [j])
  }

  lemma StayingChoices(n: nat, cap: nat, m: nat, i: nat, c: seq<nat>)
    requires n > cap >= m && i < n - 1 && Keeps(n - 1, cap, m, i, c)
    ensures |Choices(c, n, KeepsAfter(n, cap, m, i))| == n - 1
  {
    hide Positions, Keeps, Below;
    var s := StayingDraws(n, cap, m, i, c);
    assert Choices(c, n, KeepsAfter(n, cap, m, i)) == Below(n) - {s};
  }

  lemma KeepingMembers(n: nat, cap: nat, m: nat, i: nat, x: seq<nat>)
    ensures x in KeepingDraws(n, cap, m, i) <==> x in AllDraws(n, cap) && Keeps(n, cap, m, i, x)
  {
    hide AllDraws, Keeps;
  }

  lemma OldRowCount(n: nat, cap: nat, m: nat, i: nat)
    requires n > cap >= m && i < n - 1
    ensures |KeepingDraws(n, cap, m, i)| == (n - 1) * |KeepingDraws(n - 1, cap, m, i)|
  {
    hide Positions, Keeps, AllDraws, Below, KeepingDraws, KeepsAfter, Extend, Choices;
    var before := KeepingDraws(n - 1, cap, m, i);
    forall c | c in before
      ensures |Choices(c, n, KeepsAfter(n, cap, m, i))| == n - 1
    {
      KeepingMembers(n - 1, cap, m, i, c);
      StayingChoices(n, cap, m, i, c);
    }
    ExtendSize(before, n, KeepsAfter(n, cap, m, i), n - 1);
    OldRowsExtend(n, cap, m, i);
  }

  lemma OldRowsExtend(n: nat, cap: nat, m: nat, i: nat)
    requires n > cap >= m && i < n - 1
    ensures KeepingDraws(n, cap, m, i) == Extend(KeepingDraws(n - 1, cap, m, i), n, KeepsAfter(n, cap, m, i))
  {
    hide KeepingDraws, KeepsAfter, Extend;
    forall x
      ensures x in KeepingDraws(n, cap, m, i)
         <==> x in Extend(KeepingDraws(n - 1, cap, m, i), n, KeepsAfter(n, cap, m, i))
    {
      OldRowExtends(n, cap, m, i, x);
    }
  }

  lemma OldRowExtends(n: nat, cap: nat, m: nat, i: nat, x: seq<nat>)
    requires n > cap >= m && i < n - 1
    ensures x in KeepingDraws(n, cap, m, i)
       <==> x in Extend(KeepingDraws(n - 1, cap, m, i), n, KeepsAfter(n, cap, m, i))
  {
    hide Positions, Keeps, AllDraws, KeepingDraws, Extend;
    LastDraw(n, cap, x);
    KeepingMembers(n, cap, m, i, x);
    ExtendMembers(KeepingDraws(n - 1, cap, m, i), n, KeepsAfter(n, cap, m, i), x);
    if x != [] {
      KeepingMembers(n - 1, cap, m, i, Front(x));
      if Front(x) in AllDraws(n - 1, cap) && Last(x) < n {
        FrontLast(x);
        AllDrawsArePossible(n - 1, cap, Front(x));
        KeepsStep(n, cap, m, i, Front(x), Last(x));
      }
    }
  }

  // The draws below m.
  ghost function Under(m: nat): (seq<nat>, nat) -> bool {
    (c: seq<nat>, j: nat) => j < m
  }

  lemma UnderChoices(n: nat, m: nat, c: seq<nat>)
    requires m <= n
    ensures |Choices(c, n, Under(m))| == m
  {
    hide Below;
    assert Choices(c, n, Under(m)) == Below(m);
  }

  lemma NewRowCount(n: nat, cap: nat, m: nat)
    requires n > cap >= m
    ensures |KeepingDraws(n, cap, m, n - 1)| == m * |AllDraws(n - 1, cap)|
  {
    hide Positions, Keeps, AllDraws, Below, KeepingDraws, Under, Extend, Choices;
    var before := AllDraws(n - 1, cap);
    forall c | c in before
      ensures |Choices(c, n, Under(m))| == m
    {
      UnderChoices(n, m, c);
    }
    ExtendSize(before, n, Under(m), m);
    NewRowsExtend(n, cap, m);
  }

  lemma NewRowsExtend(n: nat, cap: nat, m: nat)
    requires n > cap >= m
    ensures KeepingDraws(n, cap, m, n - 1) == Extend(AllDraws(n - 1, cap), n, Under(m))
  {
    hide KeepingDraws, AllDraws, Under, Extend;
    var kept, extended := KeepingDraws(n, cap, m, n - 1), Extend(AllDraws(n - 1, cap), n, Under(m));
    forall x
      ensures x in kept <==> x in extended
    {
      NewRowExtends(n, cap, m, x);
    }
  }

  lemma NewRowExtends(n: nat, cap: nat, m: nat, x: seq<nat>)
    requires n > cap >= m
    ensures x in KeepingDraws(n, cap, m, n - 1) <==> x in Extend(AllDraws(n - 1, cap), n, Under(m))
  {
    hide Positions, Keeps, AllDraws, KeepingDraws, Extend;
    LastDraw(n, cap, x);
    KeepingMembers(n, cap, m, n - 1, x);
    ExtendMembers(AllDraws(n - 1, cap), n, Under(m), x);
    if x != [] && Front(x) in AllDraws(n - 1, cap) && Last(x) < n {
      FrontLast(x);
      AllDrawsArePossible(n - 1, cap, Front(x));
      KeepsStep(n, cap, m, n - 1, Front(x), Last(x));
    }
  }

  lemma {:induction false} FirstRows(n: nat, cap: nat)
    requires n <= cap
    ensures Positions(n, cap, []) == seq(n, i => i)
  {
    if n > 0 {
      FirstRows(n - 1, cap);
    }
  }

  // Exactly how often row i ends in the first m slots.
  lemma {:induction false} SlotShare(n: nat, cap: nat, m: nat, i: nat)
    requires n >= cap >= m && i < n
    ensures |KeepingDraws(n, cap, m, i)| * n == Weight(cap, m, i) * |AllDraws(n, cap)|
    decreases n
  {
    hide KeepingDraws, AllDraws;
    if n == cap {
      FullShare(cap, m, i);
    } else {
      AllDrawsSize(n, cap);
      var all := |AllDraws(n - 1, cap)|;
      if i == n - 1 {
        NewRowCount(n, cap, m);
        assert (m * all) * n == m * (n * all);
      } else {
        SlotShare(n - 1, cap, m, i);
        OldRowCount(n, cap, m, i);
        var kept, w := |KeepingDraws(n - 1, cap, m, i)|, Weight(cap, m, i);
        Rearrange(n, kept, w, all);
      }
    }
  }

  lemma FullShare(cap: nat, m: nat, i: nat)
    requires cap >= m && i < cap
    ensures |KeepingDraws(cap, cap, m, i)| == if i < m then 1 else 0
    ensures |AllDraws(cap, cap)| == 1
  {
    FirstRows(cap, cap);
    var p := Positions(cap, cap, []);
    if i < m {
      assert p[i] == i;
      assert KeepingDraws(cap, cap, m, i) == {[]};
    } else {
      assert KeepingDraws(cap, cap, m, i) == {};
    }
  }

  lemma Rearrange(n: nat, kept: nat, w: nat, all: nat)
    requires n > 0 && kept * (n - 1) == w * all
    ensures ((n - 1) * kept) * n == w * (n * all)
  {
    assert ((n - 1) * kept) * n == (kept * (n - 1)) * n;
    assert w * (n * all) == (w * all) * n;
  }

  // Every row is kept by the same share of the draw sequences: K in n.
  lemma EveryRowIsFair(n: nat, cap: nat, i: nat)
    requires n >= cap && i < n
    ensures |KeepingDraws(n, cap, cap, i)| * n == cap * |AllDraws(n, cap)|
  {
    SlotShare(n, cap, cap, i);
  }

  // ---- trimming the reservoir --------------------------------------------------------------------

  lemma {:induction false} SomeDraws(n: nat, cap: nat)
    ensures |AllDraws(n, cap)| > 0
  {
    if n > cap {
      SomeDraws(n - 1, cap);
      hide AllDraws;
      AllDrawsSize(n, cap);
      StaysPositive(n, |AllDraws(n - 1, cap)|);
    }
  }

  lemma StaysPositive(a: nat, b: nat)
    requires a > 0 && b > 0
    ensures a * b > 0
  {
  }

  // A row that filled a slot behind the first m never appears in the first m slots.
  lemma TrimNeverKeeps(n: nat, cap: nat, m: nat, i: nat)
    requires m <= i < cap <= n
    ensures KeepingDraws(n, cap, m, i) == {}
  {
    hide KeepingDraws, AllDraws;
    SlotShare(n, cap, m, i);
    assert |KeepingDraws(n, cap, m, i)| * n == 0;
  }

  // Taking only the first m slots of a full reservoir treats all rows alike exactly when m is the
  // whole reservoir.
  lemma TrimIsFairIff(n: nat, cap: nat, m: nat)
    requires 0 < m <= cap < n
    ensures (forall i, j :: 0 <= i < n && 0 <= j < n ==> |KeepingDraws(n, cap, m, i)| == |KeepingDraws(n, cap, m, j)|)
       <==> m == cap
  {
    hide KeepingDraws, AllDraws;
    SomeDraws(n, cap);
    SlotShare(n, cap, m, 0);
    if m < cap {
      TrimNeverKeeps(n, cap, m, m);
      Positive(|KeepingDraws(n, cap, m, 0)|, n, cap, |AllDraws(n, cap)|);
      assert |KeepingDraws(n, cap, m, 0)| != |KeepingDraws(n, cap, m, m)|;
    } else {
      forall i, j | 0 <= i < n && 0 <= j < n
        ensures |KeepingDraws(n, cap, m, i)| == |KeepingDraws(n, cap, m, j)|
      {
        SlotShare(n, cap, m, i);
        SlotShare(n, cap, m, j);
        SameShare(|KeepingDraws(n, cap, m, i)|, |KeepingDraws(n, cap, m, j)|, n);
      }
    }
  }

  lemma Positive(kept: nat, n: nat, w: nat, all: nat)
    requires kept * n == w * all && w > 0 && all > 0
    ensures kept > 0
  {
    assert w * all >= 1;
  }

  lemma SameShare(a: nat, b: nat, n: nat)
    requires n > 0 && a * n == b * n
    ensures a == b
  {
  }

  // ---- sampling rows -----------------------------------------------------------------------------

  function Sample<T>(rows: seq<T>, cap: nat, draws: seq<nat>): seq<T>
    requires |draws| == Draws(|rows|, cap)
  {
    if rows == [] then []
    else if |rows| <= cap then Offer(Sample(Front(rows), cap, draws), cap, Last(rows), 0)
    else Offer(Sample(Front(rows), cap, Front(draws)), cap, Last(rows), Last(draws))
  }

  // The sample holds the rows at the kept positions.
  lemma {:induction false} SampleIsPositions<T>(rows: seq<T>, cap: nat, draws: seq<nat>)
    requires |draws| == Draws(|rows|, cap)
    ensures var p := Positions(|rows|, cap, draws);
      && |Sample(rows, cap, draws)| == |p|
      && forall s :: 0 <= s < |p| ==> p[s] < |rows| && Sample(rows, cap, draws)[s] == rows[p[s]]
  {
    if rows != [] {
      var before := if |rows| <= cap then draws else Front(draws);
      SampleIsPositions(Front(rows), cap, before);
      KeepsDistinctRows(|rows| - 1, cap, before);
    }
  }
}
