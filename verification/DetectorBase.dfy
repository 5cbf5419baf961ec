/**
 Scoring arithmetic and the per-(entity, metric) streaming state shared by all detectors.

 Timestamps are microseconds since the epoch; statistics are exact reals.
 */
module DetectorBase {
  import opened Common

  const MICROS: nat := 1_000_000

  // The slim projection of a persisted event that detectors read.
  datatype Event = Event(id: nat, ts: nat, src: nat, dstPort: int)

  // ---- tumbling windows -----------------------------------------------------

  // Floors a timestamp onto whole seconds, then onto its window start.
  function BucketStartFor(ts: nat, window: nat): nat
    requires window > 0
  {
    var epochSeconds := ts / MICROS;
    (epochSeconds - epochSeconds % window) * MICROS
  }

  // The length of a window in timestamp units.
  function Span(window: nat): nat
    requires window > 0
    ensures Span(window) > 0
  {
    window * MICROS
  }

  // The index of the window a timestamp falls in.
  function Slot(ts: nat, window: nat): nat
    requires window > 0
  {
    ts / Span(window)
  }

  lemma DivisionIsUnique(a: nat, d: nat, q: nat)
    requires d > 0 && q * d <= a < q * d + d
    ensures a / d == q
  {
    var r := a / d;
    if r < q {
      MultipleOrder(r, q, d);
    } else if q < r {
      MultipleOrder(q, r, d);
    }
  }

  lemma MultipleOrder(a: nat, b: nat, d: nat)
    requires a < b
    ensures a * d + d <= b * d
  {
    assert b * d == (a + 1) * d + (b - a - 1) * d;
    assert (b - a - 1) * d >= 0;
  }

  lemma SlotBounds(ts: nat, window: nat)
    requires window > 0
    ensures Slot(ts, window) * Span(window) <= ts < Slot(ts, window) * Span(window) + Span(window)
  {
  }

  // A window start is the start of the window that contains the timestamp: flooring to
  // whole seconds first loses nothing.
  lemma BucketStartIsSlotStart(ts: nat, window: nat)
    requires window > 0
    ensures BucketStartFor(ts, window) == Slot(ts, window) * Span(window)
    ensures BucketStartFor(ts, window) <= ts < BucketStartFor(ts, window) + Span(window)
    ensures Span(window) == window * 1_000_000
  {
    var s := ts / MICROS;
    var q := s / window;
    assert s == q * window + s % window;
    assert BucketStartFor(ts, window) == (q * window) * MICROS;
    assert (q * window) * MICROS == q * Span(window);
    assert s - q * window <= window - 1;
    assert ts < s * MICROS + MICROS;
    DivisionIsUnique(ts, Span(window), q);
  }

  // "The next window has begun by ts" in window indices.
  lemma NextWindowReached(k: nat, ts: nat, window: nat)
    requires window > 0
    ensures k * Span(window) + Span(window) <= ts <==> k < Slot(ts, window)
  {
    hide Slot, Span;
    SlotBounds(ts, window);
    var t := Slot(ts, window);
    if k < t {
      MultipleOrder(k, t, Span(window));
    } else if t < k {
      MultipleOrder(t, k, Span(window));
    }
  }

  lemma SlotOrder(a: nat, b: nat, window: nat)
    requires window > 0
    ensures a < b <==> a * Span(window) < b * Span(window)
  {
    hide Span;
    if a < b {
      MultipleOrder(a, b, Span(window));
    } else if b < a {
      MultipleOrder(b, a, Span(window));
    }
  }

  // ---- Welford's online variance -----------------------------------------------

  datatype Stats = Stats(mean: real, m2: real, n: nat)

  const NO_HISTORY := Stats(0.0, 0.0, 0)

  function UpdateWelford(s: Stats, value: real): Stats {
    var n := s.n + 1;
    var delta := value - s.mean;
    var mean := s.mean + delta / n as real;
    Stats(mean, s.m2 + delta * (value - mean), n)
  }

  function WelfordFrom(s: Stats, h: seq<real>): Stats {
    if h == [] then s else UpdateWelford(WelfordFrom(s, Front(h)), Last(h))
  }

  function Welford(h: seq<real>): Stats {
    WelfordFrom(NO_HISTORY, h)
  }

  lemma {:induction false} WelfordAppend(s: Stats, a: seq<real>, b: seq<real>)
    ensures WelfordFrom(s, a + b) == WelfordFrom(WelfordFrom(s, a), b)
  {
    if b == [] {
      assert a + b == a;
    } else {
      WelfordAppend(s, a, Front(b));
      assert Front(a + b) == a + Front(b) && Last(a + b) == Last(b);
    }
  }

  function Sum(h: seq<real>): real {
    if h == [] then 0.0 else Sum(Front(h)) + Last(h)
  }

  function Square(x: real): real {
    x * x
  }

  function SumOfSquares(h: seq<real>): real {
    if h == [] then 0.0 else SumOfSquares(Front(h)) + Square(Last(h))
  }

  // Sum of squared deviations from c.
  function SquaredDeviation(h: seq<real>, c: real): real {
    if h == [] then 0.0 else SquaredDeviation(Front(h), c) + Square(Last(h) - c)
  }

  function Mean(h: seq<real>): real {
    if h == [] then 0.0 else Sum(h) / |h| as real
  }

  // D is the squared deviation from c of n values with sum S and sum of squares Q.
  ghost predicate Moments(Q: real, S: real, n: real, D: real, c: real) {
    D == Q - 2.0 * c * S + n * c * c && D >= 0.0
  }

  lemma {:induction false} DeviationExpands(h: seq<real>, c: real)
    ensures Moments(SumOfSquares(h), Sum(h), |h| as real, SquaredDeviation(h, c), c)
  {
    if h != [] {
      DeviationExpands(Front(h), c);
      MomentsStep(SumOfSquares(Front(h)), Sum(Front(h)), |Front(h)| as real, SquaredDeviation(Front(h), c), c, Last(h));
      assert |h| as real == |Front(h)| as real + 1.0;
    }
  }

  lemma MomentsStep(Q: real, S: real, n: real, D: real, c: real, x: real)
    requires Moments(Q, S, n, D, c)
    ensures Moments(Q + Square(x), S + x, n + 1.0, D + Square(x - c), c)
  {
    assert (n + 1.0) * c * c == n * c * c + c * c;
    assert 2.0 * c * (S + x) == 2.0 * c * S + 2.0 * c * x;
    assert Square(x - c) == x * x - 2.0 * c * x + c * c;
  }

  // The statistics s belong to values with sum of squares Q and sum S.
  ghost predicate Tracks(s: Stats, Q: real, S: real) {
    s.mean * s.n as real == S && s.m2 == Q - S * s.mean
  }

  lemma WelfordStep(s: Stats, Q: real, S: real, v: real)
    requires Tracks(s, Q, S)
    ensures Tracks(UpdateWelford(s, v), Q + Square(v), S + v)
  {
    var t := UpdateWelford(s, v);
    var n, n' := s.n as real, t.n as real;
    assert n' == n + 1.0;
    var q := (v - s.mean) / n';
    assert q * n' == v - s.mean;
    assert t.mean * n' == s.mean * n' + q * n';
    assert s.mean * n' == s.mean * n + s.mean;
    assert t.mean * n' == S + v;
    var m, m' := s.mean, t.mean;
    calc {
      t.m2 - (Q + v * v - (S + v) * m');
      Q - S * m + (v - m) * (v - m') - (Q + v * v - (S + v) * m');
      m' * (S + m) - m * (S + v);
      { assert S + m == m * n'; assert S + v == m' * n'; }
      m' * (m * n') - m * (m' * n');
      0.0;
    }
  }

  lemma {:induction false} WelfordSums(h: seq<real>)
    ensures Welford(h).n == |h| && Tracks(Welford(h), SumOfSquares(h), Sum(h))
  {
    if h != [] {
      WelfordSums(Front(h));
      WelfordStep(Welford(Front(h)), SumOfSquares(Front(h)), Sum(Front(h)), Last(h));
    }
  }

  // Welford's recurrences compute the mean and the sum of squared deviations from it.
  lemma WelfordIsBatchStatistics(h: seq<real>)
    ensures Welford(h) == Stats(Mean(h), SquaredDeviation(h, Mean(h)), |h|)
    ensures Welford(h).m2 >= 0.0
  {
    WelfordSums(h);
    if h != [] {
      DeviationExpands(h, Welford(h).mean);
      StatsFromMoments(Welford(h), SumOfSquares(h), Sum(h), SquaredDeviation(h, Welford(h).mean));
    }
  }

  lemma StatsFromMoments(s: Stats, Q: real, S: real, D: real)
    requires s.n > 0 && Tracks(s, Q, S) && Moments(Q, S, s.n as real, D, s.mean)
    ensures s.mean == S / s.n as real && s.m2 == D
  {
    DivideBy(s.mean, s.n as real, S);
    assert s.n as real * s.mean * s.mean == S * s.mean;
  }

  lemma {:induction false} SumOfPermutation(g: seq<real>, h: seq<real>)
    requires multiset(g) == multiset(h)
    ensures Sum(g) == Sum(h) && SumOfSquares(g) == SumOfSquares(h) && |g| == |h|
  {
    assert |g| == |multiset(g)| == |multiset(h)| == |h|;
    if g != [] {
      var i := RemoveLastOf(g, h);
      SumOfPermutation(Front(g), h[..i] + h[i + 1..]);
      SumWithout(h, i);
    }
  }

  lemma {:induction false} SumWithout(h: seq<real>, i: nat)
    requires i < |h|
    ensures Sum(h) == Sum(h[..i] + h[i + 1..]) + h[i]
    ensures SumOfSquares(h) == SumOfSquares(h[..i] + h[i + 1..]) + Square(h[i])
  {
    if i == |h| - 1 {
      assert h[..i] + h[i + 1..] == Front(h);
    } else {
      SumWithout(Front(h), i);
      var rest := h[..i] + h[i + 1..];
      assert Front(rest) == Front(h)[..i] + Front(h)[i + 1..];
      assert Last(rest) == Last(h);
    }
  }

  // The statistics do not depend on the order in which values were finalized.
  lemma WelfordOrderIndependent(g: seq<real>, h: seq<real>)
    requires multiset(g) == multiset(h)
    ensures Welford(g) == Welford(h)
  {
    SumOfPermutation(g, h);
    WelfordSums(g);
    WelfordSums(h);
    if g != [] {
      StatsDetermined(Welford(g), Welford(h), SumOfSquares(g), Sum(g));
    }
  }

  lemma StatsDetermined(s: Stats, t: Stats, Q: real, S: real)
    requires s.n == t.n > 0 && Tracks(s, Q, S) && Tracks(t, Q, S)
    ensures s == t
  {
    CancelFactor(s.mean, t.mean, s.n as real);
  }

  function Zeros(k: nat): seq<real> {
    seq(k, _ => 0.0)
  }

  // t is s after k empty windows: the mean is diluted, the spread grows by the dilution.
  ghost predicate Diluted(s: Stats, t: Stats, k: nat) {
    var n, total := s.n as real, (s.n + k) as real;
    && t.n == s.n + k
    && t.mean * total == s.mean * n
    && (t.m2 - s.m2) * total == s.mean * s.mean * n * k as real
    && (s.n + k == 0 ==> t == s)
  }

  lemma {:induction false} GapDilutes(s: Stats, k: nat)
    ensures Diluted(s, WelfordFrom(s, Zeros(k)), k)
  {
    if k > 0 {
      assert Front(Zeros(k)) == Zeros(k - 1) && Last(Zeros(k)) == 0.0;
      GapDilutes(s, k - 1);
      DilutionStep(s, WelfordFrom(s, Zeros(k - 1)), k - 1);
    }
  }

  lemma DilutionStep(s: Stats, p: Stats, j: nat)
    requires Diluted(s, p, j)
    ensures Diluted(s, UpdateWelford(p, 0.0), j + 1)
  {
    var t := UpdateWelford(p, 0.0);
    var a, b := (s.n + j) as real, (s.n + j + 1) as real;
    assert b == a + 1.0;
    var q := (0.0 - p.mean) / b;
    assert q * b == 0.0 - p.mean;
    assert t.mean == p.mean + q;
    assert t.mean * b == p.mean * a by { assert (p.mean + q) * b == p.mean * a + p.mean + q * b; }
    SpreadStep(p.m2 - s.m2, p.mean, t.mean, s.mean, s.n as real, j as real, a, b);
  }

  lemma SpreadStep(d: real, pm: real, tm: real, m: real, n: real, j: real, a: real, b: real)
    requires b == a + 1.0 && a == n + j && n >= 0.0 && j >= 0.0
    requires pm * a == m * n && d * a == m * m * n * j && tm * b == m * n
    requires a == 0.0 ==> d == 0.0
    ensures (d + (0.0 - pm) * (0.0 - tm)) * b == m * m * n * (j + 1.0)
  {
    var x := d + (0.0 - pm) * (0.0 - tm);
    if a == 0.0 {
      assert tm == 0.0;
    } else {
      calc {
        x * b * a;
        (d * a) * b + (pm * a) * (tm * b);
        (m * m * n * j) * b + (m * n) * (m * n);
        { SpreadFactor(m, n, j, a, b); }
        m * m * n * (j + 1.0) * a;
      }
      CancelFactor(x * b, m * m * n * (j + 1.0), a);
    }
  }

  lemma SpreadFactor(m: real, n: real, j: real, a: real, b: real)
    requires b == a + 1.0 && a == n + j
    ensures (m * m * n * j) * b + (m * n) * (m * n) == m * m * n * (j + 1.0) * a
  {
    var c := m * m * n;
    assert (m * n) * (m * n) == c * n;
    assert c * j * b == c * (j * b);
    assert c * (j * b) + c * n == c * (j * b + n);
    assert j * b + n == (j + 1.0) * a by {
      assert j * b == j * a + j;
      assert (j + 1.0) * a == j * a + a;
    }
    assert c * ((j + 1.0) * a) == c * (j + 1.0) * a;
  }

  // Rolling over k empty windows one by one has a closed form.
  lemma GapClosedForm(s: Stats, k: nat)
    requires s.n + k > 0
    ensures var t, n, total := WelfordFrom(s, Zeros(k)), s.n as real, (s.n + k) as real;
      t == Stats(s.mean * n / total, s.m2 + s.mean * s.mean * n * k as real / total, s.n + k)
  {
    GapDilutes(s, k);
    DilutedMean(s, WelfordFrom(s, Zeros(k)), k);
    DilutedSpread(s, WelfordFrom(s, Zeros(k)), k);
  }

  lemma DilutedMean(s: Stats, t: Stats, k: nat)
    requires Diluted(s, t, k) && s.n + k > 0
    ensures t.mean == s.mean * s.n as real / (s.n + k) as real
  {
    DivideBy(t.mean, (s.n + k) as real, s.mean * s.n as real);
  }

  lemma DilutedSpread(s: Stats, t: Stats, k: nat)
    requires Diluted(s, t, k) && s.n + k > 0
    ensures t.m2 == s.m2 + s.mean * s.mean * s.n as real * k as real / (s.n + k) as real
  {
    var d, total, y := t.m2 - s.m2, (s.n + k) as real, s.mean * s.mean * s.n as real * k as real;
    assert d * total == y;
    DivideBy(d, total, y);
  }

  lemma CancelFactor(x: real, y: real, a: real)
    requires a != 0.0 && x * a == y * a
    ensures x == y
  {
    assert (x - y) * a == 0.0;
  }

  lemma DivideBy(x: real, b: real, y: real)
    requires b != 0.0 && x * b == y
    ensures x == y / b
  {
  }

  function Variance(s: Stats): real {
    if s.n < 2 then 0.0
    else var v := s.m2 / (s.n - 1) as real; if v < 0.0 then 0.0 else v
  }

  // ---- scores ------------------------------------------------------------------

  datatype ZScore = Finite(z: real) | Infinite

  datatype Score = Score(score: real, severity: int)

  const STD_FLOOR: real := 0.000000001
  const BASE_SCORE: real := 0.4

  function ZScoreOf(value: real, mean: real, std: real): ZScore {
    if std <= STD_FLOOR then
      if value <= mean then Finite(0.0) else if value > 0.0 then Infinite else Finite(0.0)
    else
      Finite((value - mean) / std)
  }

  function Max(a: real, b: real): real { if a < b then b else a }

  function Min(a: real, b: real): real { if b < a then b else a }

  function SeverityForScore(score: real): int {
    if score >= 0.85 then 4 else if score >= 0.7 then 3 else if score >= 0.5 then 2 else 1
  }

  function DetectionFromZ(z: ZScore, trigger: real, cap: real): Option<Score> {
    if z.Finite? && z.z < trigger then None
    else
      var capped := if z.Infinite? then cap else Min(z.z, cap);
      var score := BASE_SCORE + (1.0 - BASE_SCORE) * ((capped - trigger) / Max(cap - trigger, STD_FLOOR));
      Some(Score(score, SeverityForScore(score)))
  }

  // A finite score lies on the line from 0.4 at the trigger to 1 at the cap, and stays at 1 from there
  // on; an infinite one is at the cap.
  lemma ScoreIsLinear(z: ZScore, trigger: real, cap: real)
    requires trigger + 0.000000001 <= cap
    ensures DetectionFromZ(z, trigger, cap) == None <==> z.Finite? && z.z < trigger
    ensures DetectionFromZ(z, trigger, cap).Some? ==>
      var s := DetectionFromZ(z, trigger, cap).value.score;
      if z.Infinite? || z.z >= cap then s == 1.0 else (s - 0.4) * (cap - trigger) == 0.6 * (z.z - trigger)
  {
    if z.Infinite? || z.z >= trigger {
      var capped := if z.Infinite? then cap else Min(z.z, cap);
      OnTheLine(capped - trigger, cap - trigger);
    }
  }

  lemma OnTheLine(x: real, d: real)
    requires d > 0.0
    ensures (0.4 + 0.6 * (x / d) - 0.4) * d == 0.6 * x && (x == d ==> 0.4 + 0.6 * (x / d) == 1.0)
  {
    assert x / d * d == x;
  }

  // The severity steps: low, medium from 0.5, high from 0.7, critical from 0.85.
  lemma SeveritySteps(z: ZScore, trigger: real, cap: real, observed: nat, threshold: nat)
    ensures DetectionFromZ(z, trigger, cap).Some? ==> Severe(DetectionFromZ(z, trigger, cap).value)
    ensures Severe(ScoreDistinctPorts(observed, threshold))
  {
  }

  predicate Severe(s: Score) {
    && (s.severity == 4 <==> s.score >= 0.85) && (s.severity == 3 <==> 0.7 <= s.score < 0.85)
    && (s.severity == 2 <==> 0.5 <= s.score < 0.7) && (s.severity == 1 <==> s.score < 0.5)
  }

  lemma ScaleOrder(x: real, y: real, d: real)
    requires d > 0.0
    ensures x <= y <==> x * d <= y * d
  {
    assert (y - x) * d == y * d - x * d;
    assert x <= y ==> (y - x) * d >= 0.0;
    assert x > y ==> (y - x) * d < 0.0;
  }

  lemma RatioOrder(a: real, b: real, d: real)
    requires d > 0.0 && a <= b
    ensures a / d <= b / d
  {
    assert a / d * d == a && b / d * d == b;
    ScaleOrder(a / d, b / d, d);
  }

  // How far past the trigger a capped score reaches, as a fraction of the scale.
  lemma ScaleRange(capped: real, trigger: real, cap: real)
    requires trigger <= capped <= cap || cap == capped < trigger
    ensures 0.0 <= (capped - trigger) / Max(cap - trigger, STD_FLOOR) <= 1.0 <==> trigger <= cap
  {
    var d := Max(cap - trigger, STD_FLOOR);
    var r := (capped - trigger) / d;
    assert r * d == capped - trigger;
    ScaleOrder(0.0, r, d);
    ScaleOrder(r, 1.0, d);
  }

  // A triggered score lies in [0.4, 1] exactly when the cap is not below the trigger,
  // which the settings do not enforce.
  lemma ScoreRange(z: ZScore, trigger: real, cap: real)
    requires DetectionFromZ(z, trigger, cap).Some?
    ensures BASE_SCORE <= DetectionFromZ(z, trigger, cap).value.score <= 1.0 <==> trigger <= cap
  {
    ScaleRange(if z.Infinite? then cap else Min(z.z, cap), trigger, cap);
  }

  ghost predicate AtMost(y: ZScore, z: ZScore) {
    z.Infinite? || (y.Finite? && y.z <= z.z)
  }

  // A larger deviation never scores lower, and nothing above a trigger is dropped.
  lemma ScoreMonotone(y: ZScore, z: ZScore, trigger: real, cap: real)
    requires AtMost(y, z) && DetectionFromZ(y, trigger, cap).Some?
    ensures DetectionFromZ(z, trigger, cap).Some?
    ensures DetectionFromZ(y, trigger, cap).value.score <= DetectionFromZ(z, trigger, cap).value.score
    ensures DetectionFromZ(y, trigger, cap).value.severity <= DetectionFromZ(z, trigger, cap).value.severity
  {
    var cy := if y.Infinite? then cap else Min(y.z, cap);
    var cz := if z.Infinite? then cap else Min(z.z, cap);
    RatioOrder(cy - trigger, cz - trigger, Max(cap - trigger, STD_FLOOR));
  }

  // The z-test without a square root, on the variance.
  predicate Surprising(value: real, mean: real, variance: real, trigger: real) {
    if variance <= STD_FLOOR * STD_FLOOR then value > mean && value > 0.0
    else value >= mean && Square(value - mean) >= Square(trigger) * variance
  }

  lemma SquareOrder(a: real, b: real)
    requires a >= 0.0 && b >= 0.0
    ensures a <= b <==> a * a <= b * b
  {
    assert b * b - a * a == (b - a) * (b + a);
    if a + b > 0.0 {
      ScaleOrder(0.0, b - a, b + a);
    }
  }

  // For the standard deviation that belongs to the variance the two forms of the test agree.
  lemma SurprisingIsTriggered(value: real, mean: real, std: real, trigger: real, cap: real)
    requires std >= 0.0 && trigger > 0.0
    ensures Surprising(value, mean, std * std, trigger)
       <==> DetectionFromZ(ZScoreOf(value, mean, std), trigger, cap).Some?
  {
    SquareOrder(std, STD_FLOOR);
    if std > STD_FLOOR {
      var z := (value - mean) / std;
      assert z * std == value - mean;
      TriggerScales(z, std, trigger);
      if value >= mean {
        assert trigger * std >= 0.0;
        SquareOrder(trigger * std, value - mean);
        assert (trigger * std) * (trigger * std) == Square(trigger) * (std * std);
      }
    }
  }

  lemma TriggerScales(z: real, std: real, trigger: real)
    requires std > 0.0 && trigger > 0.0
    ensures z >= trigger <==> z * std >= trigger * std
    ensures z >= trigger ==> z * std > 0.0
  {
    if z >= trigger {
      assert (z - trigger) * std >= 0.0;
      assert trigger * std > 0.0;
    } else {
      assert (trigger - z) * std > 0.0;
    }
  }

  function ScoreDistinctPorts(observed: nat, threshold: nat): Score {
    var ratio := observed as real / (if threshold < 1 then 1 else threshold) as real;
    var score := Min(1.0, 0.5 + 0.5 * (ratio - 1.0));
    Score(score, SeverityForScore(score))
  }

  lemma RatioFacts(o: real, t: real)
    requires 0.0 < t < o
    ensures o / t > 1.0 && (o / t >= 2.0 <==> o >= t + t)
  {
    var r := o / t;
    assert r * t == o;
    assert r > 1.0 by {
      ScaleOrder(r, 1.0, t);
    }
    var two := 2.0;
    assert two * t == t + t;
    ScaleOrder(two, r, t);
    assert two <= r <==> t + t <= o;
  }

  // Breadth above the threshold scores between one half and one, reaching one at twice the threshold.
  lemma PortScoreRange(observed: nat, threshold: nat)
    requires 0 < threshold < observed
    ensures var s := ScoreDistinctPorts(observed, threshold);
      0.5 < s.score <= 1.0 && s.severity >= 2 && (s.score == 1.0 <==> observed >= threshold + threshold)
  {
    RatioFacts(observed as real, threshold as real);
  }

  // Up to the double of the threshold, taken as 1 when it is 0, the score is half the ratio of the ports
  // to it, and 1 from there on.
  lemma PortScoreIsLinear(observed: nat, threshold: nat)
    ensures var s, t := ScoreDistinctPorts(observed, threshold).score, if threshold == 0 then 1 else threshold;
      if observed >= 2 * t then s == 1.0 else s * (2 * t) as real == observed as real
  {
    var o, t := observed as real, (if threshold == 0 then 1 else threshold) as real;
    assert o / t * t == o;
    ScaleOrder(o / t, 2.0, t);
    ScaleOrder(2.0, o / t, t);
    HalfRatio(o / t, o, t);
  }

  lemma HalfRatio(r: real, o: real, t: real)
    requires r * t == o
    ensures (0.5 + 0.5 * (r - 1.0)) * (2.0 * t) == o
  {
  }

  // ---- per-(entity, metric) streaming state ------------------------------------

  // Detector bookkeeping for the live bucket: distinct ports and the fired flag.
  datatype Extra = Extra(ports: set<int>, fired: bool)

  const NO_EXTRA := Extra({}, false)

  // The persisted value of a metric state.
  datatype Metric = Metric(start: Option<nat>, value: real, extra: Extra, stats: Stats)

  const NEW_METRIC := Metric(None, 0.0, NO_EXTRA, NO_HISTORY)

  datatype Detection = Detection(eventId: nat, entityId: nat, detector: string, detectorVersion: int, details: Details)

  datatype Details =
    | RateDetails(bucketStart: nat, observed: real, history: Stats)
    | PortDetails(bucketStart: nat, distinct: nat, threshold: nat, ports: seq<int>, score: Score)

  // What one event does to a metric: the next state and at most one detection.
  datatype Outcome = Outcome(metric: Metric, detection: Option<Detection>)

  function Listed(d: Option<Detection>): seq<Detection> {
    if d.Some? then [d.value] else []
  }

  // Closes the live bucket: its value joins the history and the next bucket starts empty.
  function Finalize(m: Metric, window: nat): Metric
    requires window > 0 && m.start.Some?
  {
    Metric(Some(m.start.value + Span(window)), 0.0, NO_EXTRA, UpdateWelford(m.stats, m.value))
  }

  // Advances a metric to the bucket that contains ts.
  function Roll(m: Metric, ts: nat, window: nat): Metric
    requires window > 0
    decreases if m.start.Some? && m.start.value <= ts then ts - m.start.value else 0
  {
    if m.start.None? then m.(start := Some(BucketStartFor(ts, window)), value := 0.0, extra := NO_EXTRA)
    else if m.start.value + Span(window) <= ts then Roll(Finalize(m, window), ts, window)
    else m
  }

  // The values finalized on the way.
  function RolledValues(m: Metric, ts: nat, window: nat): seq<real>
    requires window > 0
    decreases if m.start.Some? && m.start.value <= ts then ts - m.start.value else 0
  {
    if m.start.None? then []
    else if m.start.value + Span(window) <= ts then [m.value] + RolledValues(Finalize(m, window), ts, window)
    else []
  }

  // Rolling from window k to the window of ts finalizes the live value once and then one
  // zero for every window without events.
  lemma {:induction false} RollReaches(m: Metric, k: nat, ts: nat, window: nat)
    requires window > 0 && m.start == Some(k * Span(window)) && k <= Slot(ts, window)
    ensures var to := Slot(ts, window);
      && RolledValues(m, ts, window) == (if k == to then [] else [m.value] + Zeros(to - k - 1))
      && Roll(m, ts, window) ==
         if k == to then m
         else Metric(Some(to * Span(window)), 0.0, NO_EXTRA, WelfordFrom(m.stats, RolledValues(m, ts, window)))
    decreases Slot(ts, window) - k
  {
    hide Slot, Span, UpdateWelford, WelfordFrom, Zeros;
    var to := Slot(ts, window);
    NextWindowReached(k, ts, window);
    if k < to {
      var next := Finalize(m, window);
      NextSlotStart(k, window);
      RollReaches(next, k + 1, ts, window);
      FoldFirst(m.stats, m.value, RolledValues(next, ts, window));
      NextZero(to - k - 1);
    }
  }

  lemma NextSlotStart(k: nat, window: nat)
    requires window > 0
    ensures k * Span(window) + Span(window) == (k + 1) * Span(window)
  {
  }

  lemma FoldFirst(s: Stats, x: real, h: seq<real>)
    ensures WelfordFrom(s, [x] + h) == WelfordFrom(UpdateWelford(s, x), h)
    ensures WelfordFrom(s, [x] + []) == UpdateWelford(s, x)
  {
    hide UpdateWelford;
    assert Front([x]) == [] && [x] + [] == [x];
    WelfordAppend(s, [x], h);
  }

  lemma NextZero(k: nat)
    ensures k > 0 ==> [0.0] + Zeros(k - 1) == Zeros(k)
    ensures Zeros(0) == []
  {
  }

  class MetricState {
    const entityId: nat
    const windowSeconds: nat
    var curBucketStart: Option<nat>
    var curValue: real
    var curExtra: Extra
    var mean: real
    var m2: real
    var n: nat

    ghost function View(): Metric
      reads this
    {
      Metric(curBucketStart, curValue, curExtra, Stats(mean, m2, n))
    }

    constructor (entityId: nat, windowSeconds: nat, row: Metric)
      ensures this.entityId == entityId && this.windowSeconds == windowSeconds
      ensures View() == row
    {
      this.entityId := entityId;
      this.windowSeconds := windowSeconds;
      curBucketStart, curValue, curExtra := row.start, row.value, row.extra;
      mean, m2, n := row.stats.mean, row.stats.m2, row.stats.n;
    }

    // Advances the tumbling buckets up to ts and returns the values it finalized.
    method RollBuckets(ts: nat) returns (finalized: seq<real>)
      requires windowSeconds > 0
      modifies this
      ensures View() == Roll(old(View()), ts, windowSeconds)
      ensures finalized == RolledValues(old(View()), ts, windowSeconds)
    {
      hide UpdateWelford, BucketStartFor;
      finalized := [];
      var window := windowSeconds * MICROS;
      if curBucketStart.None? {
        curBucketStart := Some(BucketStartFor(ts, windowSeconds));
        curValue := 0.0;
        curExtra := NO_EXTRA;
        return;
      }
      while curBucketStart.value + window <= ts
        invariant curBucketStart.Some?
        invariant Roll(View(), ts, windowSeconds) == Roll(old(View()), ts, windowSeconds)
        invariant finalized + RolledValues(View(), ts, windowSeconds) == RolledValues(old(View()), ts, windowSeconds)
        decreases ts - curBucketStart.value
      {
        finalized := finalized + [curValue];
        var s := UpdateWelford(Stats(mean, m2, n), curValue);
        mean, m2, n := s.mean, s.m2, s.n;
        curBucketStart := Some(curBucketStart.value + window);
        curValue := 0.0;
        curExtra := NO_EXTRA;
      }
    }
  }
}
