/**
 Preparing a scenario from CSV exports: per-class reservoirs, a per-file budget, a stable sort by
 time, and one line for each event id.

 Upper-casing and stripping follow the ASCII rules.
 */
module PrepareCicids {
  import opened Common
  import opened Reservoir

  const MAX_ATTACK_RESERVOIR := 200_000
  const MAX_BENIGN_RESERVOIR := 400_000

  // A CSV row: its label cell, its parsed timestamp, and the event id of its flow when both
  // addresses are present.
  datatype RawRow = RawRow(cell: string, ts: Option<int>, flow: Option<string>)

  // A re-keyed row: the label is now "attack" or "benign".
  datatype LabeledRow = LabeledRow(attack: bool, ts: Option<int>, flow: Option<string>)

  datatype ScenarioEvent = ScenarioEvent(eventId: string, ts: int, attack: bool)

  // ---- labels ----------------------------------------------------------------------------------

  predicate IsSpace(c: char) {
    c == ' ' || '\t' <= c <= '\r' || '\U{1c}' <= c <= '\U{1f}'
  }

  function StripLeft(s: string): string {
    if s != "" && IsSpace(s[0]) then StripLeft(s[1..]) else s
  }

  function StripRight(s: string): string {
    if s != "" && IsSpace(Last(s)) then StripRight(Front(s)) else s
  }

  function Strip(s: string): string {
    StripRight(StripLeft(s))
  }

  function UpperChar(c: char): char {
    if 'a' <= c <= 'z' then (c as int - 32) as char else c
  }

  function Upper(s: string): (u: string)
    ensures |u| == |s| && forall i :: 0 <= i < |s| ==> u[i] == UpperChar(s[i])
  {
    seq(|s|, i requires 0 <= i < |s| => UpperChar(s[i]))
  }

  predicate IsBenign(text: string) {
    Upper(text) == "BENIGN"
  }

  // The class under which a row is sampled.
  predicate SampledAsAttack(r: RawRow) {
    !IsBenign(Strip(r.cell))
  }

  // The class written to the scenario, taken from the label as it stands.
  function Normalized(r: RawRow): LabeledRow {
    LabeledRow(!IsBenign(r.cell), r.ts, r.flow)
  }

  lemma {:induction false} StripLeftKeeps(s: string)
    ensures |StripLeft(s)| <= |s| && (StripLeft(s) != s ==> s != "" && IsSpace(s[0]))
    ensures StripLeft(s) == s[|s| - |StripLeft(s)|..]
  {
    if s != "" && IsSpace(s[0]) {
      StripLeftKeeps(s[1..]);
    }
  }

  lemma {:induction false} StripRightKeeps(s: string)
    ensures |StripRight(s)| <= |s| && (StripRight(s) != s ==> s != "" && IsSpace(Last(s)))
  {
    if s != "" && IsSpace(Last(s)) {
      StripRightKeeps(Front(s));
    }
  }

  lemma PaddedIsNotBenign(text: string)
    requires Strip(text) != text
    ensures !IsBenign(text)
  {
    hide StripLeft, StripRight;
    StripLeftKeeps(text);
    StripRightKeeps(StripLeft(text));
    if StripLeft(text) != text {
      assert Upper(text)[0] == text[0];
    } else {
      assert Upper(text)[|text| - 1] == Last(text);
    }
  }

  // The scenario's class is the sampled class exactly unless a benign label carries padding: such
  // a row is sampled as benign and written as an attack.
  lemma ClassIsKeptIff(r: RawRow)
    ensures Normalized(r).attack == SampledAsAttack(r) <==> (SampledAsAttack(r) || Strip(r.cell) == r.cell)
    ensures Normalized(r).ts == r.ts && Normalized(r).flow == r.flow && Normalized(r).attack == !IsBenign(r.cell)
  {
    if Strip(r.cell) != r.cell {
      PaddedIsNotBenign(r.cell);
    }
  }

  // Such a row: sampled as benign, written as an attack.
  lemma PaddedBenignBecomesAttack()
    ensures var r := RawRow(" BENIGN", Some(0), None); !SampledAsAttack(r) && Normalized(r).attack
  {
    var text := " BENIGN";
    assert text[1..] == "BENIGN";
    assert StripLeft(text) == "BENIGN" && StripRight("BENIGN") == "BENIGN";
    assert Upper("BENIGN") == "BENIGN";
    assert Upper(text)[0] == ' ';
  }

  // ---- sampling one file ---------------------------------------------------------------------------

  predicate Usable(r: RawRow) {
    Strip(r.cell) != "" && r.ts.Some?
  }

  function RowsOfClass(rows: seq<RawRow>, attack: bool): seq<RawRow> {
    if rows == [] then []
    else
      RowsOfClass(Front(rows), attack)
      + if Usable(Last(rows)) && SampledAsAttack(Last(rows)) == attack then [Last(rows)] else []
  }

  function BadTimestamps(rows: seq<RawRow>): nat {
    if rows == [] then 0
    else BadTimestamps(Front(rows)) + if Strip(Last(rows).cell) != "" && Last(rows).ts == None then 1 else 0
  }

  function Bump(counts: map<string, nat>, text: string): map<string, nat> {
    counts[text := (if text in counts then counts[text] else 0) + 1]
  }

  // How often each label occurs, rows without a usable timestamp included.
  function LabelCounts(rows: seq<RawRow>): map<string, nat> {
    if rows == [] then map[]
    else
      var before, text := LabelCounts(Front(rows)), Strip(Last(rows).cell);
      if text == "" then before else Bump(before, text)
  }

  function CountOf(rows: seq<RawRow>, text: string): nat {
    if rows == [] then 0 else CountOf(Front(rows), text) + if Strip(Last(rows).cell) == text then 1 else 0
  }

  // The counter lists exactly the occurring labels, each with its number of rows.
  lemma {:induction false} LabelCountsAreExact(rows: seq<RawRow>, text: string)
    requires text != ""
    ensures var counts := LabelCounts(rows);
      (if text in counts then counts[text] else 0) == CountOf(rows, text) && (text in counts ==> counts[text] > 0)
  {
    hide Strip;
    if rows != [] {
      LabelCountsAreExact(Front(rows), text);
    }
  }

  function NormalizedAll(rows: seq<RawRow>): seq<LabeledRow> {
    seq(|rows|, i requires 0 <= i < |rows| => Normalized(rows[i]))
  }

  // The numbers of a random source: the one at a position, 0 when it has run out, and those behind.
  function NumberAt(numbers: seq<nat>, i: nat): nat {
    if i < |numbers| then numbers[i] else 0
  }

  function Without(numbers: seq<nat>, n: nat): seq<nat> {
    if n <= |numbers| then numbers[n..] else []
  }

  // How many numbers the two reservoirs have drawn.
  ghost function DrawnBy(rows: seq<RawRow>): nat {
    Draws(|RowsOfClass(rows, true)|, 200_000) + Draws(|RowsOfClass(rows, false)|, 400_000)
  }

  // The draws of one class: each row of it that meets a full reservoir draws the next number, whichever
  // class drew the one before, uniformly among the positions of its class so far.
  ghost function DrawsFor(rows: seq<RawRow>, numbers: seq<nat>, attack: bool): seq<nat> {
    if rows == [] then []
    else
      var seen := |RowsOfClass(rows, attack)|;
      DrawsFor(Front(rows), numbers, attack)
      + if Usable(Last(rows)) && SampledAsAttack(Last(rows)) == attack && seen > (if attack then 200_000 else 400_000)
        then [NumberAt(numbers, DrawnBy(Front(rows))) % seen] else []
  }

  // A seeded source of random numbers.
  class Random {
    var numbers: seq<nat>

    constructor (numbers: seq<nat>)
      ensures this.numbers == numbers
    {
      this.numbers := numbers;
    }

    // Uniform in [0, hi].
    method RandInt(hi: nat) returns (j: nat)
      modifies this
      ensures j == NumberAt(old(numbers), 0) % (hi + 1) && numbers == Without(old(numbers), 1)
    {
      j := 0;
      if numbers != [] {
        j := numbers[0] % (hi + 1);
        numbers := numbers[1..];
      }
    }
  }

  datatype Stats = Stats(seenAttack: nat, seenBenign: nat, skippedTs: nat, labelCounts: map<string, nat>)

  // One class's reservoir after some rows: what it holds and the draws that led there.
  ghost predicate Sampled(seen: seq<RawRow>, cap: nat, draws: seq<nat>, kept: seq<RawRow>) {
    Possible(|seen|, cap, draws) && kept == Sample(seen, cap, draws)
  }

  method OfferRow(kept: seq<RawRow>, cap: nat, ghost seen: seq<RawRow>, count: nat, row: RawRow, rng: Random,
                  ghost draws: seq<nat>)
    returns (after: seq<RawRow>, ghost more: seq<nat>)
    requires Sampled(seen, cap, draws, kept) && count == |seen| + 1
    modifies rng
    ensures Sampled(seen + [row], cap, more, after)
    ensures if |seen| < cap then more == draws && rng.numbers == old(rng.numbers)
            else more == draws + [NumberAt(old(rng.numbers), 0) % count] && rng.numbers == Without(old(rng.numbers), 1)
  {
    ghost var all := seen + [row];
    assert Front(all) == seen && Last(all) == row;
    SampleIsPositions(seen, cap, draws);
    KeepsDistinctRows(|seen|, cap, draws);
    after, more := kept, draws;
    if |kept| < cap {
      after := after + [row];
    } else {
      var j := rng.RandInt(count - 1);
      if j < cap {
        after := after[j := row];
      }
      more := draws + [j];
      assert Front(more) == draws && Last(more) == j;
    }
  }

  // Streams one file; each class is a sample of its usable rows under some possible draws.
  method ReadRows(rows: seq<RawRow>, rng: Random)
    returns (kept: seq<LabeledRow>, stats: Stats, ghost attacks: seq<RawRow>, ghost benign: seq<RawRow>,
             ghost drawsA: seq<nat>, ghost drawsB: seq<nat>)
    modifies rng
    ensures Sampled(RowsOfClass(rows, true), 200_000, drawsA, attacks)
    ensures Sampled(RowsOfClass(rows, false), 400_000, drawsB, benign)
    ensures drawsA == DrawsFor(rows, old(rng.numbers), true) && drawsB == DrawsFor(rows, old(rng.numbers), false)
    ensures rng.numbers == Without(old(rng.numbers), DrawnBy(rows))
    ensures kept == NormalizedAll(attacks + benign)
    ensures stats == Stats(|RowsOfClass(rows, true)|, |RowsOfClass(rows, false)|, BadTimestamps(rows),
                           LabelCounts(rows))
  {
    hide Sampled, Strip, IsBenign, NumberAt, Without, DrawsFor, RowsOfClass, BadTimestamps, LabelCounts;
    ghost var numbers := rng.numbers;
    WithoutNone(numbers);
    NothingRead(rows, numbers);
    var attackRows: seq<RawRow>, benignRows: seq<RawRow> := [], [];
    var seenAttack, seenBenign, skipped := 0, 0, 0;
    var labelCounts: map<string, nat> := map[];
    drawsA, drawsB := [], [];
    NothingSampled(MAX_ATTACK_RESERVOIR);
    NothingSampled(MAX_BENIGN_RESERVOIR);
    for i := 0 to |rows|
      invariant Sampled(RowsOfClass(rows[..i], true), MAX_ATTACK_RESERVOIR, drawsA, attackRows)
      invariant Sampled(RowsOfClass(rows[..i], false), MAX_BENIGN_RESERVOIR, drawsB, benignRows)
      invariant seenAttack == |RowsOfClass(rows[..i], true)| && seenBenign == |RowsOfClass(rows[..i], false)|
      invariant drawsA == DrawsFor(rows[..i], numbers, true) && drawsB == DrawsFor(rows[..i], numbers, false)
      invariant rng.numbers == Without(numbers, DrawnBy(rows[..i]))
      invariant skipped == BadTimestamps(rows[..i]) && labelCounts == LabelCounts(rows[..i])
    {
      ghost var before := rows[..i];
      RowRead(rows, i, numbers, true);
      RowRead(rows, i, numbers, false);
      CountersNext(rows, i);
      ghost var oldA, oldB := RowsOfClass(before, true), RowsOfClass(before, false);
      assert oldA + [] == oldA && oldB + [] == oldB && drawsA + [] == drawsA && drawsB + [] == drawsB;
      WithoutNext(numbers, DrawnBy(before));
      var row := rows[i];
      var text := Strip(row.cell);
      if text == "" {
        continue;
      }
      labelCounts := Bump(labelCounts, text);
      if row.ts == None {
        skipped := skipped + 1;
        continue;
      }
      if !IsBenign(text) {
        seenAttack := seenAttack + 1;
        attackRows, drawsA := OfferRow(attackRows, MAX_ATTACK_RESERVOIR, oldA, seenAttack, row, rng, drawsA);
      } else {
        seenBenign := seenBenign + 1;
        benignRows, drawsB := OfferRow(benignRows, MAX_BENIGN_RESERVOIR, oldB, seenBenign, row, rng, drawsB);
      }
    }
    assert rows[..|rows|] == rows;
    attacks, benign := attackRows, benignRows;
    kept := NormalizedAll(attackRows + benignRows);
    stats := Stats(seenAttack, seenBenign, skipped, labelCounts);
  }

  lemma WithoutNone(numbers: seq<nat>)
    ensures Without(numbers, 0) == numbers
  {
  }

  lemma WithoutNext(numbers: seq<nat>, n: nat)
    ensures Without(Without(numbers, n), 1) == Without(numbers, n + 1)
    ensures NumberAt(Without(numbers, n), 0) == NumberAt(numbers, n)
  {
  }

  lemma ClassNext(rows: seq<RawRow>, n: nat, attack: bool)
    requires n < |rows|
    ensures RowsOfClass(rows[..n + 1], attack)
         == RowsOfClass(rows[..n], attack)
            + if Usable(rows[n]) && SampledAsAttack(rows[n]) == attack then [rows[n]] else []
  {
    hide Usable, SampledAsAttack;
    NextPrefix(rows, n);
  }

  // One more row of a file: a new member of its class, which draws when it meets a full reservoir, or
  // a row that counts as skipped, or one without a label.
  lemma RowRead(rows: seq<RawRow>, i: nat, numbers: seq<nat>, attack: bool)
    requires i < |rows|
    ensures var f, g, row, seen := rows[..i], rows[..i + 1], rows[i], |RowsOfClass(rows[..i], attack)|;
      var joins := Strip(row.cell) != "" && row.ts.Some? && IsBenign(Strip(row.cell)) == !attack;
      && RowsOfClass(g, attack) == RowsOfClass(f, attack) + (if joins then [row] else [])
      && DrawsFor(g, numbers, attack)
         == DrawsFor(f, numbers, attack) + (if joins && seen >= (if attack then 200_000 else 400_000)
                                            then [NumberAt(numbers, DrawnBy(f)) % (seen + 1)] else [])
  {
    hide Strip, IsBenign, NumberAt, DrawnBy;
    NextPrefix(rows, i);
    ClassNext(rows, i, attack);
  }

  lemma CountersNext(rows: seq<RawRow>, i: nat)
    requires i < |rows|
    ensures var f, g, row := rows[..i], rows[..i + 1], rows[i];
      && BadTimestamps(g) == BadTimestamps(f) + (if Strip(row.cell) != "" && row.ts == None then 1 else 0)
      && LabelCounts(g)
         == (if Strip(row.cell) == "" then LabelCounts(f) else Bump(LabelCounts(f), Strip(row.cell)))
  {
    hide Strip, Bump;
    NextPrefix(rows, i);
  }

  lemma NothingRead(rows: seq<RawRow>, numbers: seq<nat>)
    ensures RowsOfClass(rows[..0], true) == [] && RowsOfClass(rows[..0], false) == []
    ensures DrawsFor(rows[..0], numbers, true) == [] && DrawsFor(rows[..0], numbers, false) == []
    ensures BadTimestamps(rows[..0]) == 0 && LabelCounts(rows[..0]) == map[]
  {
  }

  lemma NothingSampled(cap: nat)
    ensures Sampled([], cap, [], [])
  {
  }

  // ---- the budget ----------------------------------------------------------------------------------

  function OfClass(rows: seq<LabeledRow>, attack: bool): seq<LabeledRow> {
    if rows == [] then []
    else OfClass(Front(rows), attack) + if Last(rows).attack == attack then [Last(rows)] else []
  }

  function AttackBudget(maxEvents: nat): nat {
    maxEvents * 6 / 10
  }

  // Attacks up to their share first, benign rows for the remainder.
  function Trimmed(rows: seq<LabeledRow>, maxEvents: nat): seq<LabeledRow> {
    var attacks := Limit(OfClass(rows, true), AttackBudget(maxEvents));
    attacks + Limit(OfClass(rows, false), maxEvents - |attacks|)
  }

  lemma {:induction false} AttacksStayAttacks(rows: seq<RawRow>)
    requires forall i :: 0 <= i < |rows| ==> SampledAsAttack(rows[i])
    ensures OfClass(NormalizedAll(rows), true) == NormalizedAll(rows)
  {
    hide IsBenign, Strip;
    if rows != [] {
      var f := Front(rows);
      AttacksStayAttacks(f);
      ClassIsKeptIff(Last(rows));
      assert Front(NormalizedAll(rows)) == NormalizedAll(f) && Last(NormalizedAll(rows)) == Normalized(Last(rows));
    }
  }

  lemma {:induction false} OfClassAppend(a: seq<LabeledRow>, b: seq<LabeledRow>, attack: bool)
    ensures OfClass(a + b, attack) == OfClass(a, attack) + OfClass(b, attack)
  {
    if b == [] {
      assert a + b == a;
    } else {
      OfClassAppend(a, Front(b), attack);
      assert Front(a + b) == a + Front(b) && Last(a + b) == Last(b);
    }
  }

  lemma {:induction false} ClassRows(rows: seq<RawRow>, attack: bool, i: nat)
    requires i < |RowsOfClass(rows, attack)|
    ensures SampledAsAttack(RowsOfClass(rows, attack)[i]) == attack
  {
    if i < |RowsOfClass(Front(rows), attack)| {
      ClassRows(Front(rows), attack, i);
    }
  }

  // The trimmed list of a file starts with the first slots of the file's attack reservoir: at slot s
  // stands the attack row at the position that the draws left there.
  lemma TrimTakesFirstSlots(rows: seq<RawRow>, attacks: seq<RawRow>, benign: seq<RawRow>, cap: nat, draws: seq<nat>,
                            maxEvents: nat, s: nat)
    requires Sampled(RowsOfClass(rows, true), cap, draws, attacks)
    requires s < AttackBudget(maxEvents) && s < |attacks|
    ensures var seen := RowsOfClass(rows, true);
      var p := Positions(|seen|, cap, draws);
      && s < |Trimmed(NormalizedAll(attacks + benign), maxEvents)| && s < |p| && p[s] < |seen|
      && Trimmed(NormalizedAll(attacks + benign), maxEvents)[s] == Normalized(seen[p[s]])
  {
    hide Positions, Sample, IsBenign, Strip, RowsOfClass;
    var seen := RowsOfClass(rows, true);
    SampleIsPositions(seen, cap, draws);
    var p := Positions(|seen|, cap, draws);
    forall i | 0 <= i < |attacks|
      ensures SampledAsAttack(attacks[i])
    {
      ClassRows(rows, true, p[i]);
    }
    AttacksStayAttacks(attacks);
    assert NormalizedAll(attacks + benign) == NormalizedAll(attacks) + NormalizedAll(benign);
    OfClassAppend(NormalizedAll(attacks), NormalizedAll(benign), true);
    TrimHead(NormalizedAll(attacks + benign), maxEvents, NormalizedAll(attacks), s);
  }

  lemma TrimHead(rows: seq<LabeledRow>, maxEvents: nat, head: seq<LabeledRow>, s: nat)
    requires head <= OfClass(rows, true) && s < |head| && s < AttackBudget(maxEvents)
    ensures s < |Trimmed(rows, maxEvents)| && Trimmed(rows, maxEvents)[s] == head[s]
  {
  }

  const DEFAULT_MAX_EVENTS := 50_000

  // Once a file's attack reservoir has overflowed, the attack rows that the default budget takes from
  // it stand before position 30,000 or from 200,000 on: under no draws is one of the attack rows
  // 30,000 to 199,999 of the file among the first 30,000 rows of the trimmed list.
  lemma DefaultBudgetSkipsRows(rows: seq<RawRow>, attacks: seq<RawRow>, benign: seq<RawRow>, draws: seq<nat>, s: nat)
    requires Sampled(RowsOfClass(rows, true), 200_000, draws, attacks)
    requires |RowsOfClass(rows, true)| > 200_000 && s < 30_000
    ensures AttackBudget(DEFAULT_MAX_EVENTS) == 30_000
    ensures var seen := RowsOfClass(rows, true);
      var trimmed := Trimmed(NormalizedAll(attacks + benign), DEFAULT_MAX_EVENTS);
      && s < |trimmed|
      && exists i :: 0 <= i < |seen| && trimmed[s] == Normalized(seen[i]) && IsAt(|seen|, draws, s, i)
                     && !(30_000 <= i < 200_000)
  {
    hide Positions, Sample, RowsOfClass, KeepingDraws, AllDraws, Trimmed, NormalizedAll;
    var n := |RowsOfClass(rows, true)|;
    KeepsDistinctRows(n, MAX_ATTACK_RESERVOIR, draws);
    SampleIsPositions(RowsOfClass(rows, true), MAX_ATTACK_RESERVOIR, draws);
    TrimTakesFirstSlots(rows, attacks, benign, MAX_ATTACK_RESERVOIR, draws, DEFAULT_MAX_EVENTS, s);
    var i := Positions(n, MAX_ATTACK_RESERVOIR, draws)[s];
    assert IsAt(n, draws, s, i);
    if 30_000 <= i < MAX_ATTACK_RESERVOIR {
      TrimNeverKeeps(n, MAX_ATTACK_RESERVOIR, 30_000, i);
      SlotIsKept(n, MAX_ATTACK_RESERVOIR, 30_000, s, draws);
    }
  }

  // The draws leave row i of n in slot s of the attack reservoir.
  ghost predicate IsAt(n: nat, draws: seq<nat>, s: nat, i: nat) {
    |draws| == Draws(n, MAX_ATTACK_RESERVOIR) && s < |Positions(n, MAX_ATTACK_RESERVOIR, draws)|
    && Positions(n, MAX_ATTACK_RESERVOIR, draws)[s] == i
  }

  lemma SlotIsKept(n: nat, cap: nat, m: nat, s: nat, draws: seq<nat>)
    requires Possible(n, cap, draws) && s < m && s < |Positions(n, cap, draws)|
    ensures draws in KeepingDraws(n, cap, m, Positions(n, cap, draws)[s])
  {
    hide Positions, AllDraws;
    AllDrawsArePossible(n, cap, draws);
  }

  function EventOf(r: LabeledRow): Option<ScenarioEvent> {
    if r.ts.Some? && r.flow.Some? then Some(ScenarioEvent(r.flow.value, r.ts.value, r.attack)) else None
  }

  function EventsOf(rows: seq<LabeledRow>): seq<ScenarioEvent> {
    if rows == [] then []
    else EventsOf(Front(rows)) + match EventOf(Last(rows)) { case Some(e) => [e] case None => [] }
  }

  function AllEvents(files: seq<seq<LabeledRow>>, maxEvents: nat): seq<ScenarioEvent> {
    if files == [] then [] else AllEvents(Front(files), maxEvents) + EventsOf(Trimmed(Last(files), maxEvents))
  }

  lemma {:induction false} EventsAreFewer(rows: seq<LabeledRow>)
    ensures |EventsOf(rows)| <= |rows|
  {
    if rows != [] {
      EventsAreFewer(Front(rows));
    }
  }

  // The budget bounds each file, and so the whole scenario only file by file.
  lemma {:induction false} BudgetIsPerFile(files: seq<seq<LabeledRow>>, maxEvents: nat)
    ensures |AllEvents(files, maxEvents)| <= |files| * maxEvents
  {
    hide Trimmed, EventsOf;
    if files != [] {
      BudgetIsPerFile(Front(files), maxEvents);
      EventsAreFewer(Trimmed(Last(files), maxEvents));
      TrimmedFits(Last(files), maxEvents);
      assert |files| * maxEvents == |Front(files)| * maxEvents + maxEvents;
    }
  }

  // A file's share fits the budget, and its attacks fit theirs.
  lemma TrimmedFits(rows: seq<LabeledRow>, maxEvents: nat)
    ensures |Trimmed(rows, maxEvents)| <= maxEvents
    ensures |Limit(OfClass(rows, true), AttackBudget(maxEvents))| <= AttackBudget(maxEvents) <= maxEvents
  {
  }

  // Two files of one benign row each exceed a budget of one event.
  lemma BudgetIsNotGlobal()
    ensures var file := [LabeledRow(false, Some(0), Some("a"))];
      |AllEvents([file, file], 1)| == 2
  {
    var row := LabeledRow(false, Some(0), Some("a"));
    var file := [row];
    OneBenignRow(row);
    hide EventsOf, Trimmed;
    assert Front([file, file]) == [file] && Front([file]) == [];
    assert |AllEvents([file], 1)| == 1;
  }

  lemma OneBenignRow(row: LabeledRow)
    requires !row.attack && EventOf(row).Some?
    ensures |EventsOf(Trimmed([row], 1))| == 1
  {
    assert Copies(row, 1) == [row];
    CopiesFill(row, 1);
  }

  function Copies<T>(x: T, n: nat): (s: seq<T>)
    ensures |s| == n
  {
    if n == 0 then [] else Copies(x, n - 1) + [x]
  }

  lemma {:induction false} CopiesAreBenign(row: LabeledRow, n: nat)
    requires !row.attack && EventOf(row).Some?
    ensures var rows := Copies(row, n);
      OfClass(rows, true) == [] && OfClass(rows, false) == rows && |EventsOf(rows)| == n
  {
    if n > 0 {
      CopiesAreBenign(row, n - 1);
      NextCopy(row, n);
    }
  }

  // A file of benign rows can use the whole budget.
  lemma CopiesFill(row: LabeledRow, maxEvents: nat)
    requires !row.attack && EventOf(row).Some?
    ensures |EventsOf(Trimmed(Copies(row, maxEvents), maxEvents))| == maxEvents
  {
    CopiesAreBenign(row, maxEvents);
    assert Trimmed(Copies(row, maxEvents), maxEvents) == Copies(row, maxEvents);
  }

  lemma NoCopies<T>(x: T)
    ensures Copies(x, 0) == []
  {
  }

  lemma NextCopy<T>(x: T, n: nat)
    requires n > 0
    ensures Copies(x, n) != [] && Front(Copies(x, n)) == Copies(x, n - 1) && Last(Copies(x, n)) == x
  {
    Snoc(Copies(x, n - 1), x);
  }

  lemma {:induction false} FullFiles(row: LabeledRow, k: nat, maxEvents: nat)
    requires !row.attack && EventOf(row).Some?
    ensures |AllEvents(Copies(Copies(row, maxEvents), k), maxEvents)| == k * maxEvents
  {
    hide EventsOf, Trimmed, Copies;
    if k == 0 {
      NoCopies(Copies(row, maxEvents));
    } else {
      var file := Copies(row, maxEvents);
      FullFiles(row, k - 1, maxEvents);
      CopiesFill(row, maxEvents);
      NextCopy(file, k);
      OneMoreShare(maxEvents, k - 1);
    }
  }

  // The budget holds for the whole scenario, whatever the files, exactly when there is at most one
  // file (or nothing is budgeted).
  lemma BudgetIsGlobalIff(k: nat, maxEvents: nat)
    ensures (forall files: seq<seq<LabeledRow>> :: |files| == k ==> |AllEvents(files, maxEvents)| <= maxEvents)
       <==> k <= 1 || maxEvents == 0
  {
    hide AllEvents;
    if k <= 1 || maxEvents == 0 {
      forall files: seq<seq<LabeledRow>> | |files| == k
        ensures |AllEvents(files, maxEvents)| <= maxEvents
      {
        BudgetIsPerFile(files, maxEvents);
        AtMostOnce(k, maxEvents);
      }
    } else {
      var row := LabeledRow(false, Some(0), Some("a"));
      FullFiles(row, k, maxEvents);
      MoreThanOnce(k, maxEvents);
      assert |Copies(Copies(row, maxEvents), k)| == k;
    }
  }

  lemma AtMostOnce(k: nat, m: nat)
    requires k <= 1 || m == 0
    ensures k * m <= m
  {
  }

  lemma MoreThanOnce(k: nat, m: nat)
    requires k > 1 && m > 0
    ensures k * m > m
  {
    assert k * m == (k - 1) * m + m;
    assert (k - 1) * m > 0;
  }

  // ---- sort and dedupe -----------------------------------------------------------------------------

  predicate Earlier(a: ScenarioEvent, b: ScenarioEvent) {
    a.ts <= b.ts
  }

  predicate Listed(events: seq<ScenarioEvent>, id: string) {
    exists i :: 0 <= i < |events| && events[i].eventId == id
  }

  // Keeps the first event of each id.
  function Deduped(events: seq<ScenarioEvent>): seq<ScenarioEvent> {
    if events == [] then []
    else
      var d := Deduped(Front(events));
      if Listed(d, Last(events).eventId) then d else d + [Last(events)]
  }

  // The written lines: in time order, one for each event id, each the earliest of its id.
  ghost predicate Scenario(all: seq<ScenarioEvent>, written: seq<ScenarioEvent>) {
    && SortedBy(Earlier, written)
    && (forall i, j :: 0 <= i < j < |written| ==> written[i].eventId != written[j].eventId)
    && (forall id :: Listed(written, id) <==> Listed(all, id))
    && (forall i, e :: 0 <= i < |written| && e in all && e.eventId == written[i].eventId ==> written[i].ts <= e.ts)
    && (forall i :: 0 <= i < |written| ==> written[i] in all)
  }

  // One more event, no earlier than the ones before, is written or is a repeat.
  lemma ScenarioSnoc(f: seq<ScenarioEvent>, d: seq<ScenarioEvent>, e: ScenarioEvent)
    requires Scenario(f, d) && forall i :: 0 <= i < |f| ==> f[i].ts <= e.ts
    ensures Scenario(f + [e], if Listed(d, e.eventId) then d else d + [e])
  {
    forall id
      ensures Listed(f + [e], id) <==> Listed(d, id) || e.eventId == id
    {
      ListedSnoc(f, e, id);
    }
    if Listed(d, e.eventId) {
      RepeatKeeps(f, d, e);
    } else {
      NewIsWritten(f, d, e);
    }
  }

  lemma RepeatKeeps(f: seq<ScenarioEvent>, d: seq<ScenarioEvent>, e: ScenarioEvent)
    requires Scenario(f, d) && Listed(d, e.eventId) && forall i :: 0 <= i < |f| ==> f[i].ts <= e.ts
    requires forall id :: Listed(f + [e], id) <==> Listed(d, id) || e.eventId == id
    ensures Scenario(f + [e], d)
  {
    hide Listed;
    forall i | 0 <= i < |d|
      ensures d[i] in f + [e] && d[i].ts <= e.ts
    {
      WrittenBefore(f, d, e, i);
    }
  }

  lemma WrittenBefore(f: seq<ScenarioEvent>, d: seq<ScenarioEvent>, e: ScenarioEvent, i: nat)
    requires i < |d| && d[i] in f && forall k :: 0 <= k < |f| ==> f[k].ts <= e.ts
    ensures d[i] in f + [e] && d[i].ts <= e.ts
  {
    var k :| 0 <= k < |f| && f[k] == d[i];
    assert (f + [e])[k] == d[i];
  }

  lemma NewIsWritten(f: seq<ScenarioEvent>, d: seq<ScenarioEvent>, e: ScenarioEvent)
    requires Scenario(f, d) && !Listed(d, e.eventId) && forall i :: 0 <= i < |f| ==> f[i].ts <= e.ts
    requires forall id :: Listed(f + [e], id) <==> Listed(d, id) || e.eventId == id
    ensures Scenario(f + [e], d + [e])
  {
    var all := d + [e];
    forall i | 0 <= i < |d|
      ensures all[i] == d[i] && d[i] in f + [e] && d[i].ts <= e.ts && d[i].eventId != e.eventId
    {
      WrittenBefore(f, d, e, i);
    }
    forall id
      ensures Listed(all, id) <==> Listed(f + [e], id)
    {
      ListedSnoc(d, e, id);
    }
    assert !Listed(f, e.eventId);
    forall g | g in f
      ensures g.eventId != e.eventId
    {
      var k :| 0 <= k < |f| && f[k] == g;
      assert f[k].eventId == g.eventId;
    }
    hide Listed;
    assert all[|d|] == e && e in f + [e];
  }

  lemma {:induction false} DedupedIsScenario(events: seq<ScenarioEvent>)
    requires SortedBy(Earlier, events)
    ensures Scenario(events, Deduped(events)) && |Deduped(events)| <= |events|
  {
    if events == [] {
      assert Scenario([], []);
    } else {
      hide Scenario, Listed;
      var f, e := Front(events), Last(events);
      FrontLast(events);
      DedupedIsScenario(f);
      assert forall i :: 0 <= i < |f| ==> Earlier(events[i], events[|events| - 1]);
      ScenarioSnoc(f, Deduped(f), e);
    }
  }

  lemma ListedSnoc(events: seq<ScenarioEvent>, e: ScenarioEvent, id: string)
    ensures Listed(events + [e], id) <==> Listed(events, id) || e.eventId == id
  {
    if Listed(events, id) {
      var i :| 0 <= i < |events| && events[i].eventId == id;
      assert (events + [e])[i].eventId == id;
    }
    if e.eventId == id {
      assert (events + [e])[|events|].eventId == id;
    }
  }

  // Of the events of one id the first is written.
  lemma {:induction false} FirstIsWritten(events: seq<ScenarioEvent>, i: nat)
    requires i < |events| && forall j :: 0 <= j < i ==> events[j].eventId != events[i].eventId
    ensures events[i] in Deduped(events)
  {
    var f := Front(events);
    if i < |f| {
      FirstIsWritten(f, i);
    } else {
      NotYetWritten(f, events[i].eventId);
    }
  }

  lemma {:induction false} NotYetWritten(events: seq<ScenarioEvent>, id: string)
    requires forall j :: 0 <= j < |events| ==> events[j].eventId != id
    ensures !Listed(Deduped(events), id)
  {
    if events != [] {
      NotYetWritten(Front(events), id);
      ListedSnoc(Deduped(Front(events)), Last(events), id);
    }
  }

  datatype Meta = Meta(rowsWritten: nat, duplicates: nat, droppedUnusable: nat, attacks: nat, benign: nat)

  function CountClass(events: seq<ScenarioEvent>, attack: bool): nat {
    if events == [] then 0 else CountClass(Front(events), attack) + if Last(events).attack == attack then 1 else 0
  }

  // The rows that the budget takes from all files.
  function TakenRows(files: seq<seq<LabeledRow>>, maxEvents: nat): nat {
    if files == [] then 0 else TakenRows(Front(files), maxEvents) + |Trimmed(Last(files), maxEvents)|
  }

  lemma {:induction false} CountAppend(a: seq<ScenarioEvent>, b: seq<ScenarioEvent>, attack: bool)
    ensures CountClass(a + b, attack) == CountClass(a, attack) + CountClass(b, attack)
  {
    if b == [] {
      assert a + b == a;
    } else {
      CountAppend(a, Front(b), attack);
      assert Front(a + b) == a + Front(b) && Last(a + b) == Last(b);
    }
  }

  lemma NothingCounted()
    ensures CountClass([], true) == CountClass([], false) == 0
  {
  }

  lemma NoEvents()
    ensures EventsOf([]) == []
  {
  }

  lemma NextEvent(rows: seq<LabeledRow>, k: nat)
    requires k < |rows|
    ensures EventsOf(rows[..k + 1])
         == match EventOf(rows[k]) { case Some(e) => EventsOf(rows[..k]) + [e] case None => EventsOf(rows[..k]) }
  {
    hide EventOf;
    NextPrefix(rows, k);
    assert EventsOf(rows[..k]) + [] == EventsOf(rows[..k]);
  }

  lemma CountSnoc(events: seq<ScenarioEvent>, e: ScenarioEvent, attack: bool)
    ensures CountClass(events + [e], attack) == CountClass(events, attack) + if e.attack == attack then 1 else 0
  {
    Snoc(events, e);
  }

  // ---- the pieces of a preparation, read off the rows themselves ------------------------------------

  lemma {:induction false} StripRightCuts(s: string)
    ensures StripRight(s) <= s && forall i :: |StripRight(s)| <= i < |s| ==> IsSpace(s[i])
    ensures StripRight(s) != "" ==> !IsSpace(Last(StripRight(s)))
  {
    if s != "" && IsSpace(Last(s)) {
      StripRightCuts(Front(s));
    }
  }

  lemma {:induction false} StripLeftCuts(s: string)
    ensures var n := |s| - |StripLeft(s)|;
      0 <= n <= |s| && StripLeft(s) == s[n..] && forall i :: 0 <= i < n ==> IsSpace(s[i])
    ensures StripLeft(s) != "" ==> !IsSpace(StripLeft(s)[0])
  {
    if s != "" && IsSpace(s[0]) {
      StripLeftCuts(s[1..]);
      forall i | 0 <= i < |s| - |StripLeft(s)|
        ensures IsSpace(s[i])
      {
        assert i > 0 ==> s[i] == s[1..][i - 1];
      }
    }
  }

  // Stripping cuts the white space off both ends and nothing else.
  lemma StripCutsSpace(s: string) returns (a: nat, b: nat)
    ensures a <= b <= |s| && Strip(s) == s[a..b]
    ensures forall i :: 0 <= i < a || b <= i < |s| ==> IsSpace(s[i])
    ensures a < b ==> !IsSpace(s[a]) && !IsSpace(s[b - 1])
  {
    hide StripLeft, StripRight, IsSpace;
    StripLeftCuts(s);
    StripRightCuts(StripLeft(s));
    a := |s| - |StripLeft(s)|;
    b := a + |Strip(s)|;
    forall i | b <= i < |s|
      ensures IsSpace(s[i])
    {
      assert s[i] == StripLeft(s)[i - a];
    }
    assert a < b ==> s[a] == StripLeft(s)[0] && s[b - 1] == Last(Strip(s));
  }

  // A label is benign in any mix of upper and lower case.
  lemma BenignInAnyCase(text: string)
    ensures IsBenign(text) <==>
      |text| == 6 && forall i :: 0 <= i < 6 ==> text[i] == "BENIGN"[i] || text[i] == "benign"[i]
  {
    var upper := Upper(text);
    if |text| == 6 {
      assert forall i :: 0 <= i < 6 ==> (upper[i] == "BENIGN"[i] <==> text[i] == "BENIGN"[i] || text[i] == "benign"[i]);
    }
  }

  // Among the first n rows, those of the class: they have a label and a timestamp.
  ghost function UsableOf(rows: seq<RawRow>, n: nat, attack: bool): set<nat>
    requires n <= |rows|
  {
    set k: nat | k < n && Strip(rows[k].cell) != "" && rows[k].ts.Some? && IsBenign(Strip(rows[k].cell)) == !attack
  }

  lemma UsableNext(rows: seq<RawRow>, n: nat, attack: bool)
    requires n < |rows|
    ensures |UsableOf(rows, n + 1, attack)|
         == |UsableOf(rows, n, attack)| + if Usable(rows[n]) && SampledAsAttack(rows[n]) == attack then 1 else 0
    ensures n in UsableOf(rows, n + 1, attack) <==> Usable(rows[n]) && SampledAsAttack(rows[n]) == attack
  {
    hide Strip, IsBenign;
    var before, after := UsableOf(rows, n, attack), UsableOf(rows, n + 1, attack);
    assert after == if Usable(rows[n]) && SampledAsAttack(rows[n]) == attack then before + {n} else before;
  }

  lemma UsableWithin(rows: seq<RawRow>, m: nat, n: nat, attack: bool, i: nat)
    requires i < m <= n <= |rows|
    ensures i in UsableOf(rows, m, attack) <==> i in UsableOf(rows, n, attack)
  {
    hide Strip, IsBenign;
  }

  lemma NoneOfClass(rows: seq<RawRow>, attack: bool)
    ensures RowsOfClass(rows[..0], attack) == [] && UsableOf(rows, 0, attack) == {}
  {
  }

  // The rows of a class stand in their order, each behind those before it.
  lemma {:induction false} ClassIsInOrder(rows: seq<RawRow>, n: nat, attack: bool, i: nat)
    requires i < n <= |rows|
    ensures |RowsOfClass(rows[..n], attack)| == |UsableOf(rows, n, attack)|
    ensures i in UsableOf(rows, n, attack) ==>
      var at := |UsableOf(rows, i, attack)|;
      at < |RowsOfClass(rows[..n], attack)| && RowsOfClass(rows[..n], attack)[at] == rows[i]
    decreases n
  {
    hide Usable, SampledAsAttack, Strip, IsBenign, RowsOfClass, UsableOf;
    ClassNext(rows, n - 1, attack);
    UsableNext(rows, n - 1, attack);
    if i < n - 1 {
      UsableWithin(rows, n - 1, n, attack, i);
    }
    if n > 1 {
      ClassIsInOrder(rows, n - 1, attack, if i < n - 1 then i else 0);
    } else {
      NoneOfClass(rows, attack);
    }
  }

  // Among the first n rows, those of the class.
  ghost function MembersOf(rows: seq<LabeledRow>, n: nat, attack: bool): set<nat>
    requires n <= |rows|
  {
    set k: nat | k < n && rows[k].attack == attack
  }

  lemma MembersNext(rows: seq<LabeledRow>, n: nat, attack: bool)
    requires n < |rows|
    ensures MembersOf(rows, n + 1, attack)
         == if rows[n].attack == attack then MembersOf(rows, n, attack) + {n} else MembersOf(rows, n, attack)
    ensures |MembersOf(rows, n + 1, attack)|
         == |MembersOf(rows, n, attack)| + if rows[n].attack == attack then 1 else 0
  {
    assert n !in MembersOf(rows, n, attack);
  }

  lemma NoMembers(rows: seq<LabeledRow>, attack: bool)
    ensures OfClass(rows[..0], attack) == [] && MembersOf(rows, 0, attack) == {}
  {
  }

  lemma OfClassNext(rows: seq<LabeledRow>, n: nat, attack: bool)
    requires n < |rows|
    ensures OfClass(rows[..n + 1], attack)
         == OfClass(rows[..n], attack) + if rows[n].attack == attack then [rows[n]] else []
  {
    NextPrefix(rows, n);
  }

  lemma {:induction false} MembersAreInOrder(rows: seq<LabeledRow>, n: nat, attack: bool, i: nat)
    requires i < n <= |rows|
    ensures |OfClass(rows[..n], attack)| == |MembersOf(rows, n, attack)|
    ensures rows[i].attack == attack ==>
      var at := |MembersOf(rows, i, attack)|;
      at < |OfClass(rows[..n], attack)| && OfClass(rows[..n], attack)[at] == rows[i]
    decreases n
  {
    hide OfClass, MembersOf;
    OfClassNext(rows, n - 1, attack);
    MembersNext(rows, n - 1, attack);
    if n > 1 {
      MembersAreInOrder(rows, n - 1, attack, if i < n - 1 then i else 0);
    } else {
      NoMembers(rows, attack);
    }
  }

  // Six tenths of the budget go to the first attacks of a file, and what is left of it to the first
  // benign rows: an attack is taken exactly when fewer attacks than that stand before it, and a
  // benign row when fewer benign rows than the rest stand before it.
  lemma TrimTakesTheFirst(rows: seq<LabeledRow>, maxEvents: nat, i: nat)
    requires i < |rows|
    ensures var attacks, benign := |MembersOf(rows, |rows|, true)|, |MembersOf(rows, |rows|, false)|;
      var a := if attacks < maxEvents * 6 / 10 then attacks else maxEvents * 6 / 10;
      var b := if benign < maxEvents - a then benign else maxEvents - a;
      var trimmed, at := Trimmed(rows, maxEvents), |MembersOf(rows, i, rows[i].attack)|;
      && |trimmed| == a + b
      && (if rows[i].attack then at < a ==> trimmed[at] == rows[i] else at < b ==> trimmed[a + at] == rows[i])
  {
    assert rows[..|rows|] == rows;
    hide OfClass, MembersOf;
    MembersAreInOrder(rows, |rows|, true, i);
    MembersAreInOrder(rows, |rows|, false, i);
  }

  // Each row with a timestamp and both addresses becomes the event of its flow; files and rows are
  // taken in order, and each file is trimmed by itself.
  lemma {:induction false} EventsAreOfRows(a: seq<LabeledRow>, b: seq<LabeledRow>, row: LabeledRow)
    ensures EventsOf([]) == [] && EventsOf(a + b) == EventsOf(a) + EventsOf(b)
    ensures EventsOf([row]) == if row.ts.Some? && row.flow.Some?
                               then [ScenarioEvent(row.flow.value, row.ts.value, row.attack)] else []
  {
    assert Front([row]) == [] && Last([row]) == row;
    if b == [] {
      assert a + b == a;
    } else {
      EventsAreOfRows(a, Front(b), row);
      assert Front(a + b) == a + Front(b) && Last(a + b) == Last(b);
    }
  }

  lemma {:induction false} FilesAreInOrder(a: seq<seq<LabeledRow>>, b: seq<seq<LabeledRow>>, file: seq<LabeledRow>,
                                           maxEvents: nat)
    ensures AllEvents([], maxEvents) == [] && AllEvents([file], maxEvents) == EventsOf(Trimmed(file, maxEvents))
    ensures AllEvents(a + b, maxEvents) == AllEvents(a, maxEvents) + AllEvents(b, maxEvents)
    ensures TakenRows([], maxEvents) == 0 && TakenRows([file], maxEvents) == |Trimmed(file, maxEvents)|
    ensures TakenRows(a + b, maxEvents) == TakenRows(a, maxEvents) + TakenRows(b, maxEvents)
  {
    hide EventsOf, Trimmed;
    assert Front([file]) == [] && Last([file]) == file;
    if b == [] {
      assert a + b == a;
    } else {
      FilesAreInOrder(a, Front(b), file, maxEvents);
      assert Front(a + b) == a + Front(b) && Last(a + b) == Last(b);
    }
  }

  // ---- the counters count positions --------------------------------------------------------------------

  // The labelled rows without a timestamp.
  ghost function Untimed(s: seq<RawRow>, n: nat): set<nat>
    requires n <= |s|
  {
    set k: nat | k < n && Strip(s[k].cell) != "" && s[k].ts == None
  }

  lemma UntimedNext(s: seq<RawRow>, n: nat)
    requires n < |s|
    ensures |Untimed(s, n + 1)| == |Untimed(s, n)| + (if Strip(s[n].cell) != "" && s[n].ts == None then 1 else 0)
  {
    var before, after := Untimed(s, n), Untimed(s, n + 1);
    assert after == if Strip(s[n].cell) != "" && s[n].ts == None then before + {n} else before;
  }

  lemma {:induction false} BadTimestampsCount(s: seq<RawRow>, n: nat)
    requires n <= |s|
    ensures BadTimestamps(s[..n]) == |Untimed(s, n)|
    decreases n
  {
    hide Untimed, Strip;
    if n == 0 {
      assert |Untimed(s, 0)| == 0 by { UntimedNone(s); }
    } else {
      BadTimestampsCount(s, n - 1);
      UntimedNext(s, n - 1);
      NextPrefix(s, n - 1);
    }
  }

  lemma UntimedNone(s: seq<RawRow>)
    ensures |Untimed(s, 0)| == 0
  {
    assert Untimed(s, 0) == {};
  }

  // The rows with a label.
  ghost function Labelled(s: seq<RawRow>, n: nat, text: string): set<nat>
    requires n <= |s|
  {
    set k: nat | k < n && Strip(s[k].cell) == text
  }

  lemma LabelledNext(s: seq<RawRow>, n: nat, text: string)
    requires n < |s|
    ensures |Labelled(s, n + 1, text)| == |Labelled(s, n, text)| + (if Strip(s[n].cell) == text then 1 else 0)
  {
    var before, after := Labelled(s, n, text), Labelled(s, n + 1, text);
    assert after == if Strip(s[n].cell) == text then before + {n} else before;
  }

  lemma {:induction false} LabelsCount(s: seq<RawRow>, n: nat, text: string)
    requires n <= |s|
    ensures CountOf(s[..n], text) == |Labelled(s, n, text)|
    decreases n
  {
    hide Labelled, Strip;
    if n == 0 {
      assert |Labelled(s, 0, text)| == 0 by { LabelledNone(s, text); }
    } else {
      LabelsCount(s, n - 1, text);
      LabelledNext(s, n - 1, text);
      NextPrefix(s, n - 1);
    }
  }

  lemma LabelledNone(s: seq<RawRow>, text: string)
    ensures |Labelled(s, 0, text)| == 0
  {
    assert Labelled(s, 0, text) == {};
  }

  // The events of a class.
  ghost function EventsIn(s: seq<ScenarioEvent>, n: nat, attack: bool): set<nat>
    requires n <= |s|
  {
    set k: nat | k < n && s[k].attack == attack
  }

  lemma EventsInNext(s: seq<ScenarioEvent>, n: nat, attack: bool)
    requires n < |s|
    ensures |EventsIn(s, n + 1, attack)| == |EventsIn(s, n, attack)| + (if s[n].attack == attack then 1 else 0)
  {
    var before, after := EventsIn(s, n, attack), EventsIn(s, n + 1, attack);
    assert after == if s[n].attack == attack then before + {n} else before;
  }

  lemma {:induction false} EventsCount(s: seq<ScenarioEvent>, n: nat, attack: bool)
    requires n <= |s|
    ensures CountClass(s[..n], attack) == |EventsIn(s, n, attack)|
    decreases n
  {
    hide EventsIn;
    if n == 0 {
      assert |EventsIn(s, 0, attack)| == 0 by { EventsInNone(s, attack); }
    } else {
      EventsCount(s, n - 1, attack);
      EventsInNext(s, n - 1, attack);
      NextPrefix(s, n - 1);
    }
  }

  lemma EventsInNone(s: seq<ScenarioEvent>, attack: bool)
    ensures |EventsIn(s, 0, attack)| == 0
  {
    assert EventsIn(s, 0, attack) == {};
  }

  method EventsOfFile(rows: seq<LabeledRow>, maxEvents: nat)
    returns (events: seq<ScenarioEvent>, dropped: nat, attacks: nat, benign: nat)
    ensures events == EventsOf(Trimmed(rows, maxEvents))
    ensures attacks == CountClass(events, true) && benign == CountClass(events, false)
    ensures |events| + dropped == |Trimmed(rows, maxEvents)|
  {
    var attackRows := Limit(OfClass(rows, true), AttackBudget(maxEvents));
    var benignBudget := maxEvents - |attackRows|;
    var trimmed := attackRows + Limit(OfClass(rows, false), benignBudget);
    assert trimmed == Trimmed(rows, maxEvents);
    hide Trimmed, OfClass, Limit, EventsOf, CountClass, EventOf;
    events, dropped, attacks, benign := [], 0, 0, 0;
    NothingCounted();
    assert trimmed[..0] == [];
    NoEvents();
    for k := 0 to |trimmed|
      invariant events == EventsOf(trimmed[..k]) && |events| + dropped == k
      invariant attacks == CountClass(events, true) && benign == CountClass(events, false)
    {
      NextEvent(trimmed, k);
      var event := EventOf(trimmed[k]);
      if event == None {
        dropped := dropped + 1;
        continue;
      }
      CountSnoc(events, event.value, true);
      CountSnoc(events, event.value, false);
      events := events + [event.value];
      if event.value.attack {
        attacks := attacks + 1;
      } else {
        benign := benign + 1;
      }
    }
    assert trimmed[..|trimmed|] == trimmed;
  }

  // Writes the first event of each id.
  method WriteLines(sorted: seq<ScenarioEvent>) returns (lines: seq<ScenarioEvent>, duplicates: nat)
    ensures lines == Deduped(sorted) && |lines| + duplicates == |sorted|
  {
    lines, duplicates := [], 0;
    for i := 0 to |sorted|
      invariant lines == Deduped(sorted[..i]) && |lines| + duplicates == i
    {
      assert Front(sorted[..i + 1]) == sorted[..i];
      if Listed(lines, sorted[i].eventId) {
        duplicates := duplicates + 1;
        continue;
      }
      lines := lines + [sorted[i]];
    }
    assert sorted[..|sorted|] == sorted;
  }

  // The scenario's lines, or None when no usable row was produced.
  method Prepare(files: seq<seq<LabeledRow>>, maxEvents: nat) returns (written: Option<seq<ScenarioEvent>>, meta: Meta)
    ensures written == None <==> AllEvents(files, maxEvents) == []
    ensures written.Some? ==> Scenario(AllEvents(files, maxEvents), written.value)
    ensures written.Some? ==> meta.rowsWritten == |written.value|
    ensures written.Some? ==> meta.rowsWritten + meta.duplicates == |AllEvents(files, maxEvents)|
    ensures meta.attacks == CountClass(AllEvents(files, maxEvents), true)
    ensures meta.benign == CountClass(AllEvents(files, maxEvents), false)
    ensures meta.droppedUnusable + |AllEvents(files, maxEvents)| == TakenRows(files, maxEvents)
  {
    hide Scenario, SortedBy, Deduped, EventsOf, Trimmed, CountClass;
    var all: seq<ScenarioEvent> := [];
    var dropped: nat, attacks: nat, benign: nat := 0, 0, 0;
    NothingCounted();
    for i := 0 to |files|
      invariant all == AllEvents(files[..i], maxEvents) && dropped + |all| == TakenRows(files[..i], maxEvents)
      invariant attacks == CountClass(all, true) && benign == CountClass(all, false)
    {
      assert Front(files[..i + 1]) == files[..i];
      var events, d, a, b := EventsOfFile(files[i], maxEvents);
      CountAppend(all, events, true);
      CountAppend(all, events, false);
      all, dropped, attacks, benign := all + events, dropped + d, attacks + a, benign + b;
    }
    assert files[..|files|] == files;
    if all == [] {
      return None, Meta(0, 0, dropped, 0, 0);
    }
    var sorted := Sorted(Earlier, all);
    SortedProperties(Earlier, all);
    var lines, duplicates := WriteLines(sorted);
    DedupedIsScenario(sorted);
    ScenarioOfPermutation(sorted, all, lines);
    return Some(lines), Meta(|lines|, duplicates, dropped, attacks, benign);
  }

  lemma ScenarioOfPermutation(sorted: seq<ScenarioEvent>, all: seq<ScenarioEvent>, written: seq<ScenarioEvent>)
    requires Scenario(sorted, written) && multiset(sorted) == multiset(all)
    ensures Scenario(all, written) && |sorted| == |all|
  {
    assert |multiset(sorted)| == |sorted| && |multiset(all)| == |all|;
    assert forall e :: e in sorted <==> e in multiset(sorted);
    assert forall e :: e in all <==> e in multiset(all);
    forall id
      ensures Listed(sorted, id) <==> Listed(all, id)
    {
      if Listed(sorted, id) {
        var i :| 0 <= i < |sorted| && sorted[i].eventId == id;
        assert sorted[i] in sorted && sorted[i] in all;
        var k :| 0 <= k < |all| && all[k] == sorted[i];
      }
      if Listed(all, id) {
        var i :| 0 <= i < |all| && all[i].eventId == id;
        assert all[i] in all && all[i] in sorted;
        var k :| 0 <= k < |sorted| && sorted[k] == all[i];
      }
    }
  }
}
