/**
  The rows of internal/bottomstudy/result_snapshot.go against the validator of
  internal/experiment/result_snapshot.go.
*/
module ResultRows {
  import opened Money
  import opened Market
  import opened Simulator
  import opened Stats
  import opened Speed
  import Search
  import Signals

  datatype Arm = Arm(training: SpeedStats, later: SpeedStats, trades: seq<Trade>)

  datatype Pair = Pair(id: string, policy: Policy, confirmation: string, stock: Arm, combined: Arm)

  datatype Row = Row(
    id: string, label_: string, period: string, from: Option<int>, through: Option<int>, rule: Signals.Rule,
      confirmation: string,
    target: real, stop: Option<real>, horizon: int, batches: int, samples: int, resolved: int, unresolved: int,
      skipped: int,
    targets: Option<int>, rate: Option<real>, targetDays: Option<real>, holdingDays: Option<real>,
      meanNet: Option<real>,
    maxLoss: Option<real>, maxAdverse: Option<real>, penalizedDays: Option<real>)

  // ---------- The validator ----------

  function Distance(x: real, y: real): real {
    if x >= y then x - y else y - x
  }

  predicate ValidCounts(x: Row) {
    && x.id != "" && x.label_ != "" && x.target > 0.0 && x.horizon >= 1 && x.batches >= 1
    && x.samples >= 0 && x.resolved >= 0 && x.unresolved >= 0 && x.skipped >= 0
         && x.resolved + x.unresolved == x.samples
  }

  predicate ValidRate(x: Row) {
    && (x.rate == None <==> x.targets == None)
    && (x.targets.Some? && x.rate.Some? ==>
          && 0 <= x.targets.value <= x.samples && x.samples != 0
          && Distance(x.rate.value, x.targets.value as real / x.samples as real) <= 0.000000001)
  }

  predicate ValidDays(x: Row) {
    x.targetDays.Some? ==> x.targets.Some? && x.targets.value != 0 && 1.0 <= x.targetDays.value <= x.horizon as real
  }

  predicate ValidOutcome(x: Row) {
    && (x.resolved == 0 ==> x.meanNet == None && x.holdingDays == None && x.maxLoss == None && x.maxAdverse == None)
    && (x.maxLoss.Some? ==> x.maxLoss.value >= 0.0) && (x.maxAdverse.Some? ==> x.maxAdverse.value >= 0.0)
    && (x.stop.Some? ==> x.stop.value >= 0.0)
  }

  predicate ValidRow(x: Row) {
    ValidCounts(x) && ValidRate(x) && ValidDays(x) && ValidOutcome(x)
  }

  ghost predicate ValidRows(rows: seq<Row>) {
    && 0 < |rows| <= 1000
    && (forall k :: 0 <= k < |rows| ==> ValidRow(rows[k]))
    && (forall j, k :: 0 <= j < k < |rows| ==> rows[j].id != rows[k].id)
  }

  method ValidateRows(rows: seq<Row>) returns (ok: bool)
    ensures ok <==> ValidRows(rows)
  {
    hide ValidRow;
    if |rows| == 0 || |rows| > 1000 {
      return false;
    }
    var seen: set<string> := {};
    for i := 0 to |rows|
      invariant forall id :: id in seen <==> exists k :: 0 <= k < i && rows[k].id == id
      invariant forall k :: 0 <= k < i ==> ValidRow(rows[k])
      invariant forall j, k :: 0 <= j < k < i ==> rows[j].id != rows[k].id
    {
      if rows[i].id in seen || !ValidRow(rows[i]) {
        return false;
      }
      seen := seen + {rows[i].id};
    }
    return true;
  }

  // ---------- The rows of a speed report ----------

  function FirstSignal(trades: seq<Trade>, split: Split): Option<int> {
    if |trades| == 0 then None
    else
      var before, t := FirstSignal(trades[..|trades| - 1], split), trades[|trades| - 1];
      if t.split != split then before
      else if before.None? || t.signalDate < before.value then Some(t.signalDate)
      else before
  }

  function LastSignal(trades: seq<Trade>, split: Split): Option<int> {
    if |trades| == 0 then None
    else
      var before, t := LastSignal(trades[..|trades| - 1], split), trades[|trades| - 1];
      if t.split != split then before
      else if before.None? || t.signalDate > before.value then Some(t.signalDate)
      else before
  }

  function Digit(k: nat): string {
    if k == 0 then "0" else "1"
  }

  function RowId(pair: string, i: nat, j: nat): string {
    pair + "/" + Digit(i) + "/" + Digit(j)
  }

  /** The row of an arm (stock alone first) and a period (later first). */
  function RowOf(pair: Pair, i: nat, j: nat): Row {
    var arm := if i == 0 then pair.stock else pair.combined;
    var split := if j == 0 then Later else Training;
    var r := if j == 0 then arm.later else arm.training;
    var s := r.stats;
    Row(RowId(pair.id, i, j), if i == 0 then "stock" else "stock+sector+market", if j == 0 then "later" else "training",
        FirstSignal(arm.trades, split), LastSignal(arm.trades, split), pair.policy.rule, pair.confirmation,
        pair.policy.target, Some(0.0), DEADLINE, pair.policy.batches, s.samples, s.resolved,
          s.unresolved + s.unknownEntries, s.skipped,
        if s.samples > 0 then Some(s.targets) else None,
        if s.samples > 0 then Some(s.rate) else None,
        if s.targets > 0 then Some(r.successDays) else None,
        if s.resolved > 0 then Some(s.meanDays) else None,
        if s.resolved > 0 then Some(s.meanNet) else None,
        if s.resolved > 0 then Some(Max(0.0, -s.worstNet)) else None,
        None,
        if s.samples > 0 then Some(r.penalizedDays) else None)
  }

  function PairRows(pair: Pair): (r: seq<Row>)
    ensures |r| == 4
  {
    [RowOf(pair, 0, 0), RowOf(pair, 0, 1), RowOf(pair, 1, 0), RowOf(pair, 1, 1)]
  }

  /** The rows of the pairs some winner names, in the order of the pairs. */
  function RowsOf(pairs: seq<Pair>, winners: set<string>): seq<Row> {
    if |pairs| == 0 then []
    else
      var last := pairs[|pairs| - 1];
      RowsOf(pairs[..|pairs| - 1], winners) + (if last.id in winners then PairRows(last) else [])
  }

  method SignalSpan(trades: seq<Trade>, split: Split) returns (from: Option<int>, through: Option<int>)
    ensures from == FirstSignal(trades, split) && through == LastSignal(trades, split)
  {
    from, through := None, None;
    for k := 0 to |trades|
      invariant from == FirstSignal(trades[..k], split) && through == LastSignal(trades[..k], split)
    {
      var t := trades[k];
      assert trades[..k + 1][..k] == trades[..k];
      if t.split != split {
        continue;
      }
      if from.None? || t.signalDate < from.value {
        from := Some(t.signalDate);
      }
      if through.None? || t.signalDate > through.value {
        through := Some(t.signalDate);
      }
    }
    assert trades[..|trades|] == trades;
  }

  method BuildRow(pair: Pair, i: nat, j: nat) returns (row: Row)
    requires i < 2 && j < 2
    ensures row == RowOf(pair, i, j)
  {
    hide FirstSignal, LastSignal;
    var arm := if i == 0 then pair.stock else pair.combined;
    var r := if j == 0 then arm.later else arm.training;
    var s := r.stats;
    var from, through := SignalSpan(arm.trades, if j == 0 then Later else Training);
    row := Row(RowId(pair.id, i, j), if i == 0 then "stock" else "stock+sector+market", if j == 0 then "later"
      else "training",
               from, through, pair.policy.rule, pair.confirmation, pair.policy.target, Some(0.0), DEADLINE,
                 pair.policy.batches,
               s.samples, s.resolved, s.unresolved + s.unknownEntries, s.skipped, None, None, None, None, None, None,
                 None, None);
    if s.samples > 0 {
      row := row.(targets := Some(s.targets), rate := Some(s.rate), penalizedDays := Some(r.penalizedDays));
    }
    if s.targets > 0 {
      row := row.(targetDays := Some(r.successDays));
    }
    if s.resolved > 0 {
      row := row.(holdingDays := Some(s.meanDays), meanNet := Some(s.meanNet), maxLoss := Some(Max(0.0, -s.worstNet)));
    }
  }

  method BuildRows(pairs: seq<Pair>, winners: seq<string>) returns (rows: seq<Row>)
    ensures rows == RowsOf(pairs, set w <- winners)
  {
    hide RowOf;
    rows := [];
    var named := set w <- winners;
    for p := 0 to |pairs|
      invariant rows == RowsOf(pairs[..p], named)
    {
      var pair := pairs[p];
      assert pairs[..p + 1][..p] == pairs[..p];
      if pair.id !in named {
        continue;
      }
      ghost var before := rows;
      var a := BuildRow(pair, 0, 0);
      var b := BuildRow(pair, 0, 1);
      var c := BuildRow(pair, 1, 0);
      var d := BuildRow(pair, 1, 1);
      rows := rows + [a, b, c, d];
    }
    assert pairs[..|pairs|] == pairs;
  }

  // ---------- Every report of simulated trades passes ----------

  /** An arm whose statistics are those of its timely trades. */
  ghost predicate Measured(arm: Arm) {
    AllTimely(arm.trades) && arm.training == SpeedOf(arm.trades, Training) && arm.later == SpeedOf(arm.trades, Later)
  }

  ghost predicate Reported(pair: Pair) {
    pair.id != "" && pair.policy.target > 0.0 && pair.policy.batches >= 1 && Measured(pair.stock)
      && Measured(pair.combined)
  }

  lemma StatsAddUp(trades: seq<Trade>, split: Split)
    ensures var s := StatsOf(trades, split, map[]);
      && 0 <= s.targets <= s.resolved && 0 <= s.unresolved && 0 <= s.unknownEntries && 0 <= s.skipped
      && s.samples == s.resolved + s.unresolved + s.unknownEntries
      && (s.samples > 0 ==> s.rate == s.targets as real / s.samples as real)
  {
    hide Fold, Sorting.Sorted, Stats.Sum, TailSize;
  }

  lemma ReportedRowIsValid(pair: Pair, i: nat, j: nat)
    requires Reported(pair) && i < 2 && j < 2
    ensures ValidRow(RowOf(pair, i, j))
  {
    hide StatsOf, AllTimely, FirstSignal, LastSignal, Waits, Within, DaysWithin, FirstDay;
    var arm := if i == 0 then pair.stock else pair.combined;
    var split := if j == 0 then Later else Training;
    StatsAddUp(arm.trades, split);
    if SpeedOf(arm.trades, split).stats.targets > 0 {
      SuccessInRange(arm.trades, split);
    }
  }

  lemma IdsDiffer(a: string, b: string, i: nat, j: nat, k: nat, l: nat)
    requires i < 2 && j < 2 && k < 2 && l < 2 && RowId(a, i, j) == RowId(b, k, l)
    ensures a == b && i == k && j == l
  {
    var x, y := RowId(a, i, j), RowId(b, k, l);
    assert |x| == |a| + 4 && |y| == |b| + 4;
    assert x[|a| + 1] == Digit(i)[0] && y[|b| + 1] == Digit(k)[0];
    assert x[|a| + 3] == Digit(j)[0] && y[|b| + 3] == Digit(l)[0];
    assert a == x[..|a|] && b == y[..|b|];
  }

  ghost predicate DistinctIds(pairs: seq<Pair>) {
    forall j, k :: 0 <= j < k < |pairs| ==> pairs[j].id != pairs[k].id
  }

  /** A row carries the name of one of the pairs. */
  ghost predicate NamedBy(row: Row, pairs: seq<Pair>) {
    exists p, i, j :: 0 <= p < |pairs| && 0 <= i < 2 && 0 <= j < 2 && row.id == RowId(pairs[p].id, i, j)
  }

  ghost predicate Sound(rows: seq<Row>, pairs: seq<Pair>) {
    forall k :: 0 <= k < |rows| ==> ValidRow(rows[k]) && NamedBy(rows[k], pairs)
  }

  ghost predicate Unlike(rows: seq<Row>) {
    forall j, k :: 0 <= j < k < |rows| ==> rows[j].id != rows[k].id
  }

  lemma {:induction false} RowsAreValid(pairs: seq<Pair>, winners: set<string>)
    requires DistinctIds(pairs) && forall p :: 0 <= p < |pairs| ==> Reported(pairs[p])
    ensures Sound(RowsOf(pairs, winners), pairs) && Unlike(RowsOf(pairs, winners))
  {
    hide Reported, Sound, Unlike, PairRows;
    if |pairs| > 0 {
      var rest, last := pairs[..|pairs| - 1], pairs[|pairs| - 1];
      RowsAreValid(rest, winners);
      var before := RowsOf(rest, winners);
      NamesStay(before, rest, last);
      assert rest + [last] == pairs;
      if last.id in winners {
        PairAdds(rest, last, before);
      } else {
        assert RowsOf(pairs, winners) == before;
      }
    } else {
      NoRows(pairs);
    }
  }

  lemma NoRows(pairs: seq<Pair>)
    ensures Sound([], pairs) && Unlike([])
  {
  }

  lemma NamesStay(rows: seq<Row>, rest: seq<Pair>, last: Pair)
    requires Sound(rows, rest)
    ensures Sound(rows, rest + [last])
  {
    hide ValidRow, RowId;
    var pairs := rest + [last];
    forall k | 0 <= k < |rows| ensures NamedBy(rows[k], pairs) {
      var p, i, j :| 0 <= p < |rest| && 0 <= i < 2 && 0 <= j < 2 && rows[k].id == RowId(rest[p].id, i, j);
      assert pairs[p] == rest[p];
    }
  }

  lemma PairRowAt(pair: Pair, m: nat)
    requires m < 4
    ensures PairRows(pair)[m] == RowOf(pair, m / 2, m % 2)
  {
    hide RowOf;
    if m == 0 {
      assert PairRows(pair)[0] == RowOf(pair, 0, 0);
    } else if m == 1 {
      assert PairRows(pair)[1] == RowOf(pair, 0, 1);
    } else if m == 2 {
      assert PairRows(pair)[2] == RowOf(pair, 1, 0);
    } else {
      assert PairRows(pair)[3] == RowOf(pair, 1, 1);
    }
  }

  lemma RowIsNamed(rest: seq<Pair>, last: Pair, i: nat, j: nat)
    requires i < 2 && j < 2
    ensures RowOf(last, i, j).id == RowId(last.id, i, j) && NamedBy(RowOf(last, i, j), rest + [last])
  {
    hide RowId;
    var pairs := rest + [last];
    assert pairs[|rest|] == last;
    assert RowOf(last, i, j).id == RowId(pairs[|rest|].id, i, j);
  }

  /** The four rows of a pair have names of their own. */
  lemma PairAdds(rest: seq<Pair>, last: Pair, before: seq<Row>)
    requires Reported(last) && forall p :: 0 <= p < |rest| ==> rest[p].id != last.id
    requires Sound(before, rest) && Unlike(before)
    ensures Sound(before + PairRows(last), rest + [last]) && Unlike(before + PairRows(last))
  {
    hide ValidRow, Reported, NamedBy, RowId, RowOf, PairRows;
    NamesStay(before, rest, last);
    var more := PairRows(last);
    forall m | 0 <= m < 4
      ensures ValidRow(more[m]) && NamedBy(more[m], rest + [last]) && more[m].id == RowId(last.id, m / 2, m % 2)
    {
      ReportedRowIsValid(last, m / 2, m % 2);
      PairRowAt(last, m);
      RowIsNamed(rest, last, m / 2, m % 2);
    }
    forall m, n | 0 <= m < n < 4 ensures more[m].id != more[n].id {
      if more[m].id == more[n].id {
        IdsDiffer(last.id, last.id, m / 2, m % 2, n / 2, n % 2);
      }
    }
    forall k, m | 0 <= k < |before| && 0 <= m < 4 ensures before[k].id != more[m].id {
      OtherName(rest, last, before[k], m / 2, m % 2);
    }
  }

  lemma OtherName(rest: seq<Pair>, last: Pair, row: Row, i: nat, j: nat)
    requires NamedBy(row, rest) && i < 2 && j < 2 && forall p :: 0 <= p < |rest| ==> rest[p].id != last.id
    ensures row.id != RowId(last.id, i, j)
  {
    hide RowId;
    var p, k, l :| 0 <= p < |rest| && 0 <= k < 2 && 0 <= l < 2 && row.id == RowId(rest[p].id, k, l);
    if row.id == RowId(last.id, i, j) {
      IdsDiffer(rest[p].id, last.id, k, l, i, j);
    }
  }

  function Chosen(pairs: seq<Pair>, winners: set<string>): set<string> {
    set p <- pairs | p.id in winners :: p.id
  }

  /** Four rows for each pair a winner names. */
  lemma {:induction false} RowsPerWinner(pairs: seq<Pair>, winners: set<string>)
    requires DistinctIds(pairs)
    ensures |RowsOf(pairs, winners)| == 4 * |Chosen(pairs, winners)|
  {
    hide PairRows;
    if |pairs| == 0 {
      assert Chosen(pairs, winners) == {};
    } else {
      var rest, last := pairs[..|pairs| - 1], pairs[|pairs| - 1];
      RowsPerWinner(rest, winners);
      assert last.id !in Chosen(rest, winners);
      assert pairs == rest + [last];
      assert Chosen(pairs, winners) == Chosen(rest, winners) + (if last.id in winners then {last.id} else {});
    }
  }

  lemma ChosenIs(pairs: seq<Pair>, winners: set<string>, p: nat)
    requires p < |pairs| && pairs[p].id in winners
    ensures Chosen(pairs, winners) <= winners && pairs[p].id in Chosen(pairs, winners)
  {
    assert pairs[p] in pairs;
  }

  lemma ReportedRowsPass(pairs: seq<Pair>, winners: set<string>)
    requires DistinctIds(pairs) && forall p :: 0 <= p < |pairs| ==> Reported(pairs[p])
    requires |winners| <= 250 && exists p :: 0 <= p < |pairs| && pairs[p].id in winners
    ensures ValidRows(RowsOf(pairs, winners))
  {
    hide ValidRow, Reported, NamedBy, RowsOf, Chosen;
    RowsAreValid(pairs, winners);
    RowsPerWinner(pairs, winners);
    var p :| 0 <= p < |pairs| && pairs[p].id in winners;
    ChosenIs(pairs, winners, p);
    SubsetIsSmaller(Chosen(pairs, winners), winners);
    assert |Chosen(pairs, winners)| > 0;
  }

  /** Opportunities the simulator accepts. */
  type Opportunities = opps: seq<Opportunity> | forall k :: 0 <= k < |opps| ==> opps[k].Valid() witness []

  /** The arm that simulating a policy on some opportunities gives. */
  function ArmOf(s: Strategy, policy: Policy, opps: Opportunities): Arm
    requires s.Valid() && policy.Valid()
  {
    var trades := Search.Trades(s, policy, opps);
    Arm(SpeedOf(trades, Training), SpeedOf(trades, Later), trades)
  }

  /**
    What the study runs for one pair: a policy with the deadline as its horizon, on the opportunities of either arm.
  */
  datatype Run = Run(id: string, policy: Policy, confirmation: string, stock: Opportunities, combined: Opportunities)
  {
    ghost predicate Valid() {
      id != "" && policy.Valid() && policy.horizon == DEADLINE && policy.target > 0.0
    }
  }

  function PairOf(s: Strategy, run: Run): Pair
    requires s.Valid() && run.policy.Valid()
  {
    Pair(run.id, run.policy, run.confirmation, ArmOf(s, run.policy, run.stock), ArmOf(s, run.policy, run.combined))
  }

  function PairsOf(s: Strategy, runs: seq<Run>): seq<Pair>
    requires s.Valid() && forall k :: 0 <= k < |runs| ==> runs[k].Valid()
  {
    seq(|runs|, k requires 0 <= k < |runs| => assert runs[k].Valid(); PairOf(s, runs[k]))
  }

  lemma ArmIsMeasured(s: Strategy, policy: Policy, opps: Opportunities)
    requires s.Valid() && policy.Valid() && policy.horizon == DEADLINE
    ensures Measured(ArmOf(s, policy, opps))
  {
    hide Simulate, Timely;
    var trades := Search.Trades(s, policy, opps);
    forall k | 0 <= k < |trades| ensures Timely(trades[k]) {
      SimulatedIsTimely(s, policy, opps[k]);
    }
  }

  /** Every row of simulated trades passes the rules of a row. */
  lemma RowIsValid(s: Strategy, run: Run, i: nat, j: nat)
    requires s.Valid() && run.Valid() && i < 2 && j < 2
    ensures ValidRow(RowOf(PairOf(s, run), i, j))
  {
    hide ArmOf, RowOf, Measured;
    ArmIsMeasured(s, run.policy, run.stock);
    ArmIsMeasured(s, run.policy, run.combined);
    ReportedRowIsValid(PairOf(s, run), i, j);
  }

  /**
    For every strategy and any runs with names of their own, the rows built for at least one and at
    most 250 winners pass every count, rate and day rule of the validator.
  */
  lemma SpeedRowsPass(s: Strategy, runs: seq<Run>, winners: set<string>)
    requires s.Valid() && forall k :: 0 <= k < |runs| ==> runs[k].Valid()
    requires forall j, k :: 0 <= j < k < |runs| ==> runs[j].id != runs[k].id
    requires |winners| <= 250 && exists p :: 0 <= p < |runs| && runs[p].id in winners
    ensures ValidRows(RowsOf(PairsOf(s, runs), winners))
  {
    hide ArmOf, RowsOf, Measured, ValidRows;
    var pairs := PairsOf(s, runs);
    forall p | 0 <= p < |pairs| ensures Reported(pairs[p]) {
      ArmIsMeasured(s, runs[p].policy, runs[p].stock);
      ArmIsMeasured(s, runs[p].policy, runs[p].combined);
    }
    var p :| 0 <= p < |runs| && runs[p].id in winners;
    assert pairs[p].id in winners;
    ReportedRowsPass(pairs, winners);
  }

  lemma {:induction false} SubsetIsSmaller(a: set<string>, b: set<string>)
    requires a <= b
    ensures |a| <= |b|
  {
    if a != {} {
      var x :| x in a;
      SubsetIsSmaller(a - {x}, b - {x});
    }
  }
}
