/** What each row of a speed report says of the trades of its arm and period. */
module RowLaws {
  import opened Money
  import opened Market
  import opened Trading
  import opened Simulator
  import opened Ledger
  import opened Stats
  import opened Speed
  import opened ResultRows
  import Boosting

  /** The sums of the statistics are those of the training: nothing for no number, and each number added once. */
  lemma {:induction false} SumIsTotal(a: seq<real>)
    ensures Stats.Sum(a) == Boosting.Total(a)
  {
    if a != [] {
      SumIsTotal(a[..|a| - 1]);
    }
  }

  /** The share of the sample that made a profit. */
  lemma ProfitRateIs(trades: seq<Trade>, split: Split, baseline: Baseline)
    ensures var s := StatsOf(trades, split, baseline);
      s.profitRate == if s.samples > 0 then s.positive as real / s.samples as real else 0.0
  {
    hide Fold, TailSize, Stats.Sum, Sorting.Sorted;
    NoProfitRate(trades, split, baseline);
  }

  lemma {:induction false} NoProfitRate(trades: seq<Trade>, split: Split, baseline: Baseline)
    ensures Fold(trades, split, baseline).s.profitRate == 0.0
  {
    if trades != [] {
      NoProfitRate(trades[..|trades| - 1], split, baseline);
    }
  }

  // ---------- the dates of a row ----------

  ghost predicate DatedIn(trades: seq<Trade>, split: Split, date: int) {
    exists k :: 0 <= k < |trades| && trades[k].split == split && trades[k].signalDate == date
  }

  /** The dates of a row are the first and the last signal of its period; without a trade of the period it has none. */
  lemma {:induction false} SpanIs(trades: seq<Trade>, split: Split)
    ensures var from, through := FirstSignal(trades, split), LastSignal(trades, split);
      && (from.Some? <==> through.Some?)
      && (from.Some? ==> DatedIn(trades, split, from.value) && DatedIn(trades, split, through.value))
      && (forall k :: 0 <= k < |trades| && trades[k].split == split ==>
            from.Some? && through.Some? && from.value <= trades[k].signalDate <= through.value)
  {
    if |trades| > 0 {
      var n := |trades| - 1;
      var rest := trades[..n];
      SpanIs(rest, split);
      assert forall k :: 0 <= k < n ==> trades[k] == rest[k];
      assert trades[n].split == split ==> DatedIn(trades, split, trades[n].signalDate);
      if FirstSignal(rest, split).Some? {
        DatedInMore(trades, split, FirstSignal(rest, split).value);
        DatedInMore(trades, split, LastSignal(rest, split).value);
      }
    }
  }

  lemma DatedInMore(trades: seq<Trade>, split: Split, date: int)
    requires |trades| > 0 && DatedIn(trades[..|trades| - 1], split, date)
    ensures DatedIn(trades, split, date)
  {
    var k :| 0 <= k < |trades| - 1 && trades[..|trades| - 1][k].split == split
      && trades[..|trades| - 1][k].signalDate == date;
    assert trades[k].split == split && trades[k].signalDate == date;
  }

  // ---------- the waits of a period ----------

  /** The days a trade of the period is waited for: to its hit inside twenty days, else twenty-one. */
  function DaysWaited(t: Trade): nat {
    if t.entryDate.Some? && t.status.Exit? && t.targetHit && 1 <= t.targetDay <= 20 then t.targetDay else 21
  }

  /** The trades of the period that were entered, or whose entry is not known. */
  predicate InSample(t: Trade, split: Split) {
    t.split == split && (t.entryDate.Some? || t.status != EntrySkipped)
  }

  function SampleOf(trades: seq<Trade>, split: Split): seq<Trade> {
    if |trades| == 0 then [] else
      var rest, last := SampleOf(trades[..|trades| - 1], split), trades[|trades| - 1];
      if InSample(last, split) then rest + [last] else rest
  }

  function TotalOf(days: seq<nat>): nat {
    if |days| == 0 then 0 else TotalOf(days[..|days| - 1]) + days[|days| - 1]
  }

  function DaysOf(sample: seq<Trade>): (r: seq<nat>)
    ensures |r| == |sample|
  {
    seq(|sample|, k requires 0 <= k < |sample| => DaysWaited(sample[k]))
  }

  lemma {:induction false} WaitsAre(trades: seq<Trade>, split: Split)
    ensures Waits(trades, split) == DaysOf(SampleOf(trades, split))
  {
    if |trades| > 0 {
      WaitsAre(trades[..|trades| - 1], split);
    }
  }

  lemma {:induction false} AllDaysAre(days: seq<nat>)
    requires forall k :: 0 <= k < |days| ==> days[k] <= 21
    ensures DaysWithin(days, 21) == TotalOf(days)
  {
    if |days| > 0 {
      AllDaysAre(days[..|days| - 1]);
    }
  }

  /** The waits that end with a hit. */
  lemma {:induction false} HitDaysAre(days: seq<nat>)
    requires forall k :: 0 <= k < |days| ==> days[k] <= 21
    ensures DaysWithin(days, 20) == TotalOf(days) - 21 * (|days| - Within(days, 20))
  {
    if |days| > 0 {
      HitDaysAre(days[..|days| - 1]);
    }
  }

  /**
   * The penalised days of a period are the mean wait over its sample, a failure or an unknown waiting twenty-one days;
   * and the share of a day of the curve is that of the samples that wait no longer.
   */
  lemma SpeedMeans(trades: seq<Trade>, split: Split)
    ensures var r, days := SpeedOf(trades, split), DaysOf(SampleOf(trades, split));
      && r.stats.samples == |days|
      && (|days| > 0 ==> r.penalizedDays == TotalOf(days) as real / |days| as real)
      && (|days| == 0 ==> r.penalizedDays == 0.0)
      && |r.curve| == 20
      && (|days| > 0 ==> forall k :: 0 <= k < 20 ==>
            r.curve[k].rate == Within(days, k + 1) as real / |days| as real)
      && (|days| == 0 ==> forall k :: 0 <= k < 20 ==> r.curve[k].rate == 0.0)
      && (r.stats.targets > 0 ==>
            r.successDays == (TotalOf(days) - 21 * (|days| - Within(days, 20))) as real / r.stats.targets as real)
  {
    hide StatsOf, Waits, Within, FirstDay, DaysWithin, DaysOf, SampleOf, TotalOf;
    WaitsAre(trades, split);
    WaitsAreSamples(trades, split);
    SamplesOfStats(trades, split);
    var days := DaysOf(SampleOf(trades, split));
    WaitsBounded(SampleOf(trades, split));
    AllDaysAre(days);
    HitDaysAre(days);
  }

  lemma WaitsBounded(sample: seq<Trade>)
    ensures forall k :: 0 <= k < |sample| ==> DaysOf(sample)[k] <= 21
  {
  }

  /** A day on which a share of the sample has met its target, no earlier one having done so; zero when none has. */
  ghost predicate FirstWith(days: seq<nat>, part: int, whole: int, d: nat) {
    && d <= 20
    && (d > 0 ==> Within(days, d) * whole >= |days| * part)
    && (forall e :: 1 <= e <= 20 && (d == 0 || e < d) ==> Within(days, e) * whole < |days| * part)
  }

  /** The two days of a period on which a half and four fifths of its sample have met their target. */
  lemma ShareDays(trades: seq<Trade>, split: Split)
    ensures var r, days := SpeedOf(trades, split), DaysOf(SampleOf(trades, split));
      && (days == [] ==> r.day50 == r.day80 == 0)
      && (days != [] ==> FirstWith(days, 1, 2, r.day50) && FirstWith(days, 4, 5, r.day80))
  {
    hide StatsOf, Waits, Within, FirstDay, DaysWithin, DaysOf, SampleOf;
    WaitsAre(trades, split);
    WaitsAreSamples(trades, split);
    SamplesOfStats(trades, split);
    var days := DaysOf(SampleOf(trades, split));
    FirstDayIsFirst(days, |days|, 1, 2, 20);
    FirstDayIsFirst(days, |days|, 4, 5, 20);
  }

  // ---------- the row ----------

  /** The row shows the trades of one arm in one period. */
  ghost predicate Shows(row: Row, pair: Pair, trades: seq<Trade>, split: Split) {
    var s, r := StatsOf(trades, split, map[]), SpeedOf(trades, split);
    && row.rule == pair.policy.rule && row.confirmation == pair.confirmation && row.target == pair.policy.target
    && row.stop == Some(0.0) && row.horizon == 20 && row.batches == pair.policy.batches
    && row.from == FirstSignal(trades, split) && row.through == LastSignal(trades, split)
    && row.samples == s.samples && row.resolved == s.resolved && row.skipped == s.skipped
    && row.unresolved == s.unresolved + s.unknownEntries
    && (s.samples > 0 ==>
          row.targets == Some(s.targets) && row.rate == Some(s.rate) && row.penalizedDays == Some(r.penalizedDays))
    && (s.samples == 0 ==> row.targets == None && row.rate == None && row.penalizedDays == None)
    && row.targetDays == (if s.targets > 0 then Some(r.successDays) else None)
    && (s.resolved > 0 ==>
          && row.holdingDays == Some(s.meanDays) && row.meanNet == Some(s.meanNet)
          && row.maxLoss == Some(if s.worstNet < 0.0 then -s.worstNet else 0.0))
    && (s.resolved == 0 ==> row.holdingDays == None && row.meanNet == None && row.maxLoss == None)
    && row.maxAdverse == None
  }

  /**
   * Of the four rows of a measured pair the first two show the stock alone and the others the stock with its sector and
   * the market; the first of either two shows the later trades and the second the training trades.
   */
  lemma RowsShow(pair: Pair)
    requires Measured(pair.stock) && Measured(pair.combined)
    ensures var rows := PairRows(pair);
      && Shows(rows[0], pair, pair.stock.trades, Later) && Shows(rows[1], pair, pair.stock.trades, Training)
      && Shows(rows[2], pair, pair.combined.trades, Later) && Shows(rows[3], pair, pair.combined.trades, Training)
      && rows[0].label_ == rows[1].label_ == "stock" && rows[2].label_ == rows[3].label_ == "stock+sector+market"
      && rows[0].period == rows[2].period == "later" && rows[1].period == rows[3].period == "training"
      && rows[0].id == pair.id + "/0/0" && rows[1].id == pair.id + "/0/1"
      && rows[2].id == pair.id + "/1/0" && rows[3].id == pair.id + "/1/1"
  {
    hide Shows, StatsOf, SpeedOf, AllTimely, FirstSignal, LastSignal, RowOf;
    RowShows(pair, 0, 0);
    RowShows(pair, 0, 1);
    RowShows(pair, 1, 0);
    RowShows(pair, 1, 1);
  }

  lemma RowShows(pair: Pair, i: nat, j: nat)
    requires i < 2 && j < 2 && Measured(pair.stock) && Measured(pair.combined)
    ensures var row, arm := RowOf(pair, i, j), if i == 0 then pair.stock else pair.combined;
      && Shows(row, pair, arm.trades, if j == 0 then Later else Training)
      && row.label_ == (if i == 0 then "stock" else "stock+sector+market")
      && row.period == (if j == 0 then "later" else "training")
      && row.id == pair.id + (if i == 0 then "/0" else "/1") + (if j == 0 then "/0" else "/1")
  {
    hide StatsOf, AllTimely, FirstSignal, LastSignal, Waits, Within, DaysWithin, FirstDay;
  }

  lemma DistanceIs(x: real, y: real)
    ensures ResultRows.Distance(x, y) == Abs(x - y)
  {
  }

  /** The tail is the twentieth part of the trades, rounded up. */
  lemma TailSizeIs(n: nat)
    requires n >= 1
    ensures TailSize(n) == (n + 19) / 20
  {
    var k := Ceil(0.05 * n as real);
    assert (k as real - 1.0) * 20.0 < n as real <= k as real * 20.0;
  }
}
