/** `BuildDataset` and `BuildPredictionSnapshots` of internal/dayrange/snapshot.go, and what they have in common. */
module Premarket {
  import opened Market
  import opened Baseline
  import opened Calendar
  import opened Returns
  import opened Snapshots
  import Calibration
  import Coverage
  import Money

  // ---------- Serving ----------

  datatype Served = Served(snapshot: Option<Snapshot>, reason: Reason)

  /** How many days lie before the target. */
  function Earlier(trading: seq<Day>, target: Day): (r: nat)
    ensures r <= |trading|
    ensures forall k :: 0 <= k < r ==> trading[k] < target
    ensures r < |trading| ==> target <= trading[r]
  {
    if |trading| == 0 || target <= trading[0] then 0 else 1 + Earlier(trading[1..], target)
  }

  /** The snapshot as served: stamped with the time it was made, when it is ready. */
  function Stamped(made: (Option<Snapshot>, Reason), target: Day, now: Option<int>): Served {
    if made.1 == Ready && made.0.Some? then
      Served(Some(made.0.value.(asOf := if now.Some? then now.value else PremarketAsOf(target))), Ready)
    else Served(made.0, made.1)
  }

  function ServedSnapshot(m: Math, cfg: Config, input: seq<Input>, trading: seq<Day>, stock: Stock, target: Day,
      now: Option<int>): Served
    requires 0 < Earlier(trading, target)
  {
    var n := Earlier(trading, target);
    Stamped(SnapshotAfter(m, cfg, input, trading[..n], n - 1, stock, target), target, now)
  }

  /**
    The views of a target day frozen before it opens; nothing
    when the calendar does not hold the day and one before it.
  */
  method BuildPredictionSnapshots(m: Math, cfg: Config, stocks: seq<Stock>, input: seq<Input>, tradingDays: seq<Day>,
      target: Day, now: Option<int>)
    returns (r: Option<seq<Served>>)
    ensures var trading := Coverage.SortDays(tradingDays);
      && (r.Some? <==> target in trading && Earlier(trading, target) > 0)
      && (r.Some? ==>
            && |r.value| == |stocks|
            && forall k :: 0 <= k < |stocks| ==>
                 r.value[k] == ServedSnapshot(m, cfg, input, trading, stocks[k], target, now))
  {
    hide MakeSnapshot, StatsAt, ServedSnapshot, Stamped, ItemOf, Earlier, Coverage.SortDays, Returned, LastPlace;
    var trading := Coverage.SortDays(tradingDays);
    Coverage.SortDaysSorts(tradingDays);
    var index := Earlier(trading, target);
    TargetIsNext(trading, target);
    if index >= |trading| || trading[index] != target || index == 0 {
      return None;
    }
    var returns_ := AllReturns(m.log, input);
    var market := BuildMarketStats(m.sqrt, m.log, trading[..index], input, returns_);
    var ref := trading[index - 1];
    assert trading[..index][index - 1] == ref;
    var out: seq<Served> := [];
    for k := 0 to |stocks|
      invariant |out| == k
      invariant forall j :: 0 <= j < k ==> out[j] == ServedSnapshot(m, cfg, input, trading, stocks[j], target, now)
    {
      var made := MakeSnapshot(m, cfg, stocks[k], ItemOf(input, stocks[k]), target, ref, Some(market[ref]), input);
      ServedIs(m, cfg, input, trading, stocks[k], target, now);
      out := out + [Stamped(made, target, now)];
    }
    return Some(out);
  }

  lemma ServedIs(m: Math, cfg: Config, input: seq<Input>, trading: seq<Day>, stock: Stock, target: Day,
      now: Option<int>)
    requires 0 < Earlier(trading, target)
    ensures
      var n := Earlier(trading, target);
      var market := Some(StatsAt(m.sqrt, m.log, input, trading[..n], LastPlace(trading[..n], trading[n - 1])));
      ServedSnapshot(m, cfg, input, trading, stock, target, now)
      == Stamped(MakeSnapshot(m, cfg, stock, ItemOf(input, stock), target, trading[n - 1], market, input), target, now)
  {
    hide MakeSnapshot, StatsAt, ItemOf;
  }

  lemma TargetIsNext(trading: seq<Day>, target: Day)
    requires Coverage.Ascending(trading)
    ensures var n := Earlier(trading, target); target in trading <==> n < |trading| && trading[n] == target
  {
    var n := Earlier(trading, target);
    if target in trading {
      var k :| 0 <= k < |trading| && trading[k] == target;
    }
  }

  // ---------- Training ----------

  datatype Session = Traded | Suspended | UnknownSession

  datatype Flaw = Missing(reason: Reason) | TargetSuspended | StatusUnknown | SourceInconsistent | InvalidPrices
    | AdjustedTargetMissing | CorporateAction

  datatype Outcome = Resolved(actual: Calibration.Extremes, source: string) | Unresolved(flaw: Flaw)

  /** A training sample: the snapshot of the day before and what the target day did. */
  datatype Sample = Sample(stock: Stock, target: Day, snapshot: Option<Snapshot>, outcome: Outcome)

  function Corporate(log: real -> real, rawRef: Bar, rawTarget: Bar, adjRef: Bar, adjTarget: Bar): bool
    requires rawRef.close > 0.0 && adjRef.close > 0.0
  {
    Money.Abs(log(rawTarget.open / rawRef.close) - log(adjTarget.open / adjRef.close)) > 0.03
  }

  /** What the target day itself says once the snapshot is ready. */
  function LabelOf(m: Math, item: Input, target: Day, ref: Day): Outcome
    requires BarOn(item.raw, target).Some? && BarOn(item.raw, ref).Some? && BarOn(item.adjusted, ref).Some?
  {
    var rawTarget, rawRef, adjRef := BarOn(item.raw, target).value, BarOn(item.raw, ref).value,
      BarOn(item.adjusted, ref).value;
    var adjTarget := BarOn(item.adjusted, target);
    var source := if target in item.rawSource then item.rawSource[target] else "";
    var refSource := if ref in item.rawSource then item.rawSource[ref] else "";
    if !ValidBar(rawTarget) || !ValidBar(rawRef) then Unresolved(InvalidPrices)
    else if source == "" || refSource == "" || source != refSource then Unresolved(SourceInconsistent)
    else if adjTarget.None? then Unresolved(AdjustedTargetMissing)
    else if !ValidBar(adjRef) || !ValidBar(adjTarget.value) then Unresolved(InvalidPrices)
    else if Corporate(m.log, rawRef, rawTarget, adjRef, adjTarget.value) then Unresolved(CorporateAction)
    else Resolved(Calibration.Extremes(rawTarget.high, rawTarget.low), source)
  }

  function BuildSample(m: Math, cfg: Config, stock: Stock, item: Input, target: Day, ref: Day, market: Option<Stats>,
      input: seq<Input>, status: Option<Session>): Sample
  {
    var raw := BarOn(item.raw, target);
    var made := MakeSnapshot(m, cfg, stock, item, target, ref, market, input);
    if status == Some(Suspended) then
      Sample(stock, target, None, Unresolved(if raw.Some? then SourceInconsistent else TargetSuspended))
    else if status != Some(Traded) || raw.None? then Sample(stock, target, None, Unresolved(StatusUnknown))
    else if made.1 != Ready then Sample(stock, target, made.0, Unresolved(Missing(made.1)))
    else
      (var said := LabelOf(m, item, target, ref);
       Sample(stock, target, if said.Resolved? then made.0 else None, said))
  }

  datatype Audit = Audit(candidates: nat, resolved: nat, unresolved: nat)

  datatype Dataset = Dataset(samples: seq<Sample>, audit: Audit)

  /** The trading days of the history window, up to the as-of date. */
  function Active(trading: seq<Day>, start: int, asof: Day): seq<Day> {
    if |trading| == 0 then []
    else
      var last := trading[|trading| - 1];
      Active(trading[..|trading| - 1], start, asof) + (if start <= last <= asof then [last] else [])
  }

  type Statuses = map<string, map<Day, Session>>

  function StatusOn(statuses: Statuses, code: string, d: Day): Option<Session> {
    if code in statuses && d in statuses[code] then Some(statuses[code][d]) else None
  }

  function SampleAt(m: Math, cfg: Config, stocks: seq<Stock>, input: seq<Input>, active: seq<Day>, statuses: Statuses,
      k: nat, s: nat): Sample
    requires 1 <= k < |active| && s < |stocks|
  {
    var stock := stocks[s];
    BuildSample(m, cfg, stock, ItemOf(input, stock), active[k], active[k - 1], MarketOn(m, input, active, k - 1), input,
                StatusOn(statuses, stock.code, active[k]))
  }

  lemma SampleIs(m: Math, cfg: Config, stocks: seq<Stock>, input: seq<Input>, active: seq<Day>, statuses: Statuses,
      k: nat, s: nat)
    requires 1 <= k < |active| && s < |stocks|
    ensures
      var market := Some(StatsAt(m.sqrt, m.log, input, active, LastPlace(active, active[k - 1])));
      SampleAt(m, cfg, stocks, input, active, statuses, k, s)
      == BuildSample(m, cfg, stocks[s], ItemOf(input, stocks[s]), active[k], active[k - 1], market, input,
        StatusOn(statuses, stocks[s].code, active[k]))
  {
    hide BuildSample, StatsAt, ItemOf, StatusOn;
  }

  /** The samples of one target day, for the first `n` stocks. */
  function Row(m: Math, cfg: Config, stocks: seq<Stock>, input: seq<Input>, active: seq<Day>, statuses: Statuses,
      k: nat, n: nat): seq<Sample>
    requires 1 <= k < |active| && n <= |stocks|
  {
    if n == 0 then []
    else
      Row(m, cfg, stocks, input, active, statuses, k, n - 1)
      + [SampleAt(m, cfg, stocks, input, active, statuses, k, n - 1)]
  }

  /** The samples of the target days before the k-th active one. */
  function Rows(m: Math, cfg: Config, stocks: seq<Stock>, input: seq<Input>, active: seq<Day>, statuses: Statuses,
      k: nat): seq<Sample>
    requires 1 <= k <= |active|
  {
    if k == 1 then []
    else
      Rows(m, cfg, stocks, input, active, statuses, k - 1)
      + Row(m, cfg, stocks, input, active, statuses, k - 1, |stocks|)
  }

  function Resolutions(samples: seq<Sample>): nat {
    if |samples| == 0 then 0 else Resolutions(samples[..|samples| - 1]) + if samples[|samples| - 1].outcome.Resolved?
      then 1 else 0
  }

  lemma RowsStart(m: Math, cfg: Config, stocks: seq<Stock>, input: seq<Input>, active: seq<Day>, statuses: Statuses)
    requires |active| > 0
    ensures Rows(m, cfg, stocks, input, active, statuses, 1) == [] && Resolutions([]) == 0
  {
  }

  lemma RowsStep(m: Math, cfg: Config, stocks: seq<Stock>, input: seq<Input>, active: seq<Day>, statuses: Statuses,
      k: nat)
    requires 1 <= k < |active|
    ensures Rows(m, cfg, stocks, input, active, statuses, k + 1)
         == Rows(m, cfg, stocks, input, active, statuses, k) + Row(m, cfg, stocks, input, active, statuses, k, |stocks|)
  {
    hide Row;
  }

  lemma {:induction false} ResolutionsAdd(a: seq<Sample>, b: seq<Sample>)
    ensures Resolutions(a + b) == Resolutions(a) + Resolutions(b)
  {
    if |b| == 0 {
      assert a + b == a;
    } else {
      ResolutionsAdd(a, b[..|b| - 1]);
      assert (a + b)[..|a + b| - 1] == a + b[..|b| - 1];
    }
  }

  /** The samples of one target day, and how many of them have a label. */
  method BuildDay(m: Math, cfg: Config, stocks: seq<Stock>, input: seq<Input>, active: seq<Day>, statuses: Statuses,
      k: nat, market: Option<Stats>)
    returns (row: seq<Sample>, resolved: nat)
    requires 1 <= k < |active| && market == MarketOn(m, input, active, k - 1)
    ensures row == Row(m, cfg, stocks, input, active, statuses, k, |stocks|)
    ensures resolved == Resolutions(row) <= |row|
  {
    hide BuildSample, StatsAt, SampleAt, ItemOf, StatusOn;
    row, resolved := [], 0;
    for s := 0 to |stocks|
      invariant row == Row(m, cfg, stocks, input, active, statuses, k, s)
      invariant resolved == Resolutions(row) <= |row|
    {
      var stock := stocks[s];
      var sample := BuildSample(m, cfg, stock, ItemOf(input, stock), active[k], active[k - 1], market, input,
                                StatusOn(statuses, stock.code, active[k]));
      SampleIs(m, cfg, stocks, input, active, statuses, k, s);
      assert (row + [sample])[..|row|] == row;
      if sample.outcome.Resolved? {
        resolved := resolved + 1;
      }
      row := row + [sample];
    }
  }

  /** One sample for every stock on every active day but the first, in order, each counted once. */
  method BuildSamples(m: Math, cfg: Config, stocks: seq<Stock>, input: seq<Input>, active: seq<Day>,
      statuses: Statuses) returns (r: Dataset)
    requires |active| > 0
    ensures r.samples == Rows(m, cfg, stocks, input, active, statuses, |active|)
    ensures r.audit.candidates == |r.samples| == r.audit.resolved + r.audit.unresolved
    ensures r.audit.resolved == Resolutions(r.samples)
  {
    hide StatsAt, Returned, Row, Rows, Resolutions, LastPlace;
    var returns_ := AllReturns(m.log, input);
    var market := BuildMarketStats(m.sqrt, m.log, active, input, returns_);
    RowsStart(m, cfg, stocks, input, active, statuses);
    var samples: seq<Sample> := [];
    var candidates: nat, resolved: nat, unresolved: nat := 0, 0, 0;
    var previous := active[0];
    for k := 1 to |active|
      invariant previous == active[k - 1]
      invariant samples == Rows(m, cfg, stocks, input, active, statuses, k)
      invariant candidates == |samples| == resolved + unresolved && resolved == Resolutions(samples)
    {
      var row, more := BuildDay(m, cfg, stocks, input, active, statuses, k, Some(market[previous]));
      RowsStep(m, cfg, stocks, input, active, statuses, k);
      ResolutionsAdd(samples, row);
      samples := samples + row;
      candidates := candidates + |row|;
      resolved := resolved + more;
      unresolved := unresolved + (|row| - more);
      previous := active[k];
    }
    return Dataset(samples, Audit(candidates, resolved, unresolved));
  }

  /** The data set of a history window; nothing when the calendar does not reach the as-of date. */
  method BuildDataset(m: Math, cfg: Config, historyDays: nat, stocks: seq<Stock>, input: seq<Input>,
      tradingDays: seq<Day>, statuses: Statuses, asof: Day)
    returns (r: Option<Dataset>)
    ensures var active := Active(Coverage.SortDays(tradingDays), asof - historyDays, asof);
      && (r.Some? <==> |active| > 0 && active[|active| - 1] == asof)
      && (r.Some? ==>
            && r.value.samples == Rows(m, cfg, stocks, input, active, statuses, |active|)
            && r.value.audit.candidates == |r.value.samples| == r.value.audit.resolved + r.value.audit.unresolved
            && r.value.audit.resolved == Resolutions(r.value.samples))
  {
    hide Coverage.SortDays, Active, Rows, Resolutions;
    var trading := Coverage.SortDays(tradingDays);
    var active := ActiveDays(trading, asof - historyDays, asof);
    if |active| == 0 || active[|active| - 1] != asof {
      return None;
    }
    var dataset := BuildSamples(m, cfg, stocks, input, active, statuses);
    return Some(dataset);
  }

  method ActiveDays(trading: seq<Day>, start: int, asof: Day) returns (active: seq<Day>)
    ensures active == Active(trading, start, asof)
  {
    active := [];
    for k := 0 to |trading|
      invariant active == Active(trading[..k], start, asof)
    {
      assert trading[..k + 1][..k] == trading[..k];
      if trading[k] >= start && trading[k] <= asof {
        active := active + [trading[k]];
      }
    }
    assert trading[..|trading|] == trading;
  }

  /** How many days lie before a date. */
  function Below(trading: seq<Day>, date: int): (r: nat)
    ensures r <= |trading|
  {
    if |trading| == 0 then 0
    else Below(trading[..|trading| - 1], date) + if trading[|trading| - 1] < date then 1 else 0
  }

  lemma {:induction false} AllBelow(trading: seq<Day>, date: int)
    requires forall k :: 0 <= k < |trading| ==> trading[k] < date
    ensures Below(trading, date) == |trading|
  {
    if |trading| > 0 {
      AllBelow(trading[..|trading| - 1], date);
    }
  }

  lemma SliceOfRest(t: seq<Day>, lo: nat, hi: nat)
    requires lo <= hi < |t|
    ensures t[..|t| - 1][lo..hi] == t[lo..hi] && t[lo..hi] + [t[hi]] == t[lo..hi + 1]
  {
  }

  /** The active days are a stretch of the calendar. */
  lemma {:induction false} ActiveIs(trading: seq<Day>, start: int, asof: Day)
    requires StrictlyAscending(trading) && start <= asof
    ensures Below(trading, start) <= Below(trading, asof + 1)
    ensures Active(trading, start, asof) == trading[Below(trading, start)..Below(trading, asof + 1)]
  {
    if |trading| > 0 {
      hide Active, Below;
      var rest, last := trading[..|trading| - 1], trading[|trading| - 1];
      ActiveIs(rest, start, asof);
      ActiveStep(trading, start, asof);
      var lo, hi := Below(rest, start), Below(rest, asof + 1);
      assert forall k :: 0 <= k < |rest| ==> rest[k] < last;
      hide StrictlyAscending;
      if last < start {
        AllBelow(rest, start);
        AllBelow(rest, asof + 1);
        assert rest[lo..hi] == [] == trading[lo + 1..hi + 1];
      } else if last <= asof {
        AllBelow(rest, asof + 1);
        SliceOfRest(trading, lo, hi);
      } else {
        SliceOfRest(trading, lo, hi);
      }
    }
  }

  lemma ActiveAscends(trading: seq<Day>, start: int, asof: Day)
    requires StrictlyAscending(trading) && start <= asof
    ensures StrictlyAscending(Active(trading, start, asof))
  {
    hide Active, Below;
    ActiveIs(trading, start, asof);
  }

  lemma ActiveStep(trading: seq<Day>, start: int, asof: Day)
    requires |trading| > 0
    ensures
      var rest, last := trading[..|trading| - 1], trading[|trading| - 1];
      && Active(trading, start, asof) == Active(rest, start, asof) + (if start <= last <= asof then [last] else [])
      && Below(trading, start) == Below(rest, start) + (if last < start then 1 else 0)
      && Below(trading, asof + 1) == Below(rest, asof + 1) + (if last < asof + 1 then 1 else 0)
  {
  }

  // ---------- Training and serving see the same past, and nothing else ----------

  /**
    Two calendars with the same days before the target and two data sets with the same past serve the same snapshot.
  */
  lemma ServingSeesThrough(m: Math, cfg: Config, a: seq<Input>, b: seq<Input>, ta: seq<Day>, tb: seq<Day>,
      stock: Stock, target: Day, now: Option<int>)
    requires StrictlyAscending(ta) && StrictlyAscending(tb) && 0 < Earlier(ta, target)
    requires Earlier(ta, target) == Earlier(tb, target) && ta[..Earlier(ta, target)] == tb[..Earlier(tb, target)]
    requires SameThrough(a, b, ta[Earlier(ta, target) - 1])
    ensures ServedSnapshot(m, cfg, a, ta, stock, target, now) == ServedSnapshot(m, cfg, b, tb, stock, target, now)
  {
    hide SnapshotAfter, SameThrough, Stamped, Earlier;
    var n := Earlier(ta, target);
    var days := ta[..n];
    assert days[n - 1] == ta[n - 1];
    SnapshotSeesThrough(m, cfg, a, b, days, n - 1, days, n - 1, stock, target);
  }

  /** The snapshot of a training sample does not depend on the target day or anything after it. */
  lemma TrainingSeesThrough(m: Math, cfg: Config, a: seq<Input>, b: seq<Input>, active: seq<Day>, k: nat, stock: Stock)
    requires StrictlyAscending(active) && 1 <= k < |active| && SameThrough(a, b, active[k - 1])
    ensures SnapshotAfter(m, cfg, a, active, k - 1, stock, active[k])
      == SnapshotAfter(m, cfg, b, active, k - 1, stock, active[k])
  {
    hide SnapshotAfter, SameThrough;
    SnapshotSeesThrough(m, cfg, a, b, active, k - 1, active, k - 1, stock, active[k]);
  }

  lemma SampleHasSnapshot(m: Math, cfg: Config, stocks: seq<Stock>, input: seq<Input>, active: seq<Day>,
      statuses: Statuses, k: nat, s: nat)
    requires 1 <= k < |active| && s < |stocks|
    ensures
      var sample := SampleAt(m, cfg, stocks, input, active, statuses, k, s);
      sample.snapshot.Some? ==> sample.snapshot == SnapshotAfter(m, cfg, input, active, k - 1, stocks[s], active[k]).0
  {
    hide MakeSnapshot, LabelOf, StatsAt, BarOn, ItemOf;
  }

  /** The place of an active day in the calendar it was cut from. */
  lemma PlaceInCalendar(trading: seq<Day>, start: int, asof: Day, k: nat)
    requires StrictlyAscending(trading) && start <= asof
    requires 1 <= k < |Active(trading, start, asof)|
    ensures
      var active := Active(trading, start, asof);
      var n := Earlier(trading, active[k]);
      n >= k && n < |trading| && active[..k] == trading[n - k..n]
  {
    hide Active, Below;
    ActiveIs(trading, start, asof);
    var active := Active(trading, start, asof);
    var lo := Below(trading, start);
    var n := Earlier(trading, active[k]);
    assert active[k] == trading[lo + k];
    assert n == lo + k;
    assert active[..k] == trading[lo..lo + k];
  }

  /**
    Once twenty earlier active days exist, training and serving
    make the same snapshot of a stock for the same target day.
  */
  lemma TrainingIsServing(m: Math, cfg: Config, input: seq<Input>, trading: seq<Day>, start: int, asof: Day, k: nat,
      stock: Stock)
    requires StrictlyAscending(trading) && start <= asof
    requires forall i :: 0 <= i < |input| ==> DateOrdered(input[i].raw)
    requires 21 <= k < |Active(trading, start, asof)|
    ensures
      var active := Active(trading, start, asof);
      var n := Earlier(trading, active[k]);
      && 0 < n
      && SnapshotAfter(m, cfg, input, active, k - 1, stock, active[k])
      == SnapshotAfter(m, cfg, input, trading[..n], n - 1, stock, active[k])
  {
    hide SnapshotAfter, Active, Earlier, Through;
    var active := Active(trading, start, asof);
    var n := Earlier(trading, active[k]);
    ActiveAscends(trading, start, asof);
    PlaceInCalendar(trading, start, asof, k);
    var days := trading[..n];
    SameWindow(active, trading, n, k);
    SnapshotSeesThrough(m, cfg, input, input, active, k - 1, days, n - 1, stock, active[k]);
  }

  lemma SameWindow(active: seq<Day>, trading: seq<Day>, n: nat, k: nat)
    requires 21 <= k <= |active| && k <= n <= |trading| && active[..k] == trading[n - k..n]
    ensures active[k - 1] == trading[..n][n - 1]
    ensures active[k - 21..k] == trading[..n][n - 21..n]
  {
    assert active[..k][k - 1] == trading[n - k..n][k - 1];
    assert active[k - 21..k] == active[..k][k - 21..k];
    assert trading[..n][n - 21..n] == trading[n - k..n][k - 21..k];
  }

  /** There is a market view after `n` days: each of the twenty before the last has a return of some stock. */
  predicate HasMarket(log: real -> real, input: seq<Input>, trading: seq<Day>, n: nat)
    requires 0 < n <= |trading|
  {
    n >= 21 && forall d :: n - 21 <= d < n - 1 ==> DayValues(log, input, trading[d], |input|) != []
  }

  lemma {:induction false} AllAverage(log: real -> real, input: seq<Input>, days: seq<Day>)
    ensures |Averages(log, input, days)| <= |days|
    ensures |Averages(log, input, days)| == |days| <==>
      forall d :: 0 <= d < |days| ==> DayValues(log, input, days[d], |input|) != []
  {
    hide DayValues;
    if |days| > 0 {
      AllAverage(log, input, days[..|days| - 1]);
    }
  }

  lemma MarketIs(sqrt: real -> real, log: real -> real, input: seq<Input>, trading: seq<Day>, n: nat)
    requires 0 < n <= |trading|
    ensures StatsAt(sqrt, log, input, trading[..n], n - 1).available <==> HasMarket(log, input, trading, n)
  {
    hide DayValues, Averages;
    if n >= 21 {
      var window := trading[n - 21..n - 1];
      assert trading[..n][n - 1 - 20..n - 1] == window;
      AllAverage(log, input, window);
      assert forall d :: n - 21 <= d < n - 1 ==> trading[d] == window[d - (n - 21)];
      assert forall d :: 0 <= d < 20 ==> window[d] == trading[d + n - 21];
    }
  }

  /** What a snapshot needs of the reference date: a raw bar and a valid adjusted one. */
  predicate HasReference(item: Input, ref: Day) {
    BarOn(item.raw, ref).Some? && BarOn(item.adjusted, ref).Some? && ValidBar(BarOn(item.adjusted, ref).value)
  }

  /**
    Before that the two agree exactly when the market features are off, or the calendar has no market
    view for serving either, or the stock has no usable bar on the reference date.
  */
  lemma EarlyTrainingIsServingIff(
      m: Math, cfg: Config, input: seq<Input>, trading: seq<Day>, start: int, asof: Day, k: nat, stock: Stock)
    requires StrictlyAscending(trading) && start <= asof
    requires 1 <= k <= 20 && k < |Active(trading, start, asof)|
    ensures
      var active := Active(trading, start, asof);
      var n := Earlier(trading, active[k]);
      && 0 < n
      && (SnapshotAfter(m, cfg, input, active, k - 1, stock, active[k])
          == SnapshotAfter(m, cfg, input, trading[..n], n - 1, stock, active[k])
          <==> || !cfg.useMarket
               || !HasMarket(m.log, input, trading, n)
               || !HasReference(ItemOf(input, stock), active[k - 1]))
  {
    hide Active, Earlier, StatsAt, HasMarket, HasReference, ItemOf, MakeSnapshot;
    var active := Active(trading, start, asof);
    var n := Earlier(trading, active[k]);
    ActiveAscends(trading, start, asof);
    PlaceInCalendar(trading, start, asof, k);
    EarlyStats(m, input, active, k - 1);
    assert active[k - 1] == active[..k][k - 1] == trading[n - k..n][k - 1] == trading[n - 1];
    var stats := StatsAt(m.sqrt, m.log, input, trading[..n], n - 1);
    MarketIs(m.sqrt, m.log, input, trading, n);
    MarketShows(m, cfg, stock, ItemOf(input, stock), active[k], active[k - 1], stats, input);
  }

  /** The market features are in the snapshot when they are wanted and there are any. */
  lemma MarketShows(m: Math, cfg: Config, stock: Stock, item: Input, target: Day, ref: Day, stats: Stats,
      input: seq<Input>)
    ensures
      MakeSnapshot(m, cfg, stock, item, target, ref, Some(UNAVAILABLE), input)
      == MakeSnapshot(m, cfg, stock, item, target, ref, Some(stats), input)
      <==> !cfg.useMarket || !stats.available || !HasReference(item, ref)
  {
    hide SectorFeatures, Placed, Forecasted, Scale, Through, BarOn, ValidBar, TrendOf, VolatilityOf;
    var without := BuildFeatures(m, cfg, stock, Through(item.raw, ref), Some(UNAVAILABLE), input, ref);
    var with_ := BuildFeatures(m, cfg, stock, Through(item.raw, ref), Some(stats), input, ref);
    assert without == with_ <==> !cfg.useMarket || !stats.available;
  }

  // ---------- They do differ ----------

  /** A flat series with a bar on each of the days 0 to `n` - 1. */
  function FlatBars(n: nat): (bars: seq<Bar>)
    ensures |bars| == n
  {
    seq(n, k => Bar(k, 10.0, 10.0, 10.0, 10.0, 1.0))
  }

  function DaysFromOne(n: nat): (days: seq<Day>)
    requires n <= LAST_DAY
    ensures |days| == n
  {
    seq(n, k requires 0 <= k < n => k + 1)
  }

  lemma {:induction false} FlatReturns(log: real -> real, n: nat, d: nat)
    requires 1 <= d < n
    ensures ReturnOn(log, FlatBars(n), d).Some?
  {
    assert FlatBars(n)[..n - 1] == FlatBars(n - 1);
    if d < n - 1 {
      FlatReturns(log, n - 1, d);
    }
  }

  lemma {:induction false} BelowFromOne(n: nat, date: int)
    requires 1 <= date <= n + 1 <= LAST_DAY
    ensures Below(DaysFromOne(n), date) == date - 1
  {
    if n > 0 {
      var rest := DaysFromOne(n)[..n - 1];
      assert rest == DaysFromOne(n - 1);
      if date <= n {
        BelowFromOne(n - 1, date);
      } else {
        AllBelow(DaysFromOne(n), date);
      }
    }
  }

  function Only(stock: Stock): seq<Input> {
    [Input(stock, FlatBars(22), FlatBars(22), map[], map[])]
  }

  lemma OnlyTraded(log: real -> real, stock: Stock, d: Day)
    requires 1 <= d < 22
    ensures DayValues(log, Only(stock), d, 1) != []
  {
    FlatReturns(log, 22, d);
    var input := Only(stock);
    assert LastOf(input, stock.code) == Some(0);
    assert MarketReturn(log, input, stock.code, d).Some?;
  }

  /**
    With the market features on, one stock with a flat price and trading days from 1 on, and a history
    window of any length the configuration allows that begins on day 21: the snapshot for day 22 has no
    market view in training, and served it has one.
  */
  lemma EarlyTrainingDiffers(m: Math, cfg: Config, stock: Stock, historyDays: nat)
    requires cfg.useMarket && 180 <= historyDays <= 7300
    ensures
      var asof := historyDays + 21;
      var trading := DaysFromOne(asof);
      var active := Active(trading, asof - historyDays, asof);
      && StrictlyAscending(trading) && |active| == historyDays + 1
      && active[1] == 22 && Earlier(trading, 22) == 21
      && SnapshotAfter(m, cfg, Only(stock), active, 0, stock, 22)
         != SnapshotAfter(m, cfg, Only(stock), trading[..21], 20, stock, 22)
  {
    hide Active, Below, SnapshotAfter, DayValues, Earlier;
    var asof := historyDays + 21;
    var trading, input := DaysFromOne(asof), Only(stock);
    var active := Active(trading, 21, asof);
    ActiveIs(trading, 21, asof);
    BelowFromOne(asof, 21);
    BelowFromOne(asof, asof + 1);
    var n := Earlier(trading, 22);
    assert trading[21] == 22 && forall j :: 0 <= j < 21 ==> trading[j] < 22;
    forall d | 0 <= d < 20 ensures DayValues(m.log, input, trading[d], |input|) != [] {
      OnlyTraded(m.log, stock, trading[d]);
    }
    OnlyReference(stock);
    EarlyTrainingIsServingIff(m, cfg, input, trading, 21, asof, 1, stock);
  }

  lemma OnlyReference(stock: Stock)
    ensures HasReference(ItemOf(Only(stock), stock), 21)
  {
    var bars := FlatBars(22);
    assert BarOn(bars, 21) == Some(bars[21]);
    assert LastOf(Only(stock), stock.code) == Some(0);
  }
}
