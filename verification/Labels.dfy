/** What a training sample says of its target day, in the bars, the sources and the calendar it is built from. */
module Labels {
  import opened Market
  import opened Baseline
  import opened Calendar
  import opened Returns
  import opened Snapshots
  import opened Premarket
  import Coverage
  import Calibration
  import Money

  // ---------- the bars of a day ----------

  /** The last bar dated on the day, or none when no bar is. */
  ghost predicate LastDated(bars: seq<Bar>, d: Day, b: Option<Bar>) {
    match b
    case None => forall k :: 0 <= k < |bars| ==> bars[k].date != d
    case Some(bar) => exists k :: LastDatedAt(bars, d, k) && bars[k] == bar
  }

  ghost predicate LastDatedAt(bars: seq<Bar>, d: Day, k: int) {
    0 <= k < |bars| && bars[k].date == d && forall j :: k < j < |bars| ==> bars[j].date != d
  }

  lemma {:induction false} BarOnIs(bars: seq<Bar>, d: Day)
    ensures LastDated(bars, d, BarOn(bars, d))
  {
    if |bars| > 0 {
      var n := |bars| - 1;
      if bars[n].date == d {
        assert LastDatedAt(bars, d, n);
      } else {
        BarOnIs(bars[..n], d);
        if BarOn(bars, d).Some? {
          var k :| LastDatedAt(bars[..n], d, k) && bars[..n][k] == BarOn(bars, d).value;
          assert LastDatedAt(bars, d, k);
        }
      }
    }
  }

  /** Positive prices, in order. */
  predicate PricedBar(b: Bar) {
    0.0 < b.open && 0.0 < b.close && 0.0 < b.low && b.low <= b.open <= b.high && b.low <= b.close <= b.high
  }

  lemma ValidIsPriced(b: Bar)
    ensures ValidBar(b) <==> PricedBar(b)
  {
  }

  // ---------- the label ----------

  /** The last raw and adjusted bars of the target day and of the reference day. */
  datatype Pairs = Pairs(target: Option<Bar>, ref: Option<Bar>, adjTarget: Option<Bar>, adjRef: Option<Bar>)

  ghost predicate BarsOf(item: Input, target: Day, ref: Day, p: Pairs) {
    && LastDated(item.raw, target, p.target) && LastDated(item.raw, ref, p.ref)
    && LastDated(item.adjusted, target, p.adjTarget) && LastDated(item.adjusted, ref, p.adjRef)
  }

  /** Both days have a raw source, and it is the same and not empty. */
  predicate SameSource(item: Input, target: Day, ref: Day) {
    target in item.rawSource && ref in item.rawSource && item.rawSource[target] == item.rawSource[ref] != ""
  }

  /** The opening moves of the raw and the adjusted bars, as logarithms, are more than 0.03 apart. */
  predicate Moved(log: real -> real, p: Pairs)
    requires p.target.Some? && p.ref.Some? && p.adjTarget.Some? && p.adjRef.Some?
    requires p.ref.value.close > 0.0 && p.adjRef.value.close > 0.0
  {
    var raw := log(p.target.value.open / p.ref.value.close);
    var adjusted := log(p.adjTarget.value.open / p.adjRef.value.close);
    raw - adjusted > 0.03 || adjusted - raw > 0.03
  }

  /** The raw bars of both days exist and are priced. */
  predicate RawPriced(p: Pairs) {
    p.target.Some? && p.ref.Some? && PricedBar(p.target.value) && PricedBar(p.ref.value)
  }

  predicate AdjustedPriced(p: Pairs) {
    p.adjTarget.Some? && p.adjRef.Some? && PricedBar(p.adjTarget.value) && PricedBar(p.adjRef.value)
  }

  /** The day was traded, has a raw bar, and its snapshot was ready. */
  predicate Judged(status: Option<Session>, p: Pairs, reason: Reason) {
    status == Some(Traded) && p.target.Some? && reason == Ready
  }

  /**
   * When a sample has each outcome. It is resolved exactly when the day was traded, the snapshot was ready, the raw and
   * adjusted bars of both days exist and are priced, both days have the same source, and the opening moves agree; then
   * its label is the high and the low of the raw bar of its target.
   */
  ghost predicate Means(log: real -> real, item: Input, target: Day, ref: Day, status: Option<Session>, p: Pairs,
      made: (Option<Snapshot>, Reason), s: Sample) {
    var judged, agreed := Judged(status, p, made.1), SameSource(item, target, ref);
    && s.target == target
    && (s.outcome.Resolved? <==> judged && RawPriced(p) && agreed && AdjustedPriced(p) && !Moved(log, p))
    && (s.outcome.Resolved? ==>
          && s.outcome.actual.high == p.target.value.high && s.outcome.actual.low == p.target.value.low
          && target in item.rawSource && s.outcome.source == item.rawSource[target])
    && (s.outcome == Unresolved(TargetSuspended) <==> status == Some(Suspended) && p.target.None?)
    && (s.outcome == Unresolved(StatusUnknown) <==>
          status != Some(Suspended) && (status != Some(Traded) || p.target.None?))
    && (forall r :: s.outcome == Unresolved(Missing(r)) <==>
          status == Some(Traded) && p.target.Some? && made.1 == r && r != Ready)
    && (s.outcome == Unresolved(SourceInconsistent) <==>
          (status == Some(Suspended) && p.target.Some?) || (judged && RawPriced(p) && !agreed))
    && (s.outcome == Unresolved(AdjustedTargetMissing) <==>
          judged && RawPriced(p) && agreed && p.adjTarget.None?)
    && (s.outcome == Unresolved(InvalidPrices) <==>
          judged && (!RawPriced(p) || (agreed && p.adjTarget.Some? && !AdjustedPriced(p))))
    && (s.outcome == Unresolved(CorporateAction) <==>
          judged && RawPriced(p) && agreed && AdjustedPriced(p) && Moved(log, p))
    && (s.snapshot == if s.outcome.Resolved? || s.outcome == Unresolved(Missing(made.1)) then made.0 else None)
  }

  lemma SampleMeans(m: Math, cfg: Config, stock: Stock, item: Input, target: Day, ref: Day, market: Option<Stats>,
      input: seq<Input>, status: Option<Session>) returns (p: Pairs)
    ensures BarsOf(item, target, ref, p)
    ensures BuildSample(m, cfg, stock, item, target, ref, market, input, status).stock == stock
    ensures Means(m.log, item, target, ref, status, p,
      MakeSnapshot(m, cfg, stock, item, target, ref, market, input),
      BuildSample(m, cfg, stock, item, target, ref, market, input, status))
  {
    hide BuildSample, MakeSnapshot, BarOn, Means, LastDated;
    BarOnIs(item.raw, target);
    BarOnIs(item.raw, ref);
    BarOnIs(item.adjusted, target);
    BarOnIs(item.adjusted, ref);
    p := Pairs(BarOn(item.raw, target), BarOn(item.raw, ref), BarOn(item.adjusted, target), BarOn(item.adjusted, ref));
    if Judged(status, p, MakeSnapshot(m, cfg, stock, item, target, ref, market, input).1) {
      JudgedMeans(m, cfg, stock, item, target, ref, market, input, status, p);
    } else {
      UnjudgedMeans(m, cfg, stock, item, target, ref, market, input, status, p);
    }
  }

  /** The bars as the tables hold them. */
  ghost predicate Tabled(item: Input, target: Day, ref: Day, p: Pairs) {
    && p.target == BarOn(item.raw, target) && p.ref == BarOn(item.raw, ref)
    && p.adjTarget == BarOn(item.adjusted, target) && p.adjRef == BarOn(item.adjusted, ref)
  }

  lemma UnjudgedMeans(m: Math, cfg: Config, stock: Stock, item: Input, target: Day, ref: Day, market: Option<Stats>,
      input: seq<Input>, status: Option<Session>, p: Pairs)
    requires Tabled(item, target, ref, p)
    requires !Judged(status, p, MakeSnapshot(m, cfg, stock, item, target, ref, market, input).1)
    ensures BuildSample(m, cfg, stock, item, target, ref, market, input, status).stock == stock
    ensures Means(m.log, item, target, ref, status, p,
      MakeSnapshot(m, cfg, stock, item, target, ref, market, input),
      BuildSample(m, cfg, stock, item, target, ref, market, input, status))
  {
    hide MakeSnapshot, BarOn, LabelOf, RawPriced, AdjustedPriced, SameSource;
  }

  lemma JudgedMeans(m: Math, cfg: Config, stock: Stock, item: Input, target: Day, ref: Day, market: Option<Stats>,
      input: seq<Input>, status: Option<Session>, p: Pairs)
    requires Tabled(item, target, ref, p)
    requires Judged(status, p, MakeSnapshot(m, cfg, stock, item, target, ref, market, input).1)
    ensures BuildSample(m, cfg, stock, item, target, ref, market, input, status).stock == stock
    ensures Means(m.log, item, target, ref, status, p,
      MakeSnapshot(m, cfg, stock, item, target, ref, market, input),
      BuildSample(m, cfg, stock, item, target, ref, market, input, status))
  {
    hide BuildFeatures, Forecasted, Scale, BarOn, Through, IsReady, ValidBar, PricedBar;
    assert p.ref.Some? && p.adjRef.Some?;
    ValidIsPriced(p.target.value);
    ValidIsPriced(p.ref.value);
    ValidIsPriced(p.adjRef.value);
    if p.adjTarget.Some? { ValidIsPriced(p.adjTarget.value); }
  }

  // ---------- the data set ----------

  /** The series of a stock: the last input with its code, or an empty one when no input has it. */
  ghost predicate SeriesOf(input: seq<Input>, stock: Stock, item: Input) {
    || (exists k :: LastCoded(input, stock.code, k) && input[k] == item)
    || ((forall k :: 0 <= k < |input| ==> input[k].stock.code != stock.code)
        && item == Input(stock, [], [], map[], map[]))
  }

  ghost predicate LastCoded(input: seq<Input>, code: string, k: int) {
    0 <= k < |input| && input[k].stock.code == code && forall j :: k < j < |input| ==> input[j].stock.code != code
  }

  lemma {:induction false} LastOfIsLast(input: seq<Input>, code: string)
    ensures LastOf(input, code).Some? ==> LastCoded(input, code, LastOf(input, code).value)
  {
    if |input| > 0 && input[|input| - 1].stock.code != code {
      LastOfIsLast(input[..|input| - 1], code);
    }
  }

  lemma ItemIsSeries(input: seq<Input>, stock: Stock)
    ensures SeriesOf(input, stock, ItemOf(input, stock))
  {
    LastOfIsLast(input, stock.code);
  }

  lemma {:induction false} RowAt(m: Math, cfg: Config, stocks: seq<Stock>, input: seq<Input>, active: seq<Day>,
      statuses: Statuses, k: nat, n: nat)
    requires 1 <= k < |active| && n <= |stocks|
    ensures |Row(m, cfg, stocks, input, active, statuses, k, n)| == n
    ensures forall s :: 0 <= s < n ==>
      Row(m, cfg, stocks, input, active, statuses, k, n)[s] == SampleAt(m, cfg, stocks, input, active, statuses, k, s)
  {
    hide SampleAt;
    if n > 0 {
      RowAt(m, cfg, stocks, input, active, statuses, k, n - 1);
    }
  }

  lemma {:induction false} RowsAt(m: Math, cfg: Config, stocks: seq<Stock>, input: seq<Input>, active: seq<Day>,
      statuses: Statuses, n: nat, j: nat) returns (k: nat, s: nat)
    requires 1 <= n <= |active| && j < |Rows(m, cfg, stocks, input, active, statuses, n)|
    ensures 1 <= k < n && s < |stocks|
    ensures Rows(m, cfg, stocks, input, active, statuses, n)[j]
      == SampleAt(m, cfg, stocks, input, active, statuses, k, s)
  {
    hide SampleAt, Row;
    var before := Rows(m, cfg, stocks, input, active, statuses, n - 1);
    if j < |before| {
      k, s := RowsAt(m, cfg, stocks, input, active, statuses, n - 1, j);
    } else {
      RowAt(m, cfg, stocks, input, active, statuses, n - 1, |stocks|);
      k, s := n - 1, j - |before|;
    }
  }

  /** Every stock has a sample for every active day but the first. */
  lemma {:induction false} PlaceOf(m: Math, cfg: Config, stocks: seq<Stock>, input: seq<Input>, active: seq<Day>,
      statuses: Statuses, n: nat, k: nat, s: nat) returns (j: nat)
    requires 1 <= k < n <= |active| && s < |stocks|
    ensures j < |Rows(m, cfg, stocks, input, active, statuses, n)|
    ensures Rows(m, cfg, stocks, input, active, statuses, n)[j]
      == SampleAt(m, cfg, stocks, input, active, statuses, k, s)
  {
    hide SampleAt, Row;
    if k < n - 1 {
      j := PlaceOf(m, cfg, stocks, input, active, statuses, n - 1, k, s);
    } else {
      RowAt(m, cfg, stocks, input, active, statuses, n - 1, |stocks|);
      j := |Rows(m, cfg, stocks, input, active, statuses, n - 1)| + s;
    }
  }

  /** What the calendar of statuses says of a stock on a day. */
  ghost predicate SaidOf(statuses: Statuses, code: string, d: Day, status: Option<Session>) {
    && (status.Some? <==> code in statuses && d in statuses[code])
    && (status.Some? ==> status.value == statuses[code][d])
  }

  /** Where a sample comes from: its place, its series, its status, its bars and the snapshot that was made for it. */
  datatype Origin = Origin(k: nat, s: nat, item: Input, status: Option<Session>, pairs: Pairs,
      made: (Option<Snapshot>, Reason))

  /** The sample is that of stock `s` on active day `k`, made from its series and the bars of two days. */
  ghost predicate StemsFrom(m: Math, cfg: Config, stocks: seq<Stock>, input: seq<Input>, active: seq<Day>,
      statuses: Statuses, x: Origin, sample: Sample) {
    && 1 <= x.k < |active| && x.s < |stocks|
    && var stock, target, ref := stocks[x.s], active[x.k], active[x.k - 1];
       && sample.stock == stock && SeriesOf(input, stock, x.item) && SaidOf(statuses, stock.code, target, x.status)
       && BarsOf(x.item, target, ref, x.pairs)
       && x.made == SnapshotAfter(m, cfg, input, active, x.k - 1, stock, target)
       && Means(m.log, x.item, target, ref, x.status, x.pairs, x.made, sample)
  }

  lemma SampleStems(m: Math, cfg: Config, stocks: seq<Stock>, input: seq<Input>, active: seq<Day>, statuses: Statuses,
      k: nat, s: nat) returns (x: Origin)
    requires 1 <= k < |active| && s < |stocks|
    ensures x.k == k && x.s == s
    ensures StemsFrom(m, cfg, stocks, input, active, statuses, x,
      SampleAt(m, cfg, stocks, input, active, statuses, k, s))
  {
    hide BuildSample, MakeSnapshot, MarketOn, ItemOf, Means, BarsOf, SeriesOf;
    var stock, target, ref := stocks[s], active[k], active[k - 1];
    var item, status := ItemOf(input, stock), StatusOn(statuses, stock.code, target);
    ItemIsSeries(input, stock);
    var p := SampleMeans(m, cfg, stock, item, target, ref, MarketOn(m, input, active, k - 1), input, status);
    x := Origin(k, s, item, status, p, SnapshotAfter(m, cfg, input, active, k - 1, stock, target));
  }

  /**
   * Every sample of a built data set is that of some stock on some active day but the first, and says what the bars,
   * the sources and the status of that day and of the active day before it say.
   */
  lemma DatasetMeans(m: Math, cfg: Config, stocks: seq<Stock>, input: seq<Input>, active: seq<Day>, statuses: Statuses,
      samples: seq<Sample>, j: nat) returns (x: Origin)
    requires |active| > 0 && samples == Rows(m, cfg, stocks, input, active, statuses, |active|) && j < |samples|
    ensures StemsFrom(m, cfg, stocks, input, active, statuses, x, samples[j])
  {
    hide SampleAt, Rows, StemsFrom;
    var k, s := RowsAt(m, cfg, stocks, input, active, statuses, |active|, j);
    x := SampleStems(m, cfg, stocks, input, active, statuses, k, s);
  }

  /** And every stock has a sample for every active day but the first. */
  lemma DatasetHolds(m: Math, cfg: Config, stocks: seq<Stock>, input: seq<Input>, active: seq<Day>, statuses: Statuses,
      samples: seq<Sample>, k: nat, s: nat) returns (j: nat, x: Origin)
    requires 1 <= k < |active| && s < |stocks|
    requires samples == Rows(m, cfg, stocks, input, active, statuses, |active|)
    ensures j < |samples| && x.k == k && x.s == s && StemsFrom(m, cfg, stocks, input, active, statuses, x, samples[j])
  {
    hide SampleAt, Rows, StemsFrom;
    j := PlaceOf(m, cfg, stocks, input, active, statuses, |active|, k, s);
    x := SampleStems(m, cfg, stocks, input, active, statuses, k, s);
  }

  /** The audit counts the samples that are resolved. */
  lemma {:induction false} ResolutionsAre(samples: seq<Sample>)
    ensures Resolutions(samples) == |set k: nat | k < |samples| && samples[k].outcome.Resolved?|
  {
    var all := set k: nat | k < |samples| && samples[k].outcome.Resolved?;
    if |samples| == 0 {
      assert all == {};
    } else {
      var n := |samples| - 1;
      var rest := samples[..n];
      var before := set k: nat | k < n && rest[k].outcome.Resolved?;
      ResolutionsAre(rest);
      assert all == if samples[n].outcome.Resolved? then before + {n} else before;
    }
  }

  /** The active days are those of the calendar from the start to the as-of date. */
  lemma {:induction false} ActiveHolds(trading: seq<Day>, start: int, asof: Day, d: Day)
    ensures d in Active(trading, start, asof) <==> d in trading && start <= d <= asof
  {
    if |trading| > 0 {
      ActiveHolds(trading[..|trading| - 1], start, asof, d);
    }
  }

  // ---------- the served snapshots ----------

  /**
   * The snapshot served for a day is the one made from the calendar days before it, stamped with the given time, or
   * with nine o'clock of the day when none is given; one that is not ready is passed on as it is, with its reason.
   */
  lemma ServedMeans(m: Math, cfg: Config, input: seq<Input>, trading: seq<Day>, stock: Stock, target: Day,
      now: Option<int>)
    requires 0 < Earlier(trading, target)
    ensures var n := Earlier(trading, target);
      var served := ServedSnapshot(m, cfg, input, trading, stock, target, now);
      var made := SnapshotAfter(m, cfg, input, trading[..n], n - 1, stock, target);
      && served.reason == made.1 && (served.snapshot.Some? <==> made.0.Some?)
      && (made.1 == Ready ==>
            && made.0.Some? && served.snapshot.Some?
            && served.snapshot.value.asOf == (if now.Some? then now.value else 24 * target + 9)
            && served.snapshot.value == made.0.value.(asOf := served.snapshot.value.asOf))
      && (made.1 != Ready ==> served.snapshot == made.0)
  {
    hide BuildFeatures, Forecasted, Scale, BarOn, MarketOn, ItemOf, Through, IsReady;
  }
}
