/** Premarket snapshots for training and for serving (internal/dayrange/snapshot.go). */
module Snapshots {
  import opened Market
  import opened Baseline
  import opened Calendar
  import opened Returns
  import Coverage
  import Calibration
  import Money

  /** The real functions left unknown: exponential, logarithm, square root, and the stock features of a series. */
  datatype Math = Math(exp: real -> real, log: real -> real, sqrt: real -> real, stock: seq<Bar> -> Option<StockValues>)

  /** The stock features; the volatility and the 20-day return are read again by name. */
  datatype StockValues = StockValues(values: seq<real>, atr: real, return20: real)

  datatype Config = Config(useStock: bool, useMarket: bool, useSector: bool)

  datatype Level = Disabled | Insufficient | Available | MissingSector

  datatype Availability = Availability(stock: Level, market: Level, sector: Level)

  datatype Trend = UnknownTrend | UpTrend | DownTrend | Ranging

  datatype Volatility = UnknownVolatility | Low | Medium | High

  datatype Features = Features(values: seq<Option<real>>, availability: Availability, trend: Trend,
      volatility: Volatility)

  datatype Snapshot = Snapshot(
    stock: Stock, target: Day, asOf: int, inputThrough: Day, reference: real, scale: real,
    features: Features, baseline: Option<Calibration.Forecast>)

  datatype Reason = Ready | MissingReference | AdjustedMissing | NotReady

  const FEATURES: nat := 33

  // ---------- Parts of a snapshot ----------

  /** The bar a date-keyed table ends up with. */
  function BarOn(bars: seq<Bar>, d: int): Option<Bar> {
    if |bars| == 0 then None
    else if bars[|bars| - 1].date == d then Some(bars[|bars| - 1])
    else BarOn(bars[..|bars| - 1], d)
  }

  function TrueRange(previous: Bar, bar: Bar): real {
    Money.Max(bar.high - bar.low, Money.Max(Money.Abs(bar.high - previous.close), Money.Abs(bar.low - previous.close)))
  }

  function Ranges(bars: seq<Bar>, n: nat): real
    requires n < |bars|
  {
    if n == 0 then 0.0 else Ranges(bars, n - 1) + TrueRange(bars[n - 1], bars[n])
  }

  /** The mean true range of the first fourteen pairs. */
  function Scale(through: seq<Bar>): real {
    var n := if |through| < 2 then 0 else if |through| > 15 then 14 else |through| - 1;
    if n == 0 then 0.0 else Ranges(through, n) / n as real
  }

  function SectorValues(log: real -> real, input: seq<Input>, sector: string, d: int, n: nat): seq<real>
    requires n <= |input|
  {
    if n == 0 then []
    else
      var item := input[n - 1];
      var r := ReturnOn(log, item.raw, d);
      SectorValues(log, input, sector, d, n - 1)
        + (if item.stock.sector == sector && sector != "" && r.Some? then [r.value] else [])
  }

  function SectorOn(log: real -> real, input: seq<Input>, sector: string, d: int): seq<real> {
    SectorValues(log, input, sector, d, |input|)
  }

  /** The days no later than the reference date on which the sector has returns, in order. */
  function SectorDays(log: real -> real, input: seq<Input>, sector: string, ref: Day): seq<Day> {
    Coverage.Listed(set d: Day | d <= ref && SectorOn(log, input, sector, d) != [], 0, ref)
  }

  function Pooled(log: real -> real, input: seq<Input>, sector: string, days: seq<Day>): seq<real> {
    if |days| == 0 then []
    else Pooled(log, input, sector, days[..|days| - 1]) + SectorOn(log, input, sector, days[|days| - 1])
  }

  function SharesUp(log: real -> real, input: seq<Input>, sector: string, days: seq<Day>): real {
    if |days| == 0 then 0.0
    else
      var values := SectorOn(log, input, sector, days[|days| - 1]);
      SharesUp(log, input, sector, days[..|days| - 1]) + if |values| == 0 then 0.0
        else Positives(values) as real / |values| as real
  }

  function SectorFeatures(log: real -> real, input: seq<Input>, sector: string, ref: Day,
      stockReturn20: real): Option<seq<real>> {
    var days := SectorDays(log, input, sector, ref);
    if |days| < 20 then None
    else
      var recent, last := days[|days| - 20..], days[|days| - 5..];
      var return20 := Mean(Pooled(log, input, sector, recent));
      Some([Mean(Pooled(log, input, sector, last)), return20, stockReturn20 - return20,
        SharesUp(log, input, sector, last) / 5.0])
  }

  /** Values written into the feature list from an offset on. */
  function Placed(features: seq<Option<real>>, offset: nat, values: seq<real>): (r: seq<Option<real>>)
    ensures |r| == |features|
  {
    seq(|features|, k requires 0 <= k < |features| =>
      if offset <= k < offset + |values| then Some(values[k - offset]) else features[k])
  }

  function TrendOf(stats: Stats): Trend {
    if stats.trend20 > 0.02 then UpTrend else if stats.trend20 < -0.02 then DownTrend else Ranging
  }

  function VolatilityOf(stock: Option<StockValues>): Volatility {
    if stock.None? then UnknownVolatility
    else if stock.value.atr < 0.02 then Low
    else if stock.value.atr < 0.04 then Medium
    else High
  }

  /** The features from the bars through the reference date, the market of that date and the sector. */
  function BuildFeatures(m: Math, cfg: Config, stock: Stock, through: seq<Bar>, market: Option<Stats>,
      input: seq<Input>, ref: Day): Features {
    var own := m.stock(through);
    var empty: seq<Option<real>> := seq(FEATURES, _ => None);
    var withStock := if cfg.useStock && own.Some? then Placed(empty, 0, own.value.values) else empty;
    var known := cfg.useMarket && market.Some? && market.value.available;
    var s := if known then market.value else UNAVAILABLE;
    var withMarket := if known then Placed(withStock, 24, [s.return1, s.return5, s.trend20, s.vol20, s.breadth5])
      else withStock;
    var hasSector := stock.sector != "" && own.Some?;
    var sector := if cfg.useSector && hasSector
      then SectorFeatures(m.log, input, stock.sector, ref, own.value.return20) else None;
    Features(
      if sector.Some? then Placed(withMarket, 29, sector.value) else withMarket,
      Availability(
        if !cfg.useStock then Disabled else if own.Some? then Available else Insufficient,
        if !cfg.useMarket then Disabled else if known then Available else Insufficient,
        if !cfg.useSector then Disabled else if sector.Some? then Available else if hasSector then Insufficient
          else MissingSector),
      if known then TrendOf(s) else UnknownTrend,
      VolatilityOf(own))
  }

  /** Nine in the morning of the target day, in hours. */
  function PremarketAsOf(target: Day): int {
    24 * target + 9
  }

  predicate IsReady(s: Snapshot) {
    && s.baseline.Some? && s.reference > 0.0
    && (s.features.availability.stock == Available || s.features.availability.market == Available
         || s.features.availability.sector == Available)
  }

  function MakeSnapshot(m: Math, cfg: Config, stock: Stock, item: Input, target: Day, ref: Day, market: Option<Stats>,
      input: seq<Input>): (Option<Snapshot>, Reason) {
    var rawRef, adjRef := BarOn(item.raw, ref), BarOn(item.adjusted, ref);
    if rawRef.None? then (None, MissingReference)
    else if adjRef.None? || !ValidBar(adjRef.value) then (None, AdjustedMissing)
    else
      var through := Through(item.raw, ref);
      var s := Snapshot(stock, target, PremarketAsOf(target), ref, rawRef.value.close, Scale(through),
                        BuildFeatures(m, cfg, stock, through, market, input, ref), Forecasted(m.exp, m.log, through));
      (Some(s), if IsReady(s) then Ready else NotReady)
  }

  /** The series of a stock, an empty one when there is none. */
  function ItemOf(input: seq<Input>, stock: Stock): Input {
    var i := LastOf(input, stock.code);
    if i.None? then Input(stock, [], [], map[], map[]) else input[i.value]
  }

  /** The market of a day that has a place in the calendar. */
  function MarketOn(m: Math, input: seq<Input>, days: seq<Day>, i: nat): Option<Stats>
    requires i < |days|
  {
    Some(StatsAt(m.sqrt, m.log, input, days, LastPlace(days, days[i])))
  }

  /** The snapshot of one stock for the day after `days[i]`. */
  function SnapshotAfter(m: Math, cfg: Config, input: seq<Input>, days: seq<Day>, i: nat, stock: Stock,
      target: Day): (Option<Snapshot>, Reason)
    requires i < |days|
  {
    MakeSnapshot(m, cfg, stock, ItemOf(input, stock), target, days[i], MarketOn(m, input, days, i), input)
  }

  // ---------- No look-ahead ----------

  ghost predicate DateOrdered(bars: seq<Bar>) {
    forall i, j :: 0 <= i < j < |bars| ==> bars[i].date <= bars[j].date
  }

  /** The inputs hold the same stocks, in order, and the same bars through the reference date. */
  ghost predicate SameThrough(a: seq<Input>, b: seq<Input>, ref: int) {
    |a| == |b|
    && forall i :: 0 <= i < |a| ==>
         && a[i].stock == b[i].stock && DateOrdered(a[i].raw) && DateOrdered(b[i].raw)
         && Through(a[i].raw, ref) == Through(b[i].raw, ref)
              && Through(a[i].adjusted, ref) == Through(b[i].adjusted, ref)
  }

  lemma {:induction false} AllThrough(bars: seq<Bar>, ref: int)
    requires DateOrdered(bars) && (|bars| > 0 ==> bars[|bars| - 1].date <= ref)
    ensures Through(bars, ref) == bars
  {
    if |bars| > 0 {
      AllThrough(bars[..|bars| - 1], ref);
    }
  }

  /** In date order, returns through a date come from the bars through that date. */
  lemma {:induction false} ReturnSeesThrough(log: real -> real, bars: seq<Bar>, ref: int, d: int)
    requires DateOrdered(bars) && d <= ref
    ensures ReturnOn(log, bars, d) == ReturnOn(log, Through(bars, ref), d)
  {
    if |bars| > 0 {
      var rest := bars[..|bars| - 1];
      if bars[|bars| - 1].date <= ref {
        AllThrough(bars, ref);
      } else {
        ReturnSeesThrough(log, rest, ref, d);
        assert Through(bars, ref) == Through(rest, ref);
      }
    }
  }

  lemma {:induction false} BarSeesThrough(bars: seq<Bar>, ref: int, d: int)
    requires d <= ref
    ensures BarOn(bars, d) == BarOn(Through(bars, ref), d)
  {
    if |bars| > 0 {
      var rest := bars[..|bars| - 1];
      BarSeesThrough(rest, ref, d);
      if bars[|bars| - 1].date <= ref {
        assert Through(bars, ref)[..|Through(rest, ref)|] == Through(rest, ref);
      } else {
        assert Through(bars, ref) == Through(rest, ref);
      }
    }
  }

  lemma {:induction false} LastAgrees(a: seq<Input>, b: seq<Input>, code: string)
    requires |a| == |b| && forall i :: 0 <= i < |a| ==> a[i].stock == b[i].stock
    ensures LastOf(a, code) == LastOf(b, code)
  {
    if |a| > 0 {
      LastAgrees(a[..|a| - 1], b[..|b| - 1], code);
    }
  }

  lemma ReturnsAgree(log: real -> real, a: seq<Input>, b: seq<Input>, ref: int, d: int)
    requires SameThrough(a, b, ref) && d <= ref
    ensures forall i :: 0 <= i < |a| ==> ReturnOn(log, a[i].raw, d) == ReturnOn(log, b[i].raw, d)
    ensures forall code :: MarketReturn(log, a, code, d) == MarketReturn(log, b, code, d)
  {
    hide ReturnOn, LastOf;
    forall i | 0 <= i < |a| ensures ReturnOn(log, a[i].raw, d) == ReturnOn(log, b[i].raw, d) {
      ReturnSeesThrough(log, a[i].raw, ref, d);
      ReturnSeesThrough(log, b[i].raw, ref, d);
    }
    forall code ensures MarketReturn(log, a, code, d) == MarketReturn(log, b, code, d) {
      LastAgrees(a, b, code);
    }
  }

  lemma {:induction false} DayAgrees(log: real -> real, a: seq<Input>, b: seq<Input>, ref: int, d: int, n: nat)
    requires SameThrough(a, b, ref) && d <= ref && n <= |a|
    ensures DayValues(log, a, d, n) == DayValues(log, b, d, n)
  {
    hide MarketReturn, Through;
    if n > 0 {
      DayAgrees(log, a, b, ref, d, n - 1);
      ReturnsAgree(log, a, b, ref, d);
    }
  }

  lemma {:induction false} AveragesAgree(log: real -> real, a: seq<Input>, b: seq<Input>, ref: int, days: seq<Day>)
    requires SameThrough(a, b, ref) && forall i :: 0 <= i < |days| ==> days[i] <= ref
    ensures Averages(log, a, days) == Averages(log, b, days) && Breadths(log, a, days) == Breadths(log, b, days)
  {
    hide DayValues, SameThrough;
    if |days| > 0 {
      AveragesAgree(log, a, b, ref, days[..|days| - 1]);
      DayAgrees(log, a, b, ref, days[|days| - 1], |a|);
      SameSize(a, b, ref);
    }
  }

  lemma SameSize(a: seq<Input>, b: seq<Input>, ref: int)
    requires SameThrough(a, b, ref)
    ensures |a| == |b|
  {
  }

  /** The market of a day is told by the bars through that day and by the day and the twenty before it. */
  lemma StatsAgree(m: Math, a: seq<Input>, b: seq<Input>, da: seq<Day>, i: nat, db: seq<Day>, j: nat)
    requires 20 <= i < |da| && 20 <= j < |db| && da[i - 20..i + 1] == db[j - 20..j + 1]
    requires SameThrough(a, b, da[i]) && forall k :: 0 <= k <= i ==> da[k] <= da[i]
    ensures StatsAt(m.sqrt, m.log, a, da, i) == StatsAt(m.sqrt, m.log, b, db, j)
  {
    hide SameThrough, Averages, Breadths, DayValues, Mean, Std;
    var window := da[i - 20..i + 1];
    assert da[i - 20..i] == window[..20] == db[j - 20..j];
    assert da[i - 5..i] == window[15..20] == db[j - 5..j];
    assert da[i] == window[20] == db[j];
    AveragesAgree(m.log, a, b, da[i], da[i - 20..i]);
    AveragesAgree(m.log, a, b, da[i], da[i - 5..i]);
    DayAgrees(m.log, a, b, da[i], da[i], |a|);
    SameSize(a, b, da[i]);
  }

  lemma {:induction false} SectorAgrees(log: real -> real, a: seq<Input>, b: seq<Input>, sector: string, ref: int,
      d: int, n: nat)
    requires SameThrough(a, b, ref) && d <= ref && n <= |a|
    ensures SectorValues(log, a, sector, d, n) == SectorValues(log, b, sector, d, n)
  {
    hide ReturnOn, Through;
    if n > 0 {
      SectorAgrees(log, a, b, sector, ref, d, n - 1);
      ReturnsAgree(log, a, b, ref, d);
    }
  }

  lemma SectorOnAgrees(log: real -> real, a: seq<Input>, b: seq<Input>, sector: string, ref: int, d: int)
    requires SameThrough(a, b, ref) && d <= ref
    ensures SectorOn(log, a, sector, d) == SectorOn(log, b, sector, d)
  {
    SectorAgrees(log, a, b, sector, ref, d, |a|);
  }

  lemma {:induction false} PooledAgrees(log: real -> real, a: seq<Input>, b: seq<Input>, sector: string, ref: int,
      days: seq<Day>)
    requires SameThrough(a, b, ref) && forall k :: 0 <= k < |days| ==> days[k] <= ref
    ensures Pooled(log, a, sector, days) == Pooled(log, b, sector, days)
    ensures SharesUp(log, a, sector, days) == SharesUp(log, b, sector, days)
  {
    hide SectorOn, SameThrough;
    if |days| > 0 {
      PooledAgrees(log, a, b, sector, ref, days[..|days| - 1]);
      SectorOnAgrees(log, a, b, sector, ref, days[|days| - 1]);
    }
  }

  lemma SectorFeaturesAgree(log: real -> real, a: seq<Input>, b: seq<Input>, sector: string, ref: Day,
      stockReturn20: real)
    requires SameThrough(a, b, ref)
    ensures SectorFeatures(log, a, sector, ref, stockReturn20) == SectorFeatures(log, b, sector, ref, stockReturn20)
  {
    hide SectorOn, SameThrough, Mean, Pooled, SharesUp;
    forall d: Day | d <= ref ensures SectorOn(log, a, sector, d) == SectorOn(log, b, sector, d) {
      SectorOnAgrees(log, a, b, sector, ref, d);
    }
    var days := SectorDays(log, a, sector, ref);
    SectorDaysAgree(log, a, b, sector, ref);
    if |days| >= 20 {
      forall k | 0 <= k < |days| ensures days[k] <= ref {
        assert days[k] in days;
      }
      PooledAgrees(log, a, b, sector, ref, days[|days| - 20..]);
      PooledAgrees(log, a, b, sector, ref, days[|days| - 5..]);
    }
  }

  lemma SectorDaysAgree(log: real -> real, a: seq<Input>, b: seq<Input>, sector: string, ref: Day)
    requires forall d: Day :: d <= ref ==> SectorOn(log, a, sector, d) == SectorOn(log, b, sector, d)
    ensures SectorDays(log, a, sector, ref) == SectorDays(log, b, sector, ref)
  {
    hide SectorOn;
    assert (set d: Day | d <= ref && SectorOn(log, a, sector, d) != [])
      == (set d: Day | d <= ref && SectorOn(log, b, sector, d) != []);
  }

  lemma FeaturesAgree(m: Math, cfg: Config, stock: Stock, through: seq<Bar>, market: Option<Stats>, a: seq<Input>,
      b: seq<Input>, ref: Day)
    requires SameThrough(a, b, ref)
    ensures BuildFeatures(m, cfg, stock, through, market, a, ref)
      == BuildFeatures(m, cfg, stock, through, market, b, ref)
  {
    hide SectorFeatures, Placed, SameThrough, TrendOf, VolatilityOf;
    var own := m.stock(through);
    if own.Some? {
      SectorFeaturesAgree(m.log, a, b, stock.sector, ref, own.value.return20);
    }
  }

  /** Inputs that agree through the reference date, under the same market, give the same snapshot. */
  lemma MakeAgrees(m: Math, cfg: Config, stock: Stock, x: Input, y: Input, target: Day, ref: Day,
      market: Option<Stats>, a: seq<Input>, b: seq<Input>)
    requires SameThrough(a, b, ref)
    requires Through(x.raw, ref) == Through(y.raw, ref) && Through(x.adjusted, ref) == Through(y.adjusted, ref)
    ensures MakeSnapshot(m, cfg, stock, x, target, ref, market, a)
      == MakeSnapshot(m, cfg, stock, y, target, ref, market, b)
  {
    hide SameThrough, BuildFeatures, Forecasted, Scale, Through, BarOn, ValidBar;
    BarSeesThrough(x.raw, ref, ref);
    BarSeesThrough(y.raw, ref, ref);
    BarSeesThrough(x.adjusted, ref, ref);
    BarSeesThrough(y.adjusted, ref, ref);
    FeaturesAgree(m, cfg, stock, Through(x.raw, ref), market, a, b, ref);
  }

  lemma ItemsAgree(a: seq<Input>, b: seq<Input>, stock: Stock, ref: int)
    requires SameThrough(a, b, ref)
    ensures var x, y := ItemOf(a, stock), ItemOf(b, stock);
      Through(x.raw, ref) == Through(y.raw, ref) && Through(x.adjusted, ref) == Through(y.adjusted, ref)
  {
    hide Through, LastOf;
    LastAgrees(a, b, stock.code);
  }

  /**
    No look-ahead: whatever happens after the reference date, a stock's snapshot for the next day is
    the same; the calendars need only agree on the day and the twenty before it.
  */
  lemma SnapshotSeesThrough(m: Math, cfg: Config, a: seq<Input>, b: seq<Input>, da: seq<Day>, i: nat, db: seq<Day>,
      j: nat, stock: Stock, target: Day)
    requires i < |da| && j < |db| && StrictlyAscending(da) && StrictlyAscending(db) && da[i] == db[j]
    requires SameThrough(a, b, da[i])
    requires (i < 20 && j < 20) || (20 <= i && 20 <= j && da[i - 20..i + 1] == db[j - 20..j + 1])
    ensures SnapshotAfter(m, cfg, a, da, i, stock, target) == SnapshotAfter(m, cfg, b, db, j, stock, target)
  {
    hide SameThrough, MakeSnapshot, ItemOf, Through, StatsAt, LastPlace;
    OnlyPlace(da, i);
    OnlyPlace(db, j);
    if 20 <= i {
      StatsAgree(m, a, b, da, i, db, j);
    } else {
      EarlyStats(m, a, da, i);
      EarlyStats(m, b, db, j);
    }
    ItemsAgree(a, b, stock, da[i]);
    MakeAgrees(m, cfg, stock, ItemOf(a, stock), ItemOf(b, stock), target, da[i], MarketOn(m, a, da, i), a, b);
  }

  lemma EarlyStats(m: Math, input: seq<Input>, days: seq<Day>, i: nat)
    requires i < |days| && i < 20
    ensures StatsAt(m.sqrt, m.log, input, days, i) == UNAVAILABLE
  {
  }
}
