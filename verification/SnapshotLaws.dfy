/** What a snapshot holds: its sector numbers, its feature slots, its scale, and when it is ready. */
module SnapshotLaws {
  import opened Market
  import opened Baseline
  import opened Calendar
  import opened Returns
  import opened Snapshots
  import opened Labels
  import opened MarketLaws
  import Coverage
  import Boosting
  import Money

  // ---------- the sector ----------

  /** The series of a named sector that have a return on the day, up to the n-th. */
  function SectorWith(log: real -> real, input: seq<Input>, sector: string, d: int, n: nat): set<nat>
    requires n <= |input|
  {
    set k: nat | k < n && sector != "" && input[k].stock.sector == sector && ReturnOn(log, input[k].raw, d).Some?
  }

  function SectorRising(log: real -> real, input: seq<Input>, sector: string, d: int, n: nat): set<nat>
    requires n <= |input|
  {
    set k: nat | k in SectorWith(log, input, sector, d, n) && ReturnOn(log, input[k].raw, d).value > 0.0
  }

  /** The returns of the sector's series on the day, none counting as zero. */
  function SectorReturns(log: real -> real, input: seq<Input>, sector: string, d: int, n: nat): (r: seq<real>)
    requires n <= |input|
    ensures |r| == n
  {
    seq(n, k requires 0 <= k < n =>
      if k in SectorWith(log, input, sector, d, n) then ReturnOn(log, input[k].raw, d).value else 0.0)
  }

  lemma SectorSetsStep(log: real -> real, input: seq<Input>, sector: string, d: int, n: nat)
    requires 1 <= n <= |input|
    ensures var x := ReturnOn(log, input[n - 1].raw, d);
      var counts := sector != "" && input[n - 1].stock.sector == sector && x.Some?;
      var all, up := SectorWith(log, input, sector, d, n - 1), SectorRising(log, input, sector, d, n - 1);
      && n - 1 !in all && n - 1 !in up
      && SectorWith(log, input, sector, d, n) == (if counts then all + {n - 1} else all)
      && SectorRising(log, input, sector, d, n) == (if counts && x.value > 0.0 then up + {n - 1} else up)
  {
    hide ReturnOn;
  }

  lemma SectorSumsStep(log: real -> real, input: seq<Input>, sector: string, d: int, n: nat)
    requires 1 <= n <= |input|
    ensures var x := ReturnOn(log, input[n - 1].raw, d);
      var counts := sector != "" && input[n - 1].stock.sector == sector && x.Some?;
      var before, values := SectorValues(log, input, sector, d, n - 1), SectorValues(log, input, sector, d, n);
      && |values| == |before| + (if counts then 1 else 0)
      && Positives(values) == Positives(before) + (if counts && x.value > 0.0 then 1 else 0)
      && Returns.Sum(values) == Returns.Sum(before) + (if counts then x.value else 0.0)
      && Boosting.Total(SectorReturns(log, input, sector, d, n))
        == Boosting.Total(SectorReturns(log, input, sector, d, n - 1)) + (if counts then x.value else 0.0)
  {
    SectorSetsStep(log, input, sector, d, n);
    hide ReturnOn, Boosting.Total, Positives, Returns.Sum, SectorWith;
    var x := ReturnOn(log, input[n - 1].raw, d);
    TotalStep(SectorReturns(log, input, sector, d, n));
    assert SectorReturns(log, input, sector, d, n)[..n - 1] == SectorReturns(log, input, sector, d, n - 1);
    if input[n - 1].stock.sector == sector && sector != "" && x.Some? {
      SumGrows(SectorValues(log, input, sector, d, n - 1), x.value);
    } else {
      assert SectorValues(log, input, sector, d, n) == SectorValues(log, input, sector, d, n - 1);
    }
  }

  lemma NoSectorValues(log: real -> real, input: seq<Input>, sector: string, d: int)
    ensures SectorWith(log, input, sector, d, 0) == {} && SectorRising(log, input, sector, d, 0) == {}
    ensures SectorValues(log, input, sector, d, 0) == []
    ensures Boosting.Total(SectorReturns(log, input, sector, d, 0)) == 0.0
    ensures Returns.Sum([]) == 0.0 && Positives([]) == 0
  {
    assert SectorReturns(log, input, sector, d, 0) == [];
  }

  /** The values of a sector on a day are as many as its series with a return, and add up to their returns. */
  lemma {:induction false} SectorValuesAre(log: real -> real, input: seq<Input>, sector: string, d: int, n: nat)
    requires n <= |input|
    ensures var values := SectorValues(log, input, sector, d, n);
      && |values| == |SectorWith(log, input, sector, d, n)|
      && Returns.Sum(values) == Boosting.Total(SectorReturns(log, input, sector, d, n))
      && Positives(values) == |SectorRising(log, input, sector, d, n)|
  {
    hide ReturnOn, Boosting.Total, SectorWith, SectorRising, SectorReturns, SectorValues, Returns.Sum, Positives;
    if n == 0 {
      NoSectorValues(log, input, sector, d);
    } else {
      SectorValuesAre(log, input, sector, d, n - 1);
      SectorSetsStep(log, input, sector, d, n);
      SectorSumsStep(log, input, sector, d, n);
    }
  }

  /** The sum and the number of a sector's returns on a day, and the share of them that rose. */
  function SumOn(log: real -> real, input: seq<Input>, sector: string, d: int): real {
    Boosting.Total(SectorReturns(log, input, sector, d, |input|))
  }

  function CountOn(log: real -> real, input: seq<Input>, sector: string, d: int): nat {
    |SectorWith(log, input, sector, d, |input|)|
  }

  function ShareUp(log: real -> real, input: seq<Input>, sector: string, d: int): real {
    var n := CountOn(log, input, sector, d);
    if n == 0 then 0.0 else |SectorRising(log, input, sector, d, |input|)| as real / n as real
  }

  function SumsOn(log: real -> real, input: seq<Input>, sector: string, days: seq<Day>): (r: seq<real>)
    ensures |r| == |days|
  {
    seq(|days|, k requires 0 <= k < |days| => SumOn(log, input, sector, days[k]))
  }

  function CountsOn(log: real -> real, input: seq<Input>, sector: string, days: seq<Day>): nat {
    if |days| == 0 then 0
    else CountsOn(log, input, sector, days[..|days| - 1]) + CountOn(log, input, sector, days[|days| - 1])
  }

  lemma {:induction false} SumJoins(a: seq<real>, b: seq<real>)
    ensures Returns.Sum(a + b) == Returns.Sum(a) + Returns.Sum(b)
  {
    if b == [] {
      assert a + b == a;
    } else {
      SumJoins(a, b[..|b| - 1]);
      assert (a + b)[..|a + b| - 1] == a + b[..|b| - 1];
    }
  }

  /** Pooling some days pools the returns of all their series. */
  lemma {:induction false} PooledIs(log: real -> real, input: seq<Input>, sector: string, days: seq<Day>)
    ensures var values := Pooled(log, input, sector, days);
      && |values| == CountsOn(log, input, sector, days)
      && Returns.Sum(values) == Boosting.Total(SumsOn(log, input, sector, days))
  {
    hide SectorValues, SectorWith, SectorReturns;
    if days == [] {
      assert SumsOn(log, input, sector, days) == [];
    } else {
      var n := |days| - 1;
      PooledIs(log, input, sector, days[..n]);
      SectorValuesAre(log, input, sector, days[n], |input|);
      SumJoins(Pooled(log, input, sector, days[..n]), SectorOn(log, input, sector, days[n]));
      assert SumsOn(log, input, sector, days)[..n] == SumsOn(log, input, sector, days[..n]);
    }
  }

  lemma {:induction false} SharesAre(log: real -> real, input: seq<Input>, sector: string, days: seq<Day>)
    ensures SharesUp(log, input, sector, days) == Boosting.Total(seq(|days|, k requires 0 <= k < |days| =>
      ShareUp(log, input, sector, days[k])))
  {
    hide SectorValues, SectorWith, SectorRising, Positives;
    var shares := seq(|days|, k requires 0 <= k < |days| => ShareUp(log, input, sector, days[k]));
    if |days| > 0 {
      var n := |days| - 1;
      SharesAre(log, input, sector, days[..n]);
      SectorValuesAre(log, input, sector, days[n], |input|);
      assert shares[..n] == seq(n, k requires 0 <= k < n => ShareUp(log, input, sector, days[..n][k]));
    } else {
      assert shares == [];
    }
  }

  /** A number is the mean of some sum over a count; zero when nothing is counted. */
  predicate IsMean(x: real, sum: real, n: nat) {
    x == if n == 0 then 0.0 else sum / n as real
  }

  /**
   * The sector numbers exist with twenty days up to the reference date on which the sector has a return. They are the
   * mean return over the last five of these days and over the last twenty, all series pooled; the stock's own return
   * over the month less the latter; and the mean over the last five of the share of its series that rose.
   */
  lemma SectorIs(log: real -> real, input: seq<Input>, sector: string, ref: Day, own: real)
    ensures var r, days := SectorFeatures(log, input, sector, ref, own), SectorDays(log, input, sector, ref);
      && (forall d: Day :: d in days <==> d <= ref && CountOn(log, input, sector, d) > 0)
      && StrictlyAscending(days)
      && (r.Some? <==> |days| >= 20)
      && (r.Some? ==>
            var week, month := days[|days| - 5..], days[|days| - 20..];
            var weekly := Boosting.Total(SumsOn(log, input, sector, week));
            var monthly := Boosting.Total(SumsOn(log, input, sector, month));
            && |r.value| == 4
            && IsMean(r.value[0], weekly, CountsOn(log, input, sector, week))
            && IsMean(r.value[1], monthly, CountsOn(log, input, sector, month))
            && r.value[2] == own - r.value[1]
            && r.value[3]
              == Boosting.Total(seq(5, k requires 0 <= k < 5 => ShareUp(log, input, sector, week[k]))) / 5.0)
  {
    hide Pooled, SharesUp, SumsOn, CountsOn, SectorWith, SectorReturns, SectorValues, Boosting.Total, Returns.Sum,
      Positives, ShareUp;
    var days := SectorDays(log, input, sector, ref);
    DaysAreListed(log, input, sector, ref);
    if |days| >= 20 {
      var week, month := days[|days| - 5..], days[|days| - 20..];
      PooledIs(log, input, sector, week);
      PooledIs(log, input, sector, month);
      SharesAre(log, input, sector, week);
    }
  }

  lemma DaysAreListed(log: real -> real, input: seq<Input>, sector: string, ref: Day)
    ensures var days := SectorDays(log, input, sector, ref);
      && (forall d: Day :: d in days <==> d <= ref && CountOn(log, input, sector, d) > 0)
      && StrictlyAscending(days)
  {
    hide SectorWith, SectorValues;
    var days := SectorDays(log, input, sector, ref);
    forall d: Day ensures d in days <==> d <= ref && CountOn(log, input, sector, d) > 0 {
      SectorValuesAre(log, input, sector, d, |input|);
    }
  }

  // ---------- the scale ----------

  /** How far bar `k` ranged, counted from the close before. */
  function RangeOf(bars: seq<Bar>, k: int): (r: real)
    requires 1 <= k < |bars|
  {
    var b, close := bars[k], bars[k - 1].close;
    (if b.high < close then close else b.high) - (if close < b.low then close else b.low)
  }

  /** With ordered prices the true range is that from the lowest to the highest, the close before included. */
  lemma TrueRangeIs(bars: seq<Bar>, k: int)
    requires 1 <= k < |bars| && bars[k].low <= bars[k].high
    ensures TrueRange(bars[k - 1], bars[k]) == RangeOf(bars, k)
  {
  }

  lemma {:induction false} RangesAre(bars: seq<Bar>, n: nat)
    requires n < |bars| && forall k :: 0 <= k < |bars| ==> bars[k].low <= bars[k].high
    ensures Ranges(bars, n) == Boosting.Total(seq(n, k requires 0 <= k < n => RangeOf(bars, k + 1)))
  {
    var all := seq(n, k requires 0 <= k < n => RangeOf(bars, k + 1));
    if n > 0 {
      RangesAre(bars, n - 1);
      TrueRangeIs(bars, n);
      assert all[..n - 1] == seq(n - 1, k requires 0 <= k < n - 1 => RangeOf(bars, k + 1));
    } else {
      assert all == [];
    }
  }

  /** The scale is the mean range of the first fourteen bars after the first, or of as many as there are. */
  lemma ScaleIs(bars: seq<Bar>)
    requires forall k :: 0 <= k < |bars| ==> bars[k].low <= bars[k].high
    ensures |bars| < 2 ==> Scale(bars) == 0.0
    ensures |bars| >= 2 ==>
      var n := if |bars| > 15 then 14 else |bars| - 1;
      Scale(bars) == Boosting.Total(seq(n, k requires 0 <= k < n => RangeOf(bars, k + 1))) / n as real
  {
    hide Boosting.Total, RangeOf;
    if |bars| >= 2 {
      RangesAre(bars, if |bars| > 15 then 14 else |bars| - 1);
    }
  }

  // ---------- the features ----------

  /** What one slot of the feature list holds: the sector before the market, the market before the stock. */
  ghost function SlotOf(own: Option<StockValues>, market: Option<Stats>, sector: Option<seq<real>>,
      k: nat): Option<real> {
    if sector.Some? && 29 <= k < 29 + |sector.value| then Some(sector.value[k - 29])
    else if market.Some? && k == 24 then Some(market.value.return1)
    else if market.Some? && k == 25 then Some(market.value.return5)
    else if market.Some? && k == 26 then Some(market.value.trend20)
    else if market.Some? && k == 27 then Some(market.value.vol20)
    else if market.Some? && k == 28 then Some(market.value.breadth5)
    else if own.Some? && k < |own.value.values| then Some(own.value.values[k]) else None
  }

  /**
   * The features of a snapshot: the stock's own values from the first slot on, the five numbers of the market from the
   * 25th and the four of the sector from the 30th, each when it is switched on and known; and how far each is known.
   */
  lemma FeaturesAre(m: Math, cfg: Config, stock: Stock, through: seq<Bar>, market: Option<Stats>, input: seq<Input>,
      ref: Day)
    ensures var f, own := BuildFeatures(m, cfg, stock, through, market, input, ref), m.stock(through);
      var shown := if cfg.useMarket && market.Some? && market.value.available then market else None;
      var sector := if cfg.useSector && stock.sector != "" && own.Some?
        then SectorFeatures(m.log, input, stock.sector, ref, own.value.return20) else None;
      && |f.values| == 33
      && (forall k :: 0 <= k < 33 ==> f.values[k] == SlotOf(if cfg.useStock then own else None, shown, sector, k))
      && (f.availability.stock == Disabled <==> !cfg.useStock)
      && (f.availability.stock == Available <==> cfg.useStock && own.Some?)
      && (f.availability.market == Disabled <==> !cfg.useMarket)
      && (f.availability.market == Available <==> shown.Some?)
      && (f.availability.sector == Disabled <==> !cfg.useSector)
      && (f.availability.sector == Available <==> sector.Some?)
      && (f.availability.sector == MissingSector <==> cfg.useSector && (stock.sector == "" || own.None?))
      && (f.trend == UnknownTrend <==> shown.None?) && (f.volatility == UnknownVolatility <==> own.None?)
      && (shown.Some? ==>
            && (f.trend == UpTrend <==> shown.value.trend20 > 0.02)
            && (f.trend == DownTrend <==> shown.value.trend20 < -0.02))
      && (own.Some? ==>
            && (f.volatility == Low <==> own.value.atr < 0.02) && (f.volatility == High <==> own.value.atr >= 0.04))
  {
    hide SectorFeatures;
  }

  // ---------- the snapshot ----------

  /**
   * A snapshot is made when the reference date has a raw bar and a priced adjusted one; it is stamped with nine o'clock
   * of the target day, refers to the close of that raw bar, and is ready when its baseline exists, its reference is
   * positive and some of its features are known.
   */
  lemma SnapshotIs(m: Math, cfg: Config, stock: Stock, item: Input, target: Day, ref: Day, market: Option<Stats>,
      input: seq<Input>) returns (raw: Option<Bar>, adjusted: Option<Bar>)
    ensures LastDated(item.raw, ref, raw) && LastDated(item.adjusted, ref, adjusted)
    ensures var (s, reason) := MakeSnapshot(m, cfg, stock, item, target, ref, market, input);
      && (reason == MissingReference <==> raw.None?)
      && (reason == AdjustedMissing <==> raw.Some? && (adjusted.None? || !PricedBar(adjusted.value)))
      && (s.Some? <==> reason == Ready || reason == NotReady)
      && (s.Some? ==>
            var x := s.value;
            && x.stock == stock && x.target == target && x.asOf == 24 * target + 9 && x.inputThrough == ref
            && raw.Some? && x.reference == raw.value.close && x.scale == Scale(Through(item.raw, ref))
            && x.features == BuildFeatures(m, cfg, stock, Through(item.raw, ref), market, input, ref)
            && x.baseline == Forecasted(m.exp, m.log, Through(item.raw, ref))
            && (reason == Ready <==>
                  && x.baseline.Some? && raw.value.close > 0.0
                  && Available in [x.features.availability.stock, x.features.availability.market,
                       x.features.availability.sector]))
  {
    hide BuildFeatures, Forecasted, Scale, Through, BarOn, LastDated;
    BarOnIs(item.raw, ref);
    BarOnIs(item.adjusted, ref);
    raw, adjusted := BarOn(item.raw, ref), BarOn(item.adjusted, ref);
    if adjusted.Some? { ValidIsPriced(adjusted.value); }
  }

  /** The bars that a snapshot reads are those dated up to the reference date, in the order given. */
  lemma {:induction false} ThroughHolds(bars: seq<Bar>, ref: int, b: Bar)
    ensures b in Through(bars, ref) <==> b in bars && b.date <= ref
  {
    if bars != [] {
      var rest := bars[..|bars| - 1];
      ThroughHolds(rest, ref, b);
      assert bars == rest + [bars[|bars| - 1]];
    }
  }
}
