/** The trailing-quantile baseline of internal/dayrange/snapshot.go, measured against the forecast validator. */
module Baseline {
  import opened Money
  import opened Market
  import opened Sorting
  import opened Calibration

  const WINDOW: nat := 60
  const MINIMUM: nat := 20
  const TRAILING := "trailing_quantile_60"

  predicate ValidBar(b: Bar) {
    b.open > 0.0 && b.close > 0.0 && b.high >= Max(b.open, b.close) && b.low > 0.0 && b.low <= Min(b.open, b.close)
  }

  /** `barsThrough`: the bars dated no later than the reference date, in the order given. */
  function Through(bars: seq<Bar>, ref: int): seq<Bar> {
    if |bars| == 0 then []
    else Through(bars[..|bars| - 1], ref) + (if bars[|bars| - 1].date <= ref then [bars[|bars| - 1]] else [])
  }

  function Trailing(bars: seq<Bar>): seq<Bar> {
    if |bars| > WINDOW then bars[|bars| - WINDOW..] else bars
  }

  predicate Counts(bars: seq<Bar>, i: nat)
    requires 0 < i < |bars|
  {
    ValidBar(bars[i - 1]) && ValidBar(bars[i]) && bars[i - 1].close > 0.0
  }

  /** Highs of the first `n` bars against the close before, as logarithms. */
  function Highs(log: real -> real, bars: seq<Bar>, n: nat): seq<real>
    requires 1 <= n <= |bars|
  {
    if n == 1 then []
    else Highs(log, bars, n - 1) + (if Counts(bars, n - 1) then [log(bars[n - 1].high / bars[n - 2].close)] else [])
  }

  function Lows(log: real -> real, bars: seq<Bar>, n: nat): seq<real>
    requires 1 <= n <= |bars|
  {
    if n == 1 then []
    else Lows(log, bars, n - 1) + (if Counts(bars, n - 1) then [log(bars[n - 1].low / bars[n - 2].close)] else [])
  }

  function Around(exp: real -> real, ref: real, point: real, logs: seq<real>): Estimate {
    var lower, upper := Times(ref, exp(Quantile(logs, 0.1))), Times(ref, exp(Quantile(logs, 0.9)));
    Estimate(point, [QuantilePrice(0.1, lower), QuantilePrice(0.5, point), QuantilePrice(0.9, upper)],
             Some(Interval(lower, upper, 0.8, TRAILING)))
  }

  function HighPoint(exp: real -> real, ref: real, highs: seq<real>): real {
    Max(Times(ref, exp(Quantile(highs, 0.5))), ref)
  }

  function LowPoint(exp: real -> real, ref: real, highs: seq<real>, lows: seq<real>): real {
    Min(Times(ref, exp(Quantile(lows, 0.5))), HighPoint(exp, ref, highs))
  }

  /** The baseline over the bars through the reference date. */
  function Forecasted(exp: real -> real, log: real -> real, through: seq<Bar>): Option<Forecast> {
    var bars := Trailing(through);
    if |bars| < MINIMUM then None
    else
      var highs, lows := Highs(log, bars, |bars|), Lows(log, bars, |bars|);
      var ref := bars[|bars| - 1].close;
      if |highs| < MINIMUM - 1 || LowPoint(exp, ref, highs, lows) <= 0.0 then None
      else Some(Forecast(Around(exp, ref, HighPoint(exp, ref, highs), highs),
        Around(exp, ref, LowPoint(exp, ref, highs, lows), lows)))
  }

  method BarsThrough(bars: seq<Bar>, ref: int) returns (out: seq<Bar>)
    ensures out == Through(bars, ref)
  {
    out := [];
    for i := 0 to |bars|
      invariant out == Through(bars[..i], ref)
    {
      assert bars[..i + 1][..i] == bars[..i];
      if bars[i].date <= ref {
        out := out + [bars[i]];
      }
    }
    assert bars[..|bars|] == bars;
  }

  method BaselineForecast(exp: real -> real, log: real -> real, raw: seq<Bar>, refDate: int)
      returns (r: Option<Forecast>)
    ensures r == Forecasted(exp, log, Through(raw, refDate))
  {
    hide Through, Around, Counts, Quantile, Times;
    var bars := BarsThrough(raw, refDate);
    if |bars| > WINDOW {
      bars := bars[|bars| - WINDOW..];
    }
    if |bars| < MINIMUM {
      return None;
    }
    var highs, lows := [], [];
    for i := 1 to |bars|
      invariant highs == Highs(log, bars, i) && lows == Lows(log, bars, i)
    {
      var prev := bars[i - 1];
      assert Counts(bars, i) <==> ValidBar(prev) && ValidBar(bars[i]) && prev.close > 0.0 by { CountsIs(bars, i); }
      if !ValidBar(prev) || !ValidBar(bars[i]) || prev.close <= 0.0 {
        continue;
      }
      highs := highs + [log(bars[i].high / prev.close)];
      lows := lows + [log(bars[i].low / prev.close)];
    }
    if |highs| < MINIMUM - 1 {
      return None;
    }
    var ref := bars[|bars| - 1].close;
    var highPoint := Max(Times(ref, exp(Quantile(highs, 0.5))), ref);
    var lowPoint := Min(Times(ref, exp(Quantile(lows, 0.5))), highPoint);
    if lowPoint <= 0.0 {
      return None;
    }
    return Some(Forecast(Around(exp, ref, highPoint, highs), Around(exp, ref, lowPoint, lows)));
  }

  lemma CountsIs(bars: seq<Bar>, i: nat)
    requires 0 < i < |bars|
    ensures Counts(bars, i) <==> ValidBar(bars[i - 1]) && ValidBar(bars[i]) && bars[i - 1].close > 0.0
  {
  }

  // ---------- Quantiles of paired values ----------

  lemma {:induction false} FewerAtMost(a: seq<real>, b: seq<real>, y: real)
    requires |a| == |b| && forall i :: 0 <= i < |a| ==> b[i] <= a[i]
    ensures CountAtMost(a, y) <= CountAtMost(b, y)
  {
    if a != [] {
      FewerAtMost(a[1..], b[1..], y);
    }
  }

  /** Values that dominate others one by one have the greater quantiles. */
  lemma QuantilesDominate(a: seq<real>, b: seq<real>, q: real)
    requires |a| == |b| && forall i :: 0 <= i < |a| ==> b[i] <= a[i]
    ensures Quantile(b, q) <= Quantile(a, q)
  {
    hide Sorted, CountAtMost, QuantileIndex;
    if a != [] {
      var k := QuantileIndex(|a|, q);
      var y := Sorted(a)[k];
      CountOfSorted(a, y);
      CountOfSorted(b, y);
      CountPlaces(Sorted(a), k, y);
      FewerAtMost(a, b, y);
      CountPlaces(Sorted(b), k, y);
    }
  }

  lemma QuantilesAscend(a: seq<real>)
    requires a != []
    ensures Quantile(a, 0.1) <= Quantile(a, 0.5) <= Quantile(a, 0.9)
  {
    hide Sorted, QuantileIndex;
    IndexSpread(|a|);
  }

  // ---------- When the baseline is a valid forecast ----------

  lemma LogGrows(exp: real -> real, log: real -> real, x: real, y: real)
    requires Exponential(exp, log) && 0.0 < x <= y
    ensures log(x) <= log(y)
  {
    assert log(y) <= log(x) ==> exp(log(y)) <= exp(log(x));
  }

  lemma RatioGrows(x: real, y: real, d: real)
    requires 0.0 < x <= y && 0.0 < d
    ensures 0.0 < x / d <= y / d
  {
    RatioPositive(x, d);
    assert y / d - x / d == (y - x) / d;
    if x < y {
      RatioPositive(y - x, d);
    }
  }

  lemma {:induction false} HighsOverLows(exp: real -> real, log: real -> real, bars: seq<Bar>, n: nat)
    requires Exponential(exp, log) && 1 <= n <= |bars|
    ensures |Highs(log, bars, n)| == |Lows(log, bars, n)|
    ensures forall i :: 0 <= i < |Highs(log, bars, n)| ==> Lows(log, bars, n)[i] <= Highs(log, bars, n)[i]
  {
    hide Exponential;
    if n > 1 {
      HighsOverLows(exp, log, bars, n - 1);
      if Counts(bars, n - 1) {
        RatioGrows(bars[n - 1].low, bars[n - 1].high, bars[n - 2].close);
        LogGrows(exp, log, bars[n - 1].low / bars[n - 2].close, bars[n - 1].high / bars[n - 2].close);
      }
    }
  }

  lemma PricesOf(exp: real -> real, log: real -> real, ref: real, x: real, y: real)
    requires Exponential(exp, log) && 0.0 < ref && x <= y
    ensures 0.0 < Times(ref, exp(x)) <= Times(ref, exp(y))
  {
    Scaled(ref, exp(x), exp(y));
  }

  lemma NegativeReference(exp: real -> real, log: real -> real, ref: real, x: real)
    requires Exponential(exp, log) && ref <= 0.0
    ensures Times(ref, exp(x)) <= 0.0
  {
    NonNegative(-ref, exp(x));
  }

  lemma BackToReference(ref: real, factor: real)
    requires 0.0 < ref
    ensures Times(ref, factor) >= ref <==> factor >= 1.0
  {
    if factor >= 1.0 {
      NonNegative(ref, factor - 1.0);
    } else {
      assert ref * (1.0 - factor) > 0.0;
    }
  }

  /**
    A baseline passes the validator exactly when the 90% quantile of the highs does not lie below
    the close before; a series that gaps down on nine days of ten gets one that does not.
  */
  lemma BaselineIsValidIff(exp: real -> real, log: real -> real, through: seq<Bar>)
    requires Exponential(exp, log) && Forecasted(exp, log, through).Some?
    ensures
      var bars := Trailing(through);
      |bars| > 0 && (ValidForecast(Forecasted(exp, log, through).value) <==>
        exp(Quantile(Highs(log, bars, |bars|), 0.9)) >= 1.0)
  {
    hide Highs, Lows, Quantile, Times, Exponential;
    var bars := Trailing(through);
    var highs, lows := Highs(log, bars, |bars|), Lows(log, bars, |bars|);
    var ref := bars[|bars| - 1].close;
    if ref <= 0.0 {
      NegativeReference(exp, log, ref, Quantile(lows, 0.5));
    }
    HighsOverLows(exp, log, bars, |bars|);
    QuantilesAscend(highs);
    QuantilesAscend(lows);
    QuantilesDominate(highs, lows, 0.1);
    QuantilesDominate(highs, lows, 0.5);
    QuantilesDominate(highs, lows, 0.9);
    ValidAround(exp, log, ref, highs, lows);
  }

  lemma ValidAround(exp: real -> real, log: real -> real, ref: real, highs: seq<real>, lows: seq<real>)
    requires Exponential(exp, log) && 0.0 < ref
    requires Quantile(highs, 0.1) <= Quantile(highs, 0.5) <= Quantile(highs, 0.9)
    requires Quantile(lows, 0.1) <= Quantile(lows, 0.5) <= Quantile(lows, 0.9)
    requires Quantile(lows, 0.1) <= Quantile(highs, 0.1) && Quantile(lows, 0.5) <= Quantile(highs, 0.5)
      && Quantile(lows, 0.9) <= Quantile(highs, 0.9)
    ensures
      var f := Forecast(Around(exp, ref, HighPoint(exp, ref, highs), highs),
        Around(exp, ref, LowPoint(exp, ref, highs, lows), lows));
      ValidForecast(f) <==> exp(Quantile(highs, 0.9)) >= 1.0
  {
    hide Quantile, Times, Exponential;
    PricesOf(exp, log, ref, Quantile(highs, 0.1), Quantile(highs, 0.5));
    PricesOf(exp, log, ref, Quantile(highs, 0.5), Quantile(highs, 0.9));
    PricesOf(exp, log, ref, Quantile(lows, 0.1), Quantile(lows, 0.5));
    PricesOf(exp, log, ref, Quantile(lows, 0.5), Quantile(lows, 0.9));
    PricesOf(exp, log, ref, Quantile(lows, 0.1), Quantile(highs, 0.1));
    PricesOf(exp, log, ref, Quantile(lows, 0.5), Quantile(highs, 0.5));
    PricesOf(exp, log, ref, Quantile(lows, 0.9), Quantile(highs, 0.9));
    BackToReference(ref, exp(Quantile(highs, 0.9)));
    BackToReference(ref, exp(Quantile(highs, 0.5)));
    var high, low := Around(exp, ref, HighPoint(exp, ref, highs), highs),
      Around(exp, ref, LowPoint(exp, ref, highs, lows), lows);
    assert ValidEstimate(low);
    assert ValidEstimate(high) <==> high.point <= high.quantiles[2].price;
  }

  lemma {:induction false} FallingHighs(exp: real -> real, log: real -> real, bars: seq<Bar>, n: nat)
    requires Exponential(exp, log) && 1 <= n <= |bars|
    requires forall i :: 1 <= i < n ==> bars[i].high < bars[i - 1].close
    ensures forall v :: v in Highs(log, bars, n) ==> exp(v) < 1.0
  {
    hide Exponential;
    if n > 1 {
      FallingHighs(exp, log, bars, n - 1);
      if Counts(bars, n - 1) {
        BelowOne(exp, log, bars[n - 1].high, bars[n - 2].close);
      }
    }
  }

  lemma BelowOne(exp: real -> real, log: real -> real, x: real, d: real)
    requires Exponential(exp, log) && 0.0 < x < d
    ensures exp(log(x / d)) < 1.0
  {
    RatioPositive(x, d);
    assert x / d * d == x;
    if x / d >= 1.0 {
      NonNegative(x / d - 1.0, d);
    }
  }

  /** On bars that each stay below the close before, the baseline is refused by the validator. */
  lemma FallingBaselineFails(exp: real -> real, log: real -> real, through: seq<Bar>)
    requires Exponential(exp, log) && Forecasted(exp, log, through).Some?
    requires var bars := Trailing(through); forall i :: 1 <= i < |bars| ==> bars[i].high < bars[i - 1].close
    ensures !ValidForecast(Forecasted(exp, log, through).value)
  {
    hide ValidForecast, Around, Exponential, Lows, QuantileIndex;
    var bars := Trailing(through);
    var highs := Highs(log, bars, |bars|);
    BaselineIsValidIff(exp, log, through);
    FallingHighs(exp, log, bars, |bars|);
    assert highs != [];
    var q := Quantile(highs, 0.9);
    assert q in multiset(highs) by {
      assert Sorted(highs)[QuantileIndex(|highs|, 0.9)] in multiset(Sorted(highs));
    }
  }

  // ---------- It happens ----------

  /** Twenty bars of one price each, a yuan lower every day. */
  function Sinking(): (bars: seq<Bar>)
    ensures |bars| == 20
  {
    seq(20, k => var price := (100 - k) as real; Bar(k, price, price, price, price, 1.0))
  }

  lemma {:induction false} SinkingCounts(log: real -> real, n: nat)
    requires 1 <= n <= 20
    ensures |Highs(log, Sinking(), n)| == n - 1
  {
    if n > 1 {
      SinkingCounts(log, n - 1);
      assert ValidBar(Sinking()[n - 2]) && ValidBar(Sinking()[n - 1]);
    }
  }

  /** The falling bars have a baseline, and the validator refuses it. */
  lemma SinkingBaselineFails(exp: real -> real, log: real -> real)
    requires Exponential(exp, log)
    ensures Forecasted(exp, log, Sinking()).Some? && !ValidForecast(Forecasted(exp, log, Sinking()).value)
  {
    hide ValidForecast, Around, Quantile, Highs, Lows, Times;
    var bars := Sinking();
    SinkingCounts(log, 20);
    var highs, lows, ref := Highs(log, bars, 20), Lows(log, bars, 20), bars[19].close;
    Scaled(ref, exp(Quantile(lows, 0.5)), exp(Quantile(lows, 0.5)));
    assert LowPoint(exp, ref, highs, lows) > 0.0;
    FallingBaselineFails(exp, log, bars);
  }
}
