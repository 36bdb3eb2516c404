/** Conformal calibration of the point model, and the repair of crossing forecasts. */
module Calibration {
  import opened Money
  import opened Market
  import opened Bins
  import opened Sorting
  import opened Boosting
  import Trees

  // ---------- quantiles of residuals ----------

  /** The index of the quantile: the ceiling of q n, less one, kept inside the sequence. */
  function QuantileIndex(n: nat, q: real): (i: nat)
    requires n > 0
    ensures i < n
  {
    var index := Ceil(q * n as real) - 1;
    if index < 0 then 0 else if index >= n then n - 1 else index
  }

  function Quantile(values: seq<real>, q: real): real {
    if values == [] then 0.0 else Sorted(values)[QuantileIndex(|values|, q)]
  }

  predicate Within(x: real, lo: real, hi: real) {
    lo <= x <= hi
  }

  function CountWithin(a: seq<real>, lo: real, hi: real): nat {
    if a == [] then 0 else (if Within(a[0], lo, hi) then 1 else 0) + CountWithin(a[1..], lo, hi)
  }

  lemma {:induction false} CountInsert(x: real, a: seq<real>, lo: real, hi: real)
    requires Ascending(a)
    ensures CountWithin(Insert(x, a), lo, hi) == CountWithin(a, lo, hi) + (if Within(x, lo, hi) then 1 else 0)
  {
    if a == [] || x <= a[0] {
      assert ([x] + a)[1..] == a;
    } else {
      CountInsert(x, a[1..], lo, hi);
      assert ([a[0]] + Insert(x, a[1..]))[1..] == Insert(x, a[1..]);
    }
  }

  lemma {:induction false} CountSorted(a: seq<real>, lo: real, hi: real)
    ensures CountWithin(Sorted(a), lo, hi) == CountWithin(a, lo, hi)
  {
    if a != [] {
      CountSorted(a[1..], lo, hi);
      CountInsert(a[0], Sorted(a[1..]), lo, hi);
    }
  }

  /** A stretch of a sequence inside the bounds is counted in full. */
  lemma {:induction false} CountStretch(a: seq<real>, lo: real, hi: real, i: int, j: int)
    requires j < |a| && forall k :: 0 <= k && i <= k <= j ==> Within(a[k], lo, hi)
    ensures CountWithin(a, lo, hi) >= j - (if i < 0 then 0 else i) + 1
  {
    if j >= 0 {
      forall k | 0 <= k && i - 1 <= k <= j - 1 ensures Within(a[1..][k], lo, hi) {
        assert a[1..][k] == a[k + 1];
      }
      CountStretch(a[1..], lo, hi, i - 1, j - 1);
    }
  }

  /** Strictly more than four fifths of any residuals lie between their 10% and 90% quantiles. */
  lemma BandCovers(values: seq<real>)
    requires values != []
    ensures CountWithin(values, Quantile(values, 0.1), Quantile(values, 0.9)) as real > 0.8 * |values| as real
  {
    hide CountWithin, Sorted, QuantileIndex;
    var n := |values|;
    CountSorted(values, Quantile(values, 0.1), Quantile(values, 0.9));
    IndexSpread(n);
    CountStretch(Sorted(values), Quantile(values, 0.1), Quantile(values, 0.9), QuantileIndex(n, 0.1),
      QuantileIndex(n, 0.9));
  }

  lemma IndexSpread(n: nat)
    requires n > 0
    ensures QuantileIndex(n, 0.1) <= QuantileIndex(n, 0.5) <= QuantileIndex(n, 0.9)
    ensures (QuantileIndex(n, 0.9) - QuantileIndex(n, 0.1) + 1) as real > 0.8 * n as real
  {
    hide Ceil;
    var x := n as real;
    assert 0 <= Ceil(0.1 * x) - 1 <= Ceil(0.5 * x) - 1 <= Ceil(0.9 * x) - 1 < n;
  }

  // ---------- calibration ----------

  datatype Extremes = Extremes(high: real, low: real)

  datatype Sample = Sample(values: Row, reference: real, actual: Option<Extremes>)

  datatype Calibrated = Calibrated(high: seq<real>, low: seq<real>, window: nat)

  function Levels(): (r: seq<real>)
    ensures |r| == 3
  {
    [0.1, 0.5, 0.9]
  }

  /** The exponential and the logarithm, as unknown functions that are monotone, positive and inverse. */
  ghost predicate Exponential(exp: real -> real, log: real -> real) {
    && (forall x :: exp(x) > 0.0)
    && (forall x, y :: x <= y ==> exp(x) <= exp(y))
    && (forall x :: x > 0.0 ==> exp(log(x)) == x)
  }

  ghost predicate ValidArtifact(a: Artifact, nFeatures: nat) {
    Usable(a.highTrees, nFeatures) && Usable(a.lowTrees, nFeatures)
  }

  function HighLog(a: Artifact, nFeatures: nat, values: Row): real
    requires ValidArtifact(a, nFeatures) && |values| == nFeatures
  {
    PredictSum(a.highBase, a.o.learningRate, a.highTrees, nFeatures, values)
  }

  function LowLog(a: Artifact, nFeatures: nat, values: Row): real
    requires ValidArtifact(a, nFeatures) && |values| == nFeatures
  {
    PredictSum(a.lowBase, a.o.learningRate, a.lowTrees, nFeatures, values)
  }

  predicate Resolved(sample: Sample) {
    sample.actual.Some? && sample.reference > 0.0
  }

  ghost predicate Shapely(samples: seq<Sample>, nFeatures: nat) {
    forall k :: 0 <= k < |samples| ==> |samples[k].values| == nFeatures
  }

  /** The residuals of the resolved samples against the raw prediction. */
  function HighResiduals(log: real -> real, a: Artifact, nFeatures: nat, samples: seq<Sample>): seq<real>
    requires ValidArtifact(a, nFeatures) && Shapely(samples, nFeatures)
  {
    if samples == [] then [] else
      var rest, last := HighResiduals(log, a, nFeatures, samples[..|samples| - 1]), samples[|samples| - 1];
      if Resolved(last) then rest + [log(last.actual.value.high / last.reference) - HighLog(a, nFeatures, last.values)]
        else rest
  }

  function LowResiduals(log: real -> real, a: Artifact, nFeatures: nat, samples: seq<Sample>): seq<real>
    requires ValidArtifact(a, nFeatures) && Shapely(samples, nFeatures)
  {
    if samples == [] then [] else
      var rest, last := LowResiduals(log, a, nFeatures, samples[..|samples| - 1]), samples[|samples| - 1];
      if Resolved(last) then rest + [log(last.actual.value.low / last.reference) - LowLog(a, nFeatures, last.values)]
        else rest
  }

  function Offsets(residuals: seq<real>): (r: seq<real>)
    ensures |r| == 3
  {
    [Quantile(residuals, 0.1), Quantile(residuals, 0.5), Quantile(residuals, 0.9)]
  }

  lemma OffsetsAscend(residuals: seq<real>)
    ensures Offsets(residuals)[0] <= Offsets(residuals)[1] <= Offsets(residuals)[2]
  {
    hide Sorted, QuantileIndex;
    if residuals != [] {
      IndexSpread(|residuals|);
    }
  }

  /**
   * The three numbers are the 10%, 50% and 90% quantiles of the residuals: each is at most a
   * number exactly when that share of the residuals is.
   */
  ghost predicate QuantilesOf(residuals: seq<real>, offsets: seq<real>) {
    && |offsets| == 3
    && (forall y :: offsets[0] <= y <==> CountAtMost(residuals, y) as real >= 0.1 * |residuals| as real)
    && (forall y :: offsets[1] <= y <==> CountAtMost(residuals, y) as real >= 0.5 * |residuals| as real)
    && (forall y :: offsets[2] <= y <==> CountAtMost(residuals, y) as real >= 0.9 * |residuals| as real)
  }

  lemma IndexRank(n: nat, q: real, count: nat)
    requires n > 0 && 0.0 < q < 1.0
    ensures count > QuantileIndex(n, q) <==> count as real >= q * n as real
  {
    assert 0.0 < q * n as real < n as real;
  }

  /** A quantile of some numbers is at most `y` exactly when that share of the numbers is. */
  lemma QuantileRank(values: seq<real>, q: real, y: real)
    requires values != [] && 0.0 < q < 1.0
    ensures Quantile(values, q) <= y <==> CountAtMost(values, y) as real >= q * |values| as real
  {
    hide Sorted, QuantileIndex, CountAtMost;
    PlaceOfSorted(values, QuantileIndex(|values|, q), y);
    IndexRank(|values|, q, CountAtMost(values, y));
  }

  lemma OffsetsRank(residuals: seq<real>)
    requires residuals != []
    ensures QuantilesOf(residuals, Offsets(residuals))
  {
    hide Quantile, CountAtMost;
    var n := |residuals| as real;
    forall y
      ensures Quantile(residuals, 0.1) <= y <==> CountAtMost(residuals, y) as real >= 0.1 * n
      ensures Quantile(residuals, 0.5) <= y <==> CountAtMost(residuals, y) as real >= 0.5 * n
      ensures Quantile(residuals, 0.9) <= y <==> CountAtMost(residuals, y) as real >= 0.9 * n
    {
      QuantileRank(residuals, 0.1, y);
      QuantileRank(residuals, 0.5, y);
      QuantileRank(residuals, 0.9, y);
    }
  }

  // ---------- forecasts ----------

  datatype QuantilePrice = QuantilePrice(level: real, price: real)

  datatype Interval = Interval(lower: real, upper: real, coverage: real, method_: string)

  datatype Estimate = Estimate(point: real, quantiles: seq<QuantilePrice>, interval: Option<Interval>)

  datatype Forecast = Forecast(high: Estimate, low: Estimate)

  const METHOD := "rolling_conformal_residual"

  function Price(exp: real -> real, reference: real, pointLog: real, offset: real): real {
    Times(reference, exp(pointLog + offset))
  }

  /** The estimate around a point prediction; later quantiles are raised to earlier ones. */
  function CalibratedEstimate(exp: real -> real, reference: real, pointLog: real,
      offsets: seq<real>): (r: Option<Estimate>)
    requires |offsets| == 3
    ensures r.Some? ==> FromCalibration(r.value)
  {
    var p0 := Price(exp, reference, pointLog, offsets[0]);
    var p1 := Max(p0, Price(exp, reference, pointLog, offsets[1]));
    var p2 := Max(p1, Price(exp, reference, pointLog, offsets[2]));
    if p0 <= 0.0 || Price(exp, reference, pointLog, offsets[1]) <= 0.0
      || Price(exp, reference, pointLog, offsets[2]) <= 0.0 then None
    else Some(Estimate(p1, [QuantilePrice(0.1, p0), QuantilePrice(0.5, p1), QuantilePrice(0.9, p2)],
      Some(Interval(p0, p2, 0.8, METHOD))))
  }

  /** An estimate as `CalibratedEstimate` makes it. */
  ghost predicate FromCalibration(e: Estimate) {
    && |e.quantiles| == 3 && e.interval.Some?
    && e.quantiles[0].level == 0.1 && e.quantiles[1].level == 0.5 && e.quantiles[2].level == 0.9
    && 0.0 < e.quantiles[0].price <= e.quantiles[1].price <= e.quantiles[2].price
    && e.point == e.quantiles[1].price
    && e.interval.value == Interval(e.quantiles[0].price, e.quantiles[2].price, 0.8, METHOD)
  }

  // ---------- the band covers the calibration samples ----------

  /** The samples whose actual high lies in the band that the calibrated model puts around its own prediction. */
  function HighCovered(exp: real -> real, a: Artifact, nFeatures: nat, samples: seq<Sample>, offsets: seq<real>): nat
    requires ValidArtifact(a, nFeatures) && Shapely(samples, nFeatures) && |offsets| == 3
  {
    if samples == [] then 0 else
      var last := samples[|samples| - 1];
      HighCovered(exp, a, nFeatures, samples[..|samples| - 1], offsets)
      + (if Resolved(last) && InBand(exp, last.reference, HighLog(a, nFeatures, last.values), offsets,
        last.actual.value.high) then 1 else 0)
  }

  function LowCovered(exp: real -> real, a: Artifact, nFeatures: nat, samples: seq<Sample>, offsets: seq<real>): nat
    requires ValidArtifact(a, nFeatures) && Shapely(samples, nFeatures) && |offsets| == 3
  {
    if samples == [] then 0 else
      var last := samples[|samples| - 1];
      LowCovered(exp, a, nFeatures, samples[..|samples| - 1], offsets)
      + (if Resolved(last) && InBand(exp, last.reference, LowLog(a, nFeatures, last.values), offsets,
        last.actual.value.low) then 1 else 0)
  }

  predicate InBand(exp: real -> real, reference: real, pointLog: real, offsets: seq<real>, actual: real)
    requires |offsets| == 3
  {
    match CalibratedEstimate(exp, reference, pointLog, offsets)
    case None => false
    case Some(e) => e.interval.value.lower <= actual <= e.interval.value.upper
  }

  ghost predicate Priced(samples: seq<Sample>) {
    forall k :: 0 <= k < |samples| && samples[k].actual.Some? ==>
      samples[k].actual.value.high > 0.0 && samples[k].actual.value.low > 0.0
  }

  /** A residual inside the quantile band puts the actual price inside the price band. */
  lemma ResidualInBand(exp: real -> real, log: real -> real, reference: real, pointLog: real, offsets: seq<real>,
      actual: real)
    requires Exponential(exp, log) && reference > 0.0 && actual > 0.0 && |offsets| == 3
      && offsets[0] <= offsets[1] <= offsets[2]
    requires Within(log(actual / reference) - pointLog, offsets[0], offsets[2])
    ensures InBand(exp, reference, pointLog, offsets, actual)
  {
    hide Times;
    var x := log(actual / reference);
    RatioPositive(actual, reference);
    assert exp(pointLog + offsets[0]) <= exp(x) <= exp(pointLog + offsets[2]);
    assert exp(pointLog + offsets[0]) <= exp(pointLog + offsets[1]) <= exp(pointLog + offsets[2]);
    Scaled(reference, exp(pointLog + offsets[0]), exp(x));
    Scaled(reference, exp(x), exp(pointLog + offsets[2]));
    Scaled(reference, exp(pointLog + offsets[0]), exp(pointLog + offsets[1]));
    Scaled(reference, exp(pointLog + offsets[1]), exp(pointLog + offsets[2]));
    Restored(reference, actual);
  }

  lemma RatioPositive(x: real, d: real)
    requires x > 0.0 && d > 0.0
    ensures x / d > 0.0
  {
    assert x / d * d == x;
    if x / d <= 0.0 { NonNegative(-(x / d), d); }
  }

  lemma Scaled(d: real, x: real, y: real)
    requires d > 0.0 && 0.0 < x <= y
    ensures 0.0 < Times(d, x) <= Times(d, y)
  {
    NonNegative(d, y - x);
    assert d * x > 0.0;
  }

  lemma Restored(reference: real, actual: real)
    requires reference > 0.0
    ensures Times(reference, actual / reference) == actual
  {
  }

  lemma {:induction false} CountAppend(a: seq<real>, x: real, lo: real, hi: real)
    ensures CountWithin(a + [x], lo, hi) == CountWithin(a, lo, hi) + (if Within(x, lo, hi) then 1 else 0)
  {
    if a == [] {
      assert [] + [x] == [x];
    } else {
      CountAppend(a[1..], x, lo, hi);
      assert (a + [x])[1..] == a[1..] + [x];
    }
  }

  lemma {:induction false} CoveredAtLeast(exp: real -> real, log: real -> real, a: Artifact, nFeatures: nat,
      samples: seq<Sample>, offsets: seq<real>)
    requires Exponential(exp, log) && ValidArtifact(a, nFeatures) && Shapely(samples, nFeatures) && Priced(samples)
    requires |offsets| == 3 && offsets[0] <= offsets[1] <= offsets[2]
    ensures HighCovered(exp, a, nFeatures, samples, offsets) >= CountWithin(HighResiduals(log, a, nFeatures, samples),
      offsets[0], offsets[2])
    ensures LowCovered(exp, a, nFeatures, samples, offsets) >= CountWithin(LowResiduals(log, a, nFeatures, samples),
      offsets[0], offsets[2])
  {
    hide PredictSum, InBand, CountWithin, Exponential;
    if samples == [] {
      NoneCounted(offsets[0], offsets[2]);
    } else {
      var rest, last := samples[..|samples| - 1], samples[|samples| - 1];
      CoveredAtLeast(exp, log, a, nFeatures, rest, offsets);
      if Resolved(last) {
        var high := log(last.actual.value.high / last.reference) - HighLog(a, nFeatures, last.values);
        var low := log(last.actual.value.low / last.reference) - LowLog(a, nFeatures, last.values);
        CountAppend(HighResiduals(log, a, nFeatures, rest), high, offsets[0], offsets[2]);
        CountAppend(LowResiduals(log, a, nFeatures, rest), low, offsets[0], offsets[2]);
        if Within(high, offsets[0], offsets[2]) {
          ResidualInBand(exp, log, last.reference, HighLog(a, nFeatures, last.values), offsets, last.actual.value.high);
        }
        if Within(low, offsets[0], offsets[2]) {
          ResidualInBand(exp, log, last.reference, LowLog(a, nFeatures, last.values), offsets, last.actual.value.low);
        }
      }
    }
  }

  lemma NoneCounted(lo: real, hi: real)
    ensures CountWithin([], lo, hi) == 0
  {
  }

  /**
   * For strictly more than four fifths of the resolved calibration samples, the actual high lies in the band that the
   * calibrated model puts around its own prediction; and so for the lows.
   */
  lemma CalibrationCovers(exp: real -> real, log: real -> real, a: Artifact, nFeatures: nat, samples: seq<Sample>)
    requires Exponential(exp, log) && ValidArtifact(a, nFeatures) && Shapely(samples, nFeatures) && Priced(samples)
    ensures var r := HighResiduals(log, a, nFeatures, samples);
            r != [] ==> HighCovered(exp, a, nFeatures, samples, Offsets(r)) as real > 0.8 * |r| as real
    ensures var r := LowResiduals(log, a, nFeatures, samples);
            r != [] ==> LowCovered(exp, a, nFeatures, samples, Offsets(r)) as real > 0.8 * |r| as real
  {
    hide Quantile, CountWithin, HighCovered, LowCovered, HighResiduals, LowResiduals;
    var high, low := HighResiduals(log, a, nFeatures, samples), LowResiduals(log, a, nFeatures, samples);
    OffsetsAscend(high);
    OffsetsAscend(low);
    CoveredAtLeast(exp, log, a, nFeatures, samples, Offsets(high));
    CoveredAtLeast(exp, log, a, nFeatures, samples, Offsets(low));
    if high != [] { BandCovers(high); }
    if low != [] { BandCovers(low); }
  }

  method Calibrate(log: real -> real, a: Artifact, nFeatures: nat, samples: seq<Sample>) returns (r: Option<Calibrated>)
    requires ValidArtifact(a, nFeatures) && Shapely(samples, nFeatures)
    ensures var high, low := HighResiduals(log, a, nFeatures, samples), LowResiduals(log, a, nFeatures, samples);
            r == if |samples| < 10 || |high| < 10 || |low| < 10 then None
              else Some(Calibrated(Offsets(high), Offsets(low), |high|))
    ensures r.Some? ==> QuantilesOf(HighResiduals(log, a, nFeatures, samples), r.value.high)
    ensures r.Some? ==> QuantilesOf(LowResiduals(log, a, nFeatures, samples), r.value.low)
  {
    hide Quantile, PredictSum, QuantilesOf;
    if |samples| < 10 {
      return None;
    }
    var high: seq<real>, low: seq<real> := [], [];
    for k := 0 to |samples|
      invariant high == HighResiduals(log, a, nFeatures, samples[..k])
      invariant low == LowResiduals(log, a, nFeatures, samples[..k])
    {
      assert samples[..k + 1][..k] == samples[..k];
      var sample := samples[k];
      if sample.actual.None? || sample.reference <= 0.0 {
        continue;
      }
      var highLog := PredictRaw(a.highBase, a.o.learningRate, a.highTrees, nFeatures, sample.values);
      var lowLog := PredictRaw(a.lowBase, a.o.learningRate, a.lowTrees, nFeatures, sample.values);
      high := high + [log(sample.actual.value.high / sample.reference) - highLog];
      low := low + [log(sample.actual.value.low / sample.reference) - lowLog];
    }
    assert samples[..|samples|] == samples;
    if |high| < 10 || |low| < 10 {
      return None;
    }
    var highOffsets: seq<real>, lowOffsets: seq<real> := [], [];
    for k := 0 to |Levels()|
      invariant highOffsets == Offsets(high)[..k] && lowOffsets == Offsets(low)[..k]
    {
      highOffsets := highOffsets + [Quantile(high, Levels()[k])];
      lowOffsets := lowOffsets + [Quantile(low, Levels()[k])];
    }
    assert Offsets(high)[..3] == Offsets(high) && Offsets(low)[..3] == Offsets(low);
    OffsetsRank(high);
    OffsetsRank(low);
    return Some(Calibrated(highOffsets, lowOffsets, |high|));
  }

  // ---------- the repair of crossing estimates ----------

  /** What an accepted forecast looks like. */
  ghost predicate ValidEstimate(e: Estimate) {
    && e.point > 0.0
    && (forall i :: 0 <= i < |e.quantiles| ==> 0.0 < e.quantiles[i].level < 1.0 && e.quantiles[i].price > 0.0)
    && (forall i :: 0 < i < |e.quantiles| ==>
         e.quantiles[i - 1].level < e.quantiles[i].level && e.quantiles[i - 1].price <= e.quantiles[i].price)
    && (e.interval.Some? ==>
          var v := e.interval.value;
          0.0 < v.lower <= e.point <= v.upper && 0.0 < v.coverage < 1.0 && v.method_ != "")
  }

  ghost predicate ValidForecast(f: Forecast) {
    && ValidEstimate(f.high) && ValidEstimate(f.low)
    && f.high.point >= f.low.point && |f.high.quantiles| == |f.low.quantiles|
    && (forall i :: 0 <= i < |f.high.quantiles| ==>
          f.high.quantiles[i].level == f.low.quantiles[i].level
            && f.high.quantiles[i].price >= f.low.quantiles[i].price)
    && f.high.interval.Some? == f.low.interval.Some?
    && (f.high.interval.Some? ==>
          var h, l := f.high.interval.value, f.low.interval.value;
          h.coverage == l.coverage && h.method_ == l.method_ && h.lower >= l.lower && h.upper >= l.upper)
  }

  method ValidateEstimate(e: Estimate) returns (ok: bool)
    ensures ok <==> ValidEstimate(e)
  {
    if e.point <= 0.0 {
      return false;
    }
    var lastLevel, lastPrice := 0.0, 0.0;
    for i := 0 to |e.quantiles|
      invariant i == 0 ==> lastLevel == 0.0 && lastPrice == 0.0
      invariant i > 0 ==> lastLevel == e.quantiles[i - 1].level && lastPrice == e.quantiles[i - 1].price
      invariant i > 0 ==> 0.0 < lastLevel && 0.0 < lastPrice
      invariant forall j :: 0 <= j < i ==> 0.0 < e.quantiles[j].level < 1.0 && e.quantiles[j].price > 0.0
      invariant forall j :: 0 < j < i ==>
        e.quantiles[j - 1].level < e.quantiles[j].level && e.quantiles[j - 1].price <= e.quantiles[j].price
    {
      var q := e.quantiles[i];
      if q.level <= lastLevel || q.level >= 1.0 || q.price <= 0.0 || q.price < lastPrice {
        assert i > 0 ==> e.quantiles[i - 1].level == lastLevel;
        return false;
      }
      lastLevel, lastPrice := q.level, q.price;
    }
    if e.interval.Some? {
      var v := e.interval.value;
      if v.lower <= 0.0 || v.upper <= 0.0 || v.lower > e.point || v.upper < e.point || v.coverage <= 0.0
        || v.coverage >= 1.0 || v.method_ == "" {
        return false;
      }
    }
    return true;
  }

  method ValidateForecast(f: Forecast) returns (ok: bool)
    ensures ok <==> ValidForecast(f)
  {
    var high := ValidateEstimate(f.high);
    var low := ValidateEstimate(f.low);
    if !high || !low {
      return false;
    }
    if f.high.point < f.low.point || |f.high.quantiles| != |f.low.quantiles| {
      return false;
    }
    for i := 0 to |f.high.quantiles|
      invariant forall j :: 0 <= j < i ==>
                  f.high.quantiles[j].level == f.low.quantiles[j].level
                    && f.high.quantiles[j].price >= f.low.quantiles[j].price
    {
      if f.high.quantiles[i].level != f.low.quantiles[i].level || f.high.quantiles[i].price < f.low.quantiles[i].price {
        return false;
      }
    }
    if f.high.interval.Some? != f.low.interval.Some? {
      return false;
    }
    if f.high.interval.Some? {
      var h, l := f.high.interval.value, f.low.interval.value;
      if h.coverage != l.coverage || h.method_ != l.method_ || h.lower < l.lower || h.upper < l.upper {
        return false;
      }
    }
    return true;
  }

  method EstimateOf(exp: real -> real, reference: real, pointLog: real, offsets: seq<real>)
      returns (r: Option<Estimate>)
    requires |offsets| == 3
    ensures r == CalibratedEstimate(exp, reference, pointLog, offsets)
    ensures r.Some? ==> FromCalibration(r.value)
  {
    hide Times;
    var prices: seq<real> := [];
    for k := 0 to 3
      invariant |prices| == k && forall j :: 0 <= j < k ==>
        prices[j] == Price(exp, reference, pointLog, offsets[j]) > 0.0
    {
      var price := Price(exp, reference, pointLog, offsets[k]);
      if price <= 0.0 {
        return None;
      }
      prices := prices + [price];
    }
    if prices[1] < prices[0] {
      prices := prices[1 := prices[0]];
    }
    if prices[2] < prices[1] {
      prices := prices[2 := prices[1]];
    }
    return Some(Estimate(prices[1],
      [QuantilePrice(0.1, prices[0]), QuantilePrice(0.5, prices[1]), QuantilePrice(0.9, prices[2])],
                         Some(Interval(prices[0], prices[2], 0.8, METHOD))));
  }

  /** Nothing that the repair touches shrinks: the point and the quantiles only rise, and the band only widens. */
  ghost predicate Widened(before: Estimate, after: Estimate) {
    && before.point <= after.point && |before.quantiles| == |after.quantiles|
    && (forall i :: 0 <= i < |before.quantiles| ==>
          before.quantiles[i].level == after.quantiles[i].level
            && before.quantiles[i].price <= after.quantiles[i].price)
    && before.interval.Some? && after.interval.Some?
    && after.interval.value.lower <= before.interval.value.lower
         && before.interval.value.upper <= after.interval.value.upper
  }

  /** The quantiles and the band of the high after the first `k` quantiles were raised to those of the low. */
  datatype Raised = Raised(quantiles: seq<QuantilePrice>, lower: real, upper: real)

  function RaiseTo(high: Estimate, low: Estimate, k: nat): (r: Raised)
    requires k <= |high.quantiles| == |low.quantiles| && high.interval.Some? && low.interval.Some?
    ensures |r.quantiles| == |high.quantiles|
  {
    if k == 0 then Raised(high.quantiles, high.interval.value.lower, high.interval.value.upper) else
      var r := RaiseTo(high, low, k - 1);
      var q := low.quantiles[k - 1].price;
      if r.quantiles[k - 1].price < q then
        Raised(r.quantiles[k - 1 := r.quantiles[k - 1].(price := q)], Min(r.lower, low.interval.value.lower),
          Max(r.upper, low.interval.value.upper))
      else r
  }

  /** The high with its point and middle quantile at least those of the low. */
  function Uncrossed(high: Estimate, low: Estimate): (r: Estimate)
    requires |high.quantiles| == |low.quantiles| == 3 && high.interval.Some? && low.interval.Some?
    ensures |r.quantiles| == 3 && r.interval.Some?
  {
    if high.point < low.point
    then high.(point := low.point,
      quantiles := high.quantiles[1 := high.quantiles[1].(price := low.quantiles[1].price)])
    else high
  }

  function Repaired(high: Estimate, low: Estimate): Forecast
    requires |high.quantiles| == |low.quantiles| == 3 && high.interval.Some? && low.interval.Some?
  {
    var e := Uncrossed(high, low);
    var r := RaiseTo(e, low, 3);
    Forecast(
      e.(quantiles := r.quantiles,
        interval := Some(e.interval.value.(lower := Min(r.lower, e.point), upper := Max(r.upper, e.point)))),
      low.(interval := Some(low.interval.value.(lower := Min(low.interval.value.lower, low.point),
        upper := Max(low.interval.value.upper, low.point)))))
  }

  /**
    The three quantiles end up as the larger of both, and the
    band takes in the low one where an outer quantile was raised.
  */
  lemma RaisedThrice(high: Estimate, low: Estimate)
    requires FromCalibration(high) && FromCalibration(low)
    ensures var r := RaiseTo(Uncrossed(high, low), low, 3);
            && (forall i :: 0 <= i < 3 ==> r.quantiles[i].level == high.quantiles[i].level)
            && (forall i :: 0 <= i < 3 ==> r.quantiles[i].price == Max(high.quantiles[i].price, low.quantiles[i].price))
            && r.lower == (if high.quantiles[0].price < low.quantiles[0].price then high.quantiles[0].price
                           else if high.quantiles[2].price < low.quantiles[2].price
                             then Min(high.quantiles[0].price, low.quantiles[0].price)
                           else high.quantiles[0].price)
            && r.upper == (if high.quantiles[0].price < low.quantiles[0].price
                 || high.quantiles[2].price < low.quantiles[2].price
                           then Max(high.quantiles[2].price, low.quantiles[2].price) else high.quantiles[2].price)
  {
    var e := Uncrossed(high, low);
    var r0, r1, r2 := RaiseTo(e, low, 0), RaiseTo(e, low, 1), RaiseTo(e, low, 2);
    assert e.quantiles[1].price == Max(high.quantiles[1].price, low.quantiles[1].price);
    assert r0 == Raised(e.quantiles, high.quantiles[0].price, high.quantiles[2].price);
    assert r2 == r1;
  }

  /**
   * The repair of a crossing only widens the high, leaves the low as it is, and passes
   * validation exactly when the raw 10% quantile of the high was not below that of the low.
   */
  lemma RepairedIsValidIff(high: Estimate, low: Estimate)
    requires FromCalibration(high) && FromCalibration(low)
    ensures Repaired(high, low).low == low && Widened(high, Repaired(high, low).high)
    ensures ValidForecast(Repaired(high, low)) <==> high.quantiles[0].price >= low.quantiles[0].price
  {
    hide Repaired, ValidForecast;
    RepairWidens(high, low);
    RepairValidates(high, low);
  }

  /**
   * What the repair computes: the point and every quantile of the high become the larger of both estimates, and its
   * band ends at the larger 90% quantile; it starts at the high's own 10% quantile, or at that of the low when only the
   * 90% quantile crossed.
   */
  lemma RepairedPrices(high: Estimate, low: Estimate)
    requires FromCalibration(high) && FromCalibration(low)
    ensures var f, h, l := Repaired(high, low), high.quantiles, low.quantiles;
      && f.low == low && f.high.point == Max(high.point, low.point) && |f.high.quantiles| == 3
      && (forall i :: 0 <= i < 3 ==> f.high.quantiles[i] == QuantilePrice(h[i].level, Max(h[i].price, l[i].price)))
      && f.high.interval == Some(Interval(
        if h[0].price >= l[0].price && h[2].price < l[2].price then l[0].price else h[0].price,
        Max(h[2].price, l[2].price), 0.8, "rolling_conformal_residual"))
  {
    hide RaiseTo;
    RaisedThrice(high, low);
  }

  /** There is no estimate exactly when one of the three prices is not positive. */
  lemma NoEstimateIff(exp: real -> real, reference: real, pointLog: real, offsets: seq<real>)
    requires |offsets| == 3
    ensures CalibratedEstimate(exp, reference, pointLog, offsets).None?
      <==> exists k :: 0 <= k < 3 && Times(reference, exp(pointLog + offsets[k])) <= 0.0
  {
    hide Times;
    if CalibratedEstimate(exp, reference, pointLog, offsets).None? {
      var k := if Price(exp, reference, pointLog, offsets[0]) <= 0.0 then 0
        else if Price(exp, reference, pointLog, offsets[1]) <= 0.0 then 1 else 2;
      assert Times(reference, exp(pointLog + offsets[k])) <= 0.0;
    }
  }

  /**
   * With ascending offsets there is an estimate, and each of its prices is the reference times the exponential of the
   * raw prediction and its offset: the 50% one is the point, and the band runs from the 10% one to the 90% one.
   */
  lemma EstimatePrices(exp: real -> real, log: real -> real, reference: real, pointLog: real, offsets: seq<real>)
    requires Exponential(exp, log) && reference > 0.0 && |offsets| == 3 && offsets[0] <= offsets[1] <= offsets[2]
    ensures var low := Times(reference, exp(pointLog + offsets[0]));
      var middle := Times(reference, exp(pointLog + offsets[1]));
      var high := Times(reference, exp(pointLog + offsets[2]));
      && 0.0 < low <= middle <= high
      && CalibratedEstimate(exp, reference, pointLog, offsets) == Some(Estimate(middle,
        [QuantilePrice(0.1, low), QuantilePrice(0.5, middle), QuantilePrice(0.9, high)],
        Some(Interval(low, high, 0.8, "rolling_conformal_residual"))))
  {
    hide Times;
    assert exp(pointLog + offsets[0]) <= exp(pointLog + offsets[1]) <= exp(pointLog + offsets[2]);
    Scaled(reference, exp(pointLog + offsets[0]), exp(pointLog + offsets[1]));
    Scaled(reference, exp(pointLog + offsets[1]), exp(pointLog + offsets[2]));
  }

  lemma RepairWidens(high: Estimate, low: Estimate)
    requires FromCalibration(high) && FromCalibration(low)
    ensures Repaired(high, low).low == low && Widened(high, Repaired(high, low).high)
  {
    hide RaiseTo;
    RaisedThrice(high, low);
  }

  lemma RepairValidates(high: Estimate, low: Estimate)
    requires FromCalibration(high) && FromCalibration(low)
    ensures ValidForecast(Repaired(high, low)) <==> high.quantiles[0].price >= low.quantiles[0].price
  {
    hide RaiseTo;
    RaisedThrice(high, low);
  }

  method Repair(rawHigh: Estimate, low: Estimate) returns (f: Forecast)
    requires FromCalibration(rawHigh) && FromCalibration(low)
    ensures f == Repaired(rawHigh, low)
  {
    var high := rawHigh;
    if high.point < low.point {
      high := high.(point := low.point,
        quantiles := high.quantiles[1 := high.quantiles[1].(price := low.quantiles[1].price)]);
    }
    var lower, upper := high.interval.value.lower, high.interval.value.upper;
    var quantiles := high.quantiles;
    for i := 0 to |quantiles|
      invariant |quantiles| == 3 && Raised(quantiles, lower, upper) == RaiseTo(high, low, i)
    {
      if quantiles[i].price < low.quantiles[i].price {
        quantiles := quantiles[i := quantiles[i].(price := low.quantiles[i].price)];
        lower, upper := Min(lower, low.interval.value.lower), Max(upper, low.interval.value.upper);
      }
    }
    lower, upper := Min(lower, high.point), Max(upper, high.point);
    high := high.(quantiles := quantiles, interval := Some(high.interval.value.(lower := lower, upper := upper)));
    var lowLower, lowUpper := Min(low.interval.value.lower, low.point), Max(low.interval.value.upper, low.point);
    f := Forecast(high, low.(interval := Some(low.interval.value.(lower := lowLower, upper := lowUpper))));
  }

  /** The repaired forecast; nothing when the input does not fit or a price is not positive. */
  method Predict(exp: real -> real, a: Artifact, c: Calibrated, nFeatures: nat, values: Row, reference: real)
      returns (r: Option<Forecast>)
    requires ValidArtifact(a, nFeatures) && |c.high| == |c.low| == 3
    ensures |values| != nFeatures || reference <= 0.0 ==> r == None
    ensures |values| == nFeatures && reference > 0.0 ==>
              var high := CalibratedEstimate(exp, reference, HighLog(a, nFeatures, values), c.high);
              var low := CalibratedEstimate(exp, reference, LowLog(a, nFeatures, values), c.low);
              && (high.None? || low.None? ==> r == None)
              && (high.Some? && low.Some? ==>
                    && r.Some?
                    && r.value == Repaired(high.value, low.value)
                    && Widened(high.value, r.value.high) && r.value.low == low.value
                    && (ValidForecast(r.value) <==> high.value.quantiles[0].price >= low.value.quantiles[0].price))
  {
    hide PredictSum, CalibratedEstimate, ValidForecast, Widened, Repaired;
    if |values| != nFeatures || reference <= 0.0 {
      return None;
    }
    var highLog := PredictRaw(a.highBase, a.o.learningRate, a.highTrees, nFeatures, values);
    var lowLog := PredictRaw(a.lowBase, a.o.learningRate, a.lowTrees, nFeatures, values);
    var high := EstimateOf(exp, reference, highLog, c.high);
    var low := EstimateOf(exp, reference, lowLog, c.low);
    if high.None? || low.None? {
      return None;
    }
    RepairedIsValidIff(high.value, low.value);
    var f := Repair(high.value, low.value);
    return Some(f);
  }

  // ---------- it happens: a calibrated model whose repaired forecast is refused ----------

  /**
   * A high model with one split: nothing up to 0, and `drop` above it. The low
   * model is a single leaf. One feature stands for the fixed list of features.
   */
  function Dipping(drop: real): Artifact {
    Artifact(Options(1, 1, 1, 1.0, 0.0, 2, 1.0), 0.0,
             [[Trees.Node(0, 0.0, 1, 2, true, false, 0.0), Trees.LeafNode(0.0), Trees.LeafNode(drop)]],
             0.0, [[Trees.LeafNode(0.0)]])
  }

  /** What loading asks of the trees of an artifact: some for either target, and each a valid one. */
  ghost predicate Loadable(a: Artifact, nFeatures: nat) {
    && |a.highTrees| > 0 && |a.lowTrees| > 0
    && (forall k :: 0 <= k < |a.highTrees| ==> Trees.ValidTree(a.highTrees[k], nFeatures))
    && (forall k :: 0 <= k < |a.lowTrees| ==> Trees.ValidTree(a.lowTrees[k], nFeatures))
  }

  lemma DippingLoads(drop: real)
    ensures Loadable(Dipping(drop), 1)
  {
  }

  /** Ten days on which nothing moved. */
  function StillDays(): (samples: seq<Sample>)
    ensures |samples| == 10
  {
    seq(10, _ => Sample([Some(0.0)], 10.0, Some(Extremes(10.0, 10.0))))
  }

  lemma DippingPredicts(drop: real)
    ensures ValidArtifact(Dipping(drop), 1)
    ensures HighLog(Dipping(drop), 1, [Some(0.0)]) == 0.0 && HighLog(Dipping(drop), 1, [Some(1.0)]) == drop
    ensures LowLog(Dipping(drop), 1, [Some(0.0)]) == LowLog(Dipping(drop), 1, [Some(1.0)]) == 0.0
  {
    var tree := Dipping(drop).highTrees[0];
    assert Trees.Shaped(tree, 1);
    DipsTo(drop, Some(0.0));
    DipsTo(drop, Some(1.0));
    StaysFlat(drop, Some(0.0));
    StaysFlat(drop, Some(1.0));
  }

  lemma StaysFlat(drop: real, value: Option<real>)
    ensures var trees := Dipping(drop).lowTrees;
      Usable(trees, 1) && PredictSum(0.0, 1.0, trees, 1, [value]) == 0.0
  {
    var trees := Dipping(drop).lowTrees;
    assert Trees.Shaped(trees[0], 1);
    assert Trees.Walk(trees[0], 1, 0, [value]) == 0;
    assert trees[..0] == [];
    assert PredictSum(0.0, 1.0, [], 1, [value]) == 0.0;
  }

  lemma DipsTo(drop: real, value: Option<real>)
    requires value == Some(0.0) || value == Some(1.0)
    ensures var trees := Dipping(drop).highTrees;
      && Usable(trees, 1)
      && PredictSum(0.0, 1.0, trees, 1, [value]) == if value == Some(0.0) then 0.0 else drop
  {
    var trees := Dipping(drop).highTrees;
    var tree := trees[0];
    assert Trees.Shaped(tree, 1);
    assert Trees.Walk(tree, 1, 1, [value]) == 1 && Trees.Walk(tree, 1, 2, [value]) == 2;
    assert GoesLeft(value, 0.0, true) <==> value == Some(0.0);
    assert trees[..0] == [];
    assert PredictSum(0.0, 1.0, [], 1, [value]) == 0.0;
  }

  lemma {:induction false} StillResiduals(log: real -> real, drop: real, n: nat)
    requires n <= 10
    ensures ValidArtifact(Dipping(drop), 1)
    ensures HighResiduals(log, Dipping(drop), 1, StillDays()[..n]) == seq(n, _ => log(1.0))
    ensures LowResiduals(log, Dipping(drop), 1, StillDays()[..n]) == seq(n, _ => log(1.0))
  {
    hide HighLog, LowLog, ValidArtifact;
    DippingPredicts(drop);
    if n > 0 {
      StillResiduals(log, drop, n - 1);
      assert StillDays()[..n][..n - 1] == StillDays()[..n - 1];
      assert 10.0 / 10.0 == 1.0;
    }
  }

  lemma QuantileOfEqual(values: seq<real>, x: real, q: real)
    requires values != [] && forall k :: 0 <= k < |values| ==> values[k] == x
    ensures Quantile(values, q) == x
  {
    hide QuantileIndex, Sorted;
    var y := Quantile(values, q);
    assert y in multiset(Sorted(values));
  }

  /**
   * An artifact that loads, calibrated on ten still days, whose forecast for another row is refused: the high falls to
   * half the reference price while the low stays at it.
   */
  lemma RepairedCanFail(exp: real -> real, log: real -> real)
    requires Exponential(exp, log)
    ensures
      var a, samples := Dipping(log(0.5) - log(1.0)), StillDays();
      && ValidArtifact(a, 1) && Loadable(a, 1) && Shapely(samples, 1)
      && var highs, lows := HighResiduals(log, a, 1, samples), LowResiduals(log, a, 1, samples);
         && |highs| == |lows| == 10
         && var high, low := CalibratedEstimate(exp, 10.0, HighLog(a, 1, [Some(1.0)]), Offsets(highs)),
                             CalibratedEstimate(exp, 10.0, LowLog(a, 1, [Some(1.0)]), Offsets(lows));
            high.Some? && low.Some? && !ValidForecast(Repaired(high.value, low.value))
  {
    hide HighLog, LowLog, ValidArtifact, Loadable, HighResiduals, LowResiduals, Quantile, Repaired, ValidForecast;
    var drop := log(0.5) - log(1.0);
    var a, samples := Dipping(drop), StillDays();
    DippingPredicts(drop);
    DippingLoads(drop);
    StillResiduals(log, drop, 10);
    assert samples[..10] == samples;
    var residuals := HighResiduals(log, a, 1, samples);
    QuantileOfEqual(residuals, log(1.0), 0.1);
    QuantileOfEqual(residuals, log(1.0), 0.5);
    QuantileOfEqual(residuals, log(1.0), 0.9);
    assert exp(drop + log(1.0)) == 0.5 && exp(0.0 + log(1.0)) == 1.0;
    assert Times(10.0, 0.5) == 5.0 && Times(10.0, 1.0) == 10.0;
    var high := CalibratedEstimate(exp, 10.0, drop, Offsets(residuals));
    var low := CalibratedEstimate(exp, 10.0, 0.0, Offsets(residuals));
    RepairedIsValidIff(high.value, low.value);
  }
}
