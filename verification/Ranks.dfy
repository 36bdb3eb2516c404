/** Where the offsets of a calibrated model stand among the samples it was calibrated on. */
module Ranks {
  import opened Money
  import opened Market
  import opened Sorting
  import opened Boosting
  import opened Calibration

  /** The samples that have an actual range and a positive reference price. */
  function Used(samples: seq<Sample>): set<nat> {
    set k: nat | k < |samples| && samples[k].actual.Some? && samples[k].reference > 0.0
  }

  /** How far the logarithm of the actual price over the reference lies above what the trees of its target predict. */
  function Miss(log: real -> real, a: Artifact, nFeatures: nat, sample: Sample, high: bool): real
    requires ValidArtifact(a, nFeatures) && |sample.values| == nFeatures
    requires sample.actual.Some? && sample.reference > 0.0
  {
    if high then
      log(sample.actual.value.high / sample.reference)
      - PredictSum(a.highBase, a.o.learningRate, a.highTrees, nFeatures, sample.values)
    else
      log(sample.actual.value.low / sample.reference)
      - PredictSum(a.lowBase, a.o.learningRate, a.lowTrees, nFeatures, sample.values)
  }

  /** The used samples that lie at most `y` above their prediction. */
  ghost function MissedBy(log: real -> real, a: Artifact, nFeatures: nat, samples: seq<Sample>, high: bool,
      y: real): set<nat>
    requires ValidArtifact(a, nFeatures) && Shapely(samples, nFeatures)
  {
    set k: nat | k in Used(samples) && Miss(log, a, nFeatures, samples[k], high) <= y
  }

  function ResidualsOf(log: real -> real, a: Artifact, nFeatures: nat, samples: seq<Sample>, high: bool): seq<real>
    requires ValidArtifact(a, nFeatures) && Shapely(samples, nFeatures)
  {
    if high then HighResiduals(log, a, nFeatures, samples) else LowResiduals(log, a, nFeatures, samples)
  }

  lemma {:induction false} CountOfAppended(a: seq<real>, x: real, y: real)
    ensures CountAtMost(a + [x], y) == CountAtMost(a, y) + (if x <= y then 1 else 0)
  {
    if a == [] {
      assert [] + [x] == [x];
    } else {
      CountOfAppended(a[1..], x, y);
      assert (a + [x])[1..] == a[1..] + [x];
    }
  }

  ghost predicate Uses(sample: Sample) {
    sample.actual.Some? && sample.reference > 0.0
  }

  lemma UsedStep(samples: seq<Sample>)
    requires samples != []
    ensures var n := |samples| - 1;
      && n !in Used(samples[..n])
      && Used(samples) == if Uses(samples[n]) then Used(samples[..n]) + {n} else Used(samples[..n])
  {
  }

  lemma MissedStep(log: real -> real, a: Artifact, nFeatures: nat, samples: seq<Sample>, high: bool, y: real)
    requires ValidArtifact(a, nFeatures) && Shapely(samples, nFeatures) && samples != []
    ensures var n := |samples| - 1;
      var before := MissedBy(log, a, nFeatures, samples[..n], high, y);
      && n !in before
      && MissedBy(log, a, nFeatures, samples, high, y)
        == if Uses(samples[n]) && Miss(log, a, nFeatures, samples[n], high) <= y then before + {n} else before
  {
    hide Miss;
    var n := |samples| - 1;
    var before := MissedBy(log, a, nFeatures, samples[..n], high, y);
    var after := MissedBy(log, a, nFeatures, samples, high, y);
    assert forall k: nat | k < n :: k in after <==> k in before;
    assert n in after <==> Uses(samples[n]) && Miss(log, a, nFeatures, samples[n], high) <= y;
  }

  lemma ResidualsStep(log: real -> real, a: Artifact, nFeatures: nat, samples: seq<Sample>, high: bool)
    requires ValidArtifact(a, nFeatures) && Shapely(samples, nFeatures) && samples != []
    ensures var n := |samples| - 1;
      var before := ResidualsOf(log, a, nFeatures, samples[..n], high);
      ResidualsOf(log, a, nFeatures, samples, high)
        == if Uses(samples[n]) then before + [Miss(log, a, nFeatures, samples[n], high)] else before
  {
    hide PredictSum;
  }

  /** There is one residual for every used sample, and as many at most `y` as samples missed by at most `y`. */
  lemma {:induction false} ResidualsCount(log: real -> real, a: Artifact, nFeatures: nat, samples: seq<Sample>,
      high: bool, y: real)
    requires ValidArtifact(a, nFeatures) && Shapely(samples, nFeatures)
    ensures |ResidualsOf(log, a, nFeatures, samples, high)| == |Used(samples)|
    ensures CountAtMost(ResidualsOf(log, a, nFeatures, samples, high), y)
      == |MissedBy(log, a, nFeatures, samples, high, y)|
  {
    if samples == [] {
      assert Used(samples) == {} && MissedBy(log, a, nFeatures, samples, high, y) == {};
    } else {
      hide CountAtMost, Miss, Used, MissedBy, ResidualsOf;
      var n := |samples| - 1;
      ResidualsCount(log, a, nFeatures, samples[..n], high, y);
      UsedStep(samples);
      MissedStep(log, a, nFeatures, samples, high, y);
      ResidualsStep(log, a, nFeatures, samples, high);
      if Uses(samples[n]) {
        var x := Miss(log, a, nFeatures, samples[n], high);
        CountOfAppended(ResidualsOf(log, a, nFeatures, samples[..n], high), x, y);
      }
    }
  }

  /**
   * The offsets of a calibration are quantiles over its samples: the first, second and third is at most `y` exactly
   * when 10%, half and 90% of the used samples lie at most `y` above their prediction.
   */
  lemma OffsetsOfSamples(log: real -> real, a: Artifact, nFeatures: nat, samples: seq<Sample>, high: bool,
      offsets: seq<real>, y: real)
    requires ValidArtifact(a, nFeatures) && Shapely(samples, nFeatures)
    requires QuantilesOf(ResidualsOf(log, a, nFeatures, samples, high), offsets)
    ensures var part, all := |MissedBy(log, a, nFeatures, samples, high, y)|, |Used(samples)|;
      && (offsets[0] <= y <==> part as real >= 0.1 * all as real)
      && (offsets[1] <= y <==> 2 * part >= all)
      && (offsets[2] <= y <==> part as real >= 0.9 * all as real)
  {
    hide ResidualsOf, CountAtMost, MissedBy, Used;
    ResidualsCount(log, a, nFeatures, samples, high, y);
  }

  /** Below any number there is one that no smaller miss exceeds. */
  lemma {:induction false} LargestBelow(log: real -> real, a: Artifact, nFeatures: nat, samples: seq<Sample>,
      high: bool, x: real, n: nat) returns (y: real)
    requires ValidArtifact(a, nFeatures) && Shapely(samples, nFeatures) && n <= |samples|
    ensures y < x
    ensures forall k: nat :: k < n && k in Used(samples) && Miss(log, a, nFeatures, samples[k], high) < x ==>
      Miss(log, a, nFeatures, samples[k], high) <= y
  {
    hide Miss;
    if n == 0 {
      y := x - 1.0;
    } else {
      y := LargestBelow(log, a, nFeatures, samples, high, x, n - 1);
      if n - 1 in Used(samples) {
        var m := Miss(log, a, nFeatures, samples[n - 1], high);
        if y < m < x { y := m; }
      }
    }
  }

  function ActualOf(sample: Sample, high: bool): real
    requires sample.actual.Some?
  {
    if high then sample.actual.value.high else sample.actual.value.low
  }

  /** The middle price of the estimate that a forecast for the sample starts from, for the chosen target. */
  function PointOf(exp: real -> real, a: Artifact, nFeatures: nat, sample: Sample, high: bool, offset: real): real
    requires ValidArtifact(a, nFeatures) && |sample.values| == nFeatures
  {
    Times(sample.reference, exp((if high then HighLog(a, nFeatures, sample.values)
                                 else LowLog(a, nFeatures, sample.values)) + offset))
  }

  /** A sample that misses by at most the offset lies at or below the price, and one that misses by as much, above. */
  lemma MissAndPrice(exp: real -> real, log: real -> real, a: Artifact, nFeatures: nat, sample: Sample, high: bool,
      offset: real)
    requires Exponential(exp, log) && ValidArtifact(a, nFeatures) && |sample.values| == nFeatures
    requires sample.actual.Some? && sample.reference > 0.0 && ActualOf(sample, high) > 0.0
    ensures Miss(log, a, nFeatures, sample, high) <= offset ==>
      ActualOf(sample, high) <= PointOf(exp, a, nFeatures, sample, high, offset)
    ensures Miss(log, a, nFeatures, sample, high) >= offset ==>
      ActualOf(sample, high) >= PointOf(exp, a, nFeatures, sample, high, offset)
  {
    hide Times, PredictSum;
    var actual, d := ActualOf(sample, high), sample.reference;
    var raw := if high then HighLog(a, nFeatures, sample.values) else LowLog(a, nFeatures, sample.values);
    RatioPositive(actual, d);
    Restored(d, actual);
    var x := log(actual / d);
    assert exp(x) == actual / d;
    if x <= raw + offset { Scaled(d, exp(x), exp(raw + offset)); }
    if raw + offset <= x { Scaled(d, exp(raw + offset), exp(x)); }
  }

  /**
   * The point is a median: over the samples a model was calibrated on, at least half of the actual prices are at or
   * below the point that the middle offset gives for their sample, and more than half at or above it.
   */
  lemma PointIsMedian(exp: real -> real, log: real -> real, a: Artifact, nFeatures: nat, samples: seq<Sample>,
      high: bool, offsets: seq<real>)
    requires Exponential(exp, log) && ValidArtifact(a, nFeatures) && Shapely(samples, nFeatures) && Priced(samples)
    requires Used(samples) != {} && QuantilesOf(ResidualsOf(log, a, nFeatures, samples, high), offsets)
    ensures var below := set k: nat | k in Used(samples)
        && ActualOf(samples[k], high) <= PointOf(exp, a, nFeatures, samples[k], high, offsets[1]);
      2 * |below| >= |Used(samples)|
    ensures var above := set k: nat | k in Used(samples)
        && ActualOf(samples[k], high) >= PointOf(exp, a, nFeatures, samples[k], high, offsets[1]);
      2 * |above| > |Used(samples)|
  {
    var middle := offsets[1];
    hide Miss, ActualOf, PointOf, ResidualsOf, QuantilesOf, Exponential;
    forall k | k in Used(samples)
      ensures Miss(log, a, nFeatures, samples[k], high) <= middle ==>
        ActualOf(samples[k], high) <= PointOf(exp, a, nFeatures, samples[k], high, middle)
      ensures Miss(log, a, nFeatures, samples[k], high) >= middle ==>
        ActualOf(samples[k], high) >= PointOf(exp, a, nFeatures, samples[k], high, middle)
    {
      UsedIsPriced(samples, k, high);
      MissAndPrice(exp, log, a, nFeatures, samples[k], high, middle);
    }
    OffsetsOfSamples(log, a, nFeatures, samples, high, offsets, middle);
    var below := set k: nat | k in Used(samples)
      && ActualOf(samples[k], high) <= PointOf(exp, a, nFeatures, samples[k], high, middle);
    SizeOfPart(MissedBy(log, a, nFeatures, samples, high, middle), below);
    var y := LargestBelow(log, a, nFeatures, samples, high, middle, |samples|);
    OffsetsOfSamples(log, a, nFeatures, samples, high, offsets, y);
    var above := set k: nat | k in Used(samples)
      && ActualOf(samples[k], high) >= PointOf(exp, a, nFeatures, samples[k], high, middle);
    SizeOfPart(Used(samples) - MissedBy(log, a, nFeatures, samples, high, y), above);
  }

  lemma UsedIsPriced(samples: seq<Sample>, k: nat, high: bool)
    requires Priced(samples) && k in Used(samples)
    ensures ActualOf(samples[k], high) > 0.0
  {
  }

  lemma SizeOfPart(part: set<nat>, all: set<nat>)
    requires part <= all
    ensures |part| <= |all|
  {
    assert all == part + (all - part);
  }
}
