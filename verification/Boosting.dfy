/** Boosting: trees fitted to the residuals that the earlier trees leave, for one target. */
module Boosting {
  import opened Money
  import opened Market
  import opened Bins
  import opened Trees
  import opened Splits
  import opened Trainer

  datatype Options = Options(trees: int, maxDepth: int, minLeaf: int, learningRate: real, l2: real, bins: int,
      labelClip: real)

  predicate InRange(o: Options) {
    1 <= o.trees && 1 <= o.maxDepth <= 10 && 1 <= o.minLeaf && 0.0 < o.learningRate <= 1.0 && 0.0 <= o.l2
      && 2 <= o.bins <= 64 && 0.0 < o.labelClip
  }

  /** Replaces every option that is out of range. */
  function Normalize(o: Options): (r: Options)
    ensures InRange(r)
    ensures InRange(o) ==> r == o
  {
    var depth := if o.maxDepth <= 0 then 4 else o.maxDepth;
    Options(
      if o.trees <= 0 then 80 else o.trees,
      if depth > 10 then 10 else depth,
      if o.minLeaf <= 0 then 1 else o.minLeaf,
      if o.learningRate <= 0.0 || o.learningRate > 1.0 then 0.05 else o.learningRate,
      if o.l2 < 0.0 then 0.0 else o.l2,
      if o.bins < 2 || o.bins > 64 then 32 else o.bins,
      if o.labelClip <= 0.0 then 0.5 else o.labelClip)
  }

  function Clip(value: real, limit: real): real {
    if limit <= 0.0 then value else Max(-limit, Min(limit, value))
  }

  // ---------- the model of one target ----------

  type Tree = seq<Node>

  ghost predicate Usable(trees: seq<Tree>, nFeatures: nat) {
    forall k :: 0 <= k < |trees| ==> |trees[k]| > 0 && Shaped(trees[k], nFeatures)
  }

  /** The raw prediction: the base, and the learning rate times each tree's leaf. */
  function PredictSum(base: real, rate: real, trees: seq<Tree>, nFeatures: nat, values: Row): real
    requires Usable(trees, nFeatures) && |values| == nFeatures
  {
    if trees == [] then base else
      PredictSum(base, rate, trees[..|trees| - 1], nFeatures, values)
        + Times(rate, Predict(trees[|trees| - 1], nFeatures, values))
  }

  ghost predicate Rectangular(features: seq<Row>, nFeatures: nat) {
    forall i :: 0 <= i < |features| ==> |features[i]| == nFeatures
  }

  /** What the model leaves of each label. */
  function Residuals(labels: seq<real>, base: real, rate: real, trees: seq<Tree>, features: seq<Row>,
      nFeatures: nat): (r: seq<real>)
    requires |labels| == |features| && Rectangular(features, nFeatures) && Usable(trees, nFeatures)
    ensures |r| == |labels|
  {
    seq(|labels|, i requires 0 <= i < |labels| => labels[i] - PredictSum(base, rate, trees, nFeatures, features[i]))
  }

  function Mean(values: seq<real>): real
    requires values != []
  {
    Total(values) / |values| as real
  }

  function Total(values: seq<real>): real {
    if values == [] then 0.0 else Total(values[..|values| - 1]) + values[|values| - 1]
  }

  /** The data that tree `k` was fitted to. */
  ghost function RoundData(o: Options, labels: seq<real>, base: real, trees: seq<Tree>, features: seq<Row>,
      nFeatures: nat, thresholds: seq<seq<real>>, bins: seq<seq<nat>>): Binned
    requires |labels| == |features| && Rectangular(features, nFeatures) && Usable(trees, nFeatures) && 1 <= o.minLeaf
      && 2 <= o.bins
  {
    Binned(Sample(features, Residuals(labels, base, o.learningRate, trees, features, nFeatures), nFeatures, o.maxDepth,
      o.minLeaf, o.l2), thresholds, bins, o.bins)
  }

  /** Every tree was grown greedily on the residuals that the trees before it leave. */
  ghost predicate Boosted(o: Options, labels: seq<real>, base: real, trees: seq<Tree>, features: seq<Row>,
      nFeatures: nat, thresholds: seq<seq<real>>, bins: seq<seq<nat>>)
    requires |labels| == |features| && Rectangular(features, nFeatures) && 1 <= o.minLeaf && 2 <= o.bins
  {
    && Usable(trees, nFeatures)
    && (trees != [] ==>
          var rest := trees[..|trees| - 1];
          var d := RoundData(o, labels, base, rest, features, nFeatures, thresholds, bins);
          && Boosted(o, labels, base, rest, features, nFeatures, thresholds, bins)
          && d.Valid() && d.s.Rows(RowNumbers(|features|))
          && Grown(d.s, trees[|trees| - 1], 0, |trees[|trees| - 1]|, RowNumbers(|features|), 0)
          && Greedy(d, trees[|trees| - 1], 0, |trees[|trees| - 1]|, RowNumbers(|features|), 0))
  }

  // ---------- what boosting keeps ----------

  /** The squared training error of the model. */
  function SquaredError(o: Options, labels: seq<real>, base: real, trees: seq<Tree>, features: seq<Row>,
      nFeatures: nat): real
    requires |labels| == |features| && Rectangular(features, nFeatures) && Usable(trees, nFeatures)
  {
    SumSquares(Residuals(labels, base, o.learningRate, trees, features, nFeatures), RowNumbers(|features|))
  }

  lemma {:induction false} NextSquares(o: Options, labels: seq<real>, base: real, trees: seq<Tree>, tree: Tree,
      features: seq<Row>, nFeatures: nat, s: Sample, rows: seq<nat>)
    requires |labels| == |features| && Rectangular(features, nFeatures) && Usable(trees, nFeatures)
      && Usable(trees + [tree], nFeatures)
    requires |tree| > 0 && Shaped(tree, nFeatures)
    requires s.Valid() && s.Rows(rows) && s.features == features && s.nFeatures == nFeatures
    requires s.residual == Residuals(labels, base, o.learningRate, trees, features, nFeatures)
    ensures SumSquares(Residuals(labels, base, o.learningRate, trees + [tree], features, nFeatures), rows)
         == SquaresAfter(s, tree, 0, rows, o.learningRate)
  {
    hide Times;
    if rows != [] {
      var rest, row := rows[..|rows| - 1], rows[|rows| - 1];
      NextSquares(o, labels, base, trees, tree, features, nFeatures, s, rest);
      assert (trees + [tree])[..|trees|] == trees;
    }
  }

  /** The last round never raised the squared training error, for any labels and any features. */
  lemma RoundNeverHurts(o: Options, labels: seq<real>, base: real, trees: seq<Tree>, features: seq<Row>, nFeatures: nat,
                        thresholds: seq<seq<real>>, bins: seq<seq<nat>>)
    requires |labels| == |features| && Rectangular(features, nFeatures) && 1 <= o.minLeaf && 2 <= o.bins
      && 0.0 < o.learningRate <= 1.0
    requires trees != [] && Boosted(o, labels, base, trees, features, nFeatures, thresholds, bins)
    ensures SquaredError(o, labels, base, trees, features, nFeatures)
         <= SquaredError(o, labels, base, trees[..|trees| - 1], features, nFeatures)
  {
    hide Times, Greedy, Grown, SquaresAfter, SumSquares, Residuals;
    var rest, tree := trees[..|trees| - 1], trees[|trees| - 1];
    assert trees == rest + [tree];
    var s := RoundData(o, labels, base, rest, features, nFeatures, thresholds, bins).s;
    NextSquares(o, labels, base, rest, tree, features, nFeatures, s, RowNumbers(|features|));
    RoundDescends(s, tree, 0, |tree|, RowNumbers(|features|), 0, o.learningRate);
  }

  /** The squared training error never rises over the rounds, so the model is never worse than its mean. */
  lemma {:induction false} BoostingNeverHurts(o: Options, labels: seq<real>, base: real, trees: seq<Tree>,
      features: seq<Row>, nFeatures: nat, thresholds: seq<seq<real>>, bins: seq<seq<nat>>, k: nat)
    requires |labels| == |features| && Rectangular(features, nFeatures) && 1 <= o.minLeaf && 2 <= o.bins
      && 0.0 < o.learningRate <= 1.0
    requires Boosted(o, labels, base, trees, features, nFeatures, thresholds, bins) && k <= |trees|
    ensures SquaredError(o, labels, base, trees, features, nFeatures)
      <= SquaredError(o, labels, base, trees[..k], features, nFeatures)
  {
    hide SquaredError, Greedy, Grown, RoundData;
    if k == |trees| {
      assert trees[..k] == trees;
    } else {
      RoundNeverHurts(o, labels, base, trees, features, nFeatures, thresholds, bins);
      BoostingNeverHurts(o, labels, base, trees[..|trees| - 1], features, nFeatures, thresholds, bins, k);
      assert trees[..|trees| - 1][..k] == trees[..k];
    }
  }

  /** Every tree of the model passes the checks on loading, whatever the data. */
  lemma {:induction false} BoostedIsValid(o: Options, labels: seq<real>, base: real, trees: seq<Tree>,
      features: seq<Row>, nFeatures: nat, thresholds: seq<seq<real>>, bins: seq<seq<nat>>)
    requires |labels| == |features| && Rectangular(features, nFeatures) && 1 <= o.minLeaf && 2 <= o.bins
      && o.maxDepth <= 10
    requires Boosted(o, labels, base, trees, features, nFeatures, thresholds, bins)
    ensures forall k :: 0 <= k < |trees| ==> ValidTree(trees[k], nFeatures)
  {
    hide Greedy, Grown, ValidTree;
    if trees != [] {
      var rest := trees[..|trees| - 1];
      BoostedIsValid(o, labels, base, rest, features, nFeatures, thresholds, bins);
      var d := RoundData(o, labels, base, rest, features, nFeatures, thresholds, bins);
      GrownIsValid(d.s, trees[|trees| - 1], RowNumbers(|features|));
    }
  }

  // ---------- the base ----------

  /** The squared distance of the labels from a constant. */
  function Around(labels: seq<real>, c: real): real {
    if labels == [] then 0.0 else
      var x := labels[|labels| - 1] - c;
      Around(labels[..|labels| - 1], c) + Times(x, x)
  }

  lemma TimesZero(x: real)
    ensures Times(x, 0.0) == 0.0
  {
  }

  lemma {:induction false} AroundShift(labels: seq<real>, m: real, c: real)
    ensures Around(labels, c) == Around(labels, m) + 2.0 * Times(m - c, Total(labels) - Times(m, |labels| as real))
      + Times(Times(m - c, m - c), |labels| as real)
  {
    hide Times;
    if labels == [] {
      TimesZero(m);
      TimesZero(m - c);
      TimesZero(Times(m - c, m - c));
    } else {
      var rest, x := labels[..|labels| - 1], labels[|labels| - 1];
      AroundShift(rest, m, c);
      ShiftOne(x, m, c, Total(rest), |rest|);
    }
  }

  lemma ShiftOne(x: real, m: real, c: real, total: real, n: nat)
    ensures Times(x - c, x - c) + 2.0 * Times(m - c, total - Times(m, n as real))
      + Times(Times(m - c, m - c), n as real)
         == Times(x - m, x - m) + 2.0 * Times(m - c, total + x - Times(m, (n + 1) as real))
           + Times(Times(m - c, m - c), (n + 1) as real)
  {
    assert (n + 1) as real == n as real + 1.0;
  }

  /** No constant is closer to the labels than their mean. */
  lemma MeanIsBest(labels: seq<real>, c: real)
    requires labels != []
    ensures Around(labels, Mean(labels)) <= Around(labels, c)
  {
    hide Times, Mean, Around;
    var m := Mean(labels);
    AroundShift(labels, m, c);
    MeanTimesCount(labels);
    ZeroDeviation(m - c, Total(labels) - Times(m, |labels| as real), |labels| as real);
  }

  lemma MeanTimesCount(labels: seq<real>)
    requires labels != []
    ensures Times(Mean(labels), |labels| as real) == Total(labels)
  {
    var n := |labels| as real;
    assert Total(labels) / n * n == Total(labels);
  }

  lemma ZeroDeviation(d: real, zero: real, n: real)
    requires zero == 0.0 && 0.0 <= n
    ensures Times(d, zero) == 0.0 && Times(Times(d, d), n) >= 0.0
  {
    Square(d);
    NonNegative(d * d, n);
  }

  lemma {:induction false} ErrorOfConstant(o: Options, labels: seq<real>, c: real, features: seq<Row>, nFeatures: nat,
      n: nat)
    requires |labels| == |features| && Rectangular(features, nFeatures) && n <= |labels|
    ensures SumSquares(Residuals(labels, c, o.learningRate, [], features, nFeatures), RowNumbers(n))
      == Around(labels[..n], c)
  {
    hide Times;
    if n > 0 {
      ErrorOfConstant(o, labels, c, features, nFeatures, n - 1);
      assert RowNumbers(n)[..n - 1] == RowNumbers(n - 1);
      assert labels[..n][..n - 1] == labels[..n - 1];
    }
  }

  /** The trained model's squared training error is at most that of any constant. */
  lemma BeatsEveryConstant(o: Options, labels: seq<real>, trees: seq<Tree>, features: seq<Row>, nFeatures: nat,
                           thresholds: seq<seq<real>>, bins: seq<seq<nat>>, c: real)
    requires |labels| == |features| && Rectangular(features, nFeatures) && 1 <= o.minLeaf && 2 <= o.bins
      && 0.0 < o.learningRate <= 1.0
    requires labels != [] && Boosted(o, labels, Mean(labels), trees, features, nFeatures, thresholds, bins)
    ensures SquaredError(o, labels, Mean(labels), trees, features, nFeatures) <= Around(labels, c)
  {
    hide Boosted, Around, Mean;
    BoostingNeverHurts(o, labels, Mean(labels), trees, features, nFeatures, thresholds, bins, 0);
    assert trees[..0] == [];
    ErrorOfConstant(o, labels, Mean(labels), features, nFeatures, |labels|);
    assert labels[..|labels|] == labels;
    MeanIsBest(labels, c);
  }

  // ---------- the loops ----------

  method PredictTree(tree: Tree, nFeatures: nat, values: Row) returns (value: real)
    requires |tree| > 0 && Shaped(tree, nFeatures) && |values| == nFeatures
    ensures value == Predict(tree, nFeatures, values)
  {
    var index := 0;
    while !tree[index].leaf
      invariant 0 <= index < |tree|
      invariant Walk(tree, nFeatures, index, values) == Walk(tree, nFeatures, 0, values)
      decreases |tree| - index
    {
      var node := tree[index];
      match values[node.feature]
      case None =>
        index := if node.missingLeft then node.left else node.right;
      case Some(v) =>
        index := if v <= node.threshold then node.left else node.right;
    }
    value := tree[index].value;
  }

  method PredictRaw(base: real, rate: real, trees: seq<Tree>, nFeatures: nat, values: Row) returns (sum: real)
    requires Usable(trees, nFeatures) && |values| == nFeatures
    ensures sum == PredictSum(base, rate, trees, nFeatures, values)
  {
    sum := base;
    for k := 0 to |trees|
      invariant sum == PredictSum(base, rate, trees[..k], nFeatures, values)
    {
      assert trees[..k + 1][..k] == trees[..k];
      var leaf := PredictTree(trees[k], nFeatures, values);
      sum := sum + Times(rate, leaf);
    }
    assert trees[..|trees|] == trees;
  }

  method MeanOf(values: seq<real>) returns (mean: real)
    requires values != []
    ensures mean == Mean(values)
  {
    var sum := 0.0;
    for i := 0 to |values|
      invariant sum == Total(values[..i])
    {
      assert values[..i + 1][..i] == values[..i];
      sum := sum + values[i];
    }
    assert values[..|values|] == values;
    mean := sum / |values| as real;
  }

  /** The values that a feature has over the first `n` rows. */
  function Column(features: seq<Row>, f: nat, n: nat): seq<real>
    requires n <= |features| && forall i :: 0 <= i < n ==> f < |features[i]|
  {
    if n == 0 then [] else
      var rest := Column(features, f, n - 1);
      match features[n - 1][f]
      case None => rest
      case Some(v) => rest + [v]
  }

  /** The thresholds of every feature are those of its values, and the bins those of its cells. */
  ghost predicate BinsFit(features: seq<Row>, nFeatures: nat, maxBins: nat, thresholds: seq<seq<real>>,
      bins: seq<seq<nat>>)
    requires maxBins >= 2
  {
    && |thresholds| == nFeatures && |bins| == |features|
    && (forall f :: 0 <= f < nFeatures ==> Increasing(thresholds[f]) && |thresholds[f]| <= maxBins - 1)
    && (forall row :: 0 <= row < |bins| ==> |bins[row]| == nFeatures == |features[row]|)
    && (forall f :: 0 <= f < nFeatures ==> thresholds[f] == Thresholds(Column(features, f, |features|), maxBins))
    && (forall row, f :: 0 <= row < |bins| && 0 <= f < nFeatures ==>
         bins[row][f] == CellBin(thresholds[f], features[row][f]))
  }

  lemma NoColumn(features: seq<Row>, f: nat)
    ensures Column(features, f, 0) == []
  {
  }

  lemma ColumnStep(features: seq<Row>, f: nat, n: nat)
    requires n < |features| && forall i :: 0 <= i <= n ==> f < |features[i]|
    ensures Column(features, f, n + 1)
      == Column(features, f, n) + (if features[n][f].Some? then [features[n][f].value] else [])
  {
  }

  method NewBinner(features: seq<Row>, nFeatures: nat, maxBins: nat)
      returns (thresholds: seq<seq<real>>, bins: seq<seq<nat>>)
    requires Rectangular(features, nFeatures) && 2 <= maxBins <= 64
    ensures BinsFit(features, nFeatures, maxBins, thresholds, bins)
  {
    hide Thresholds, BinOf, Column;
    thresholds, bins := [], seq(|features|, _ => []);
    for f := 0 to nFeatures
      invariant |thresholds| == f && |bins| == |features|
      invariant forall g :: 0 <= g < f ==> Increasing(thresholds[g]) && |thresholds[g]| <= maxBins - 1
      invariant forall g :: 0 <= g < f ==> thresholds[g] == Thresholds(Column(features, g, |features|), maxBins)
      invariant forall row :: 0 <= row < |bins| ==> |bins[row]| == f
      invariant forall row, g :: 0 <= row < |bins| && 0 <= g < f ==>
        bins[row][g] == CellBin(thresholds[g], features[row][g])
    {
      var values: seq<real> := [];
      NoColumn(features, f);
      for i := 0 to |features|
        invariant values == Column(features, f, i)
      {
        ColumnStep(features, f, i);
        if features[i][f].Some? {
          values := values + [features[i][f].value];
        }
      }
      var column := new real[|values|](i requires 0 <= i < |values| => values[i]);
      assert column[..] == values;
      var cuts := FeatureThresholds(column, maxBins);
      thresholds := thresholds + [cuts];
      ghost var before := bins;
      for i := 0 to |features|
        invariant |bins| == |features|
        invariant forall row :: 0 <= row < i ==> bins[row] == before[row] + [CellBin(cuts, features[row][f])]
        invariant forall row :: i <= row < |bins| ==> bins[row] == before[row]
      {
        var bin := match features[i][f] case None => MISSING_BIN case Some(v) => BinOf(cuts, v);
        bins := bins[i := bins[i] + [bin]];
      }
    }
  }

  /** Takes a step towards the tree off every residual, in place. */
  method TakeStep(residual: array<real>, tree: Tree, rate: real, features: seq<Row>, nFeatures: nat)
    requires residual.Length == |features| && Rectangular(features, nFeatures) && |tree| > 0 && Shaped(tree, nFeatures)
    modifies residual
    ensures forall i :: 0 <= i < |features| ==>
      residual[i] == old(residual[i]) - Times(rate, Predict(tree, nFeatures, features[i]))
  {
    hide Times, Predict;
    for i := 0 to |features|
      invariant forall j :: 0 <= j < i ==>
        residual[j] == old(residual[j]) - Times(rate, Predict(tree, nFeatures, features[j]))
      invariant forall j :: i <= j < |features| ==> residual[j] == old(residual[j])
    {
      var leaf := PredictTree(tree, nFeatures, features[i]);
      residual[i] := residual[i] - Times(rate, leaf);
    }
  }

  lemma RoundDataFits(o: Options, labels: seq<real>, base: real, trees: seq<Tree>, features: seq<Row>, nFeatures: nat,
                      thresholds: seq<seq<real>>, bins: seq<seq<nat>>)
    requires InRange(o) && |labels| == |features| && Rectangular(features, nFeatures) && Usable(trees, nFeatures)
    requires BinsFit(features, nFeatures, o.bins, thresholds, bins)
    ensures RoundData(o, labels, base, trees, features, nFeatures, thresholds, bins).Valid()
  {
    hide Residuals, Increasing, CellBin;
  }

  /** The trainer works on the residuals that the trees so far leave. */
  ghost predicate OnTrack(trainer: TreeTrainer, residual: array<real>, o: Options, labels: seq<real>, base: real,
      trees: seq<Tree>, features: seq<Row>, nFeatures: nat, thresholds: seq<seq<real>>, bins: seq<seq<nat>>)
    requires |labels| == |features| && Rectangular(features, nFeatures) && Usable(trees, nFeatures) && InRange(o)
    reads residual
  {
    && trainer.residual == residual && trainer.features == features && trainer.maxDepth == o.maxDepth
    && trainer.Valid()
    && trainer.Data() == RoundData(o, labels, base, trees, features, nFeatures, thresholds, bins)
  }

  /** One round: a tree on the current residuals, and a step towards it. */
  method Round(trainer: TreeTrainer, residual: array<real>, o: Options, labels: seq<real>, base: real, trees: seq<Tree>,
               features: seq<Row>, nFeatures: nat, ghost thresholds: seq<seq<real>>, ghost bins: seq<seq<nat>>)
                 returns (tree: Tree)
    requires InRange(o) && features != [] && |labels| == |features| && Rectangular(features, nFeatures)
    requires BinsFit(features, nFeatures, o.bins, thresholds, bins)
    requires Boosted(o, labels, base, trees, features, nFeatures, thresholds, bins)
    requires OnTrack(trainer, residual, o, labels, base, trees, features, nFeatures, thresholds, bins)
    modifies residual, trainer`nodes, trainer.histC, trainer.histS
    ensures Boosted(o, labels, base, trees + [tree], features, nFeatures, thresholds, bins)
    ensures OnTrack(trainer, residual, o, labels, base, trees + [tree], features, nFeatures, thresholds, bins)
  {
    hide Boosted, Greedy, Grown, Residuals, Rectangular, BinsFit, Times, Shaped, Usable, InRange;
    assert Usable(trees, nFeatures) by { BoostedUsable(o, labels, base, trees, features, nFeatures, thresholds, bins); }
    ghost var d := RoundData(o, labels, base, trees, features, nFeatures, thresholds, bins);
    Ranges(o);
    tree := trainer.Fit();
    BoostStep(o, labels, base, trees, tree, features, nFeatures, thresholds, bins);
    TakeStep(residual, tree, o.learningRate, features, nFeatures);
    NextResiduals(o, labels, base, trees, tree, features, nFeatures);
    assert residual[..] == Residuals(labels, base, o.learningRate, trees + [tree], features, nFeatures);
    RoundDataFits(o, labels, base, trees + [tree], features, nFeatures, thresholds, bins);
  }

  lemma Ranges(o: Options)
    requires InRange(o)
    ensures 1 <= o.maxDepth <= 10 && 1 <= o.minLeaf && 2 <= o.bins
  {
  }

  lemma BoostedUsable(o: Options, labels: seq<real>, base: real, trees: seq<Tree>, features: seq<Row>, nFeatures: nat,
                      thresholds: seq<seq<real>>, bins: seq<seq<nat>>)
    requires |labels| == |features| && Rectangular(features, nFeatures) && 1 <= o.minLeaf && 2 <= o.bins
    requires Boosted(o, labels, base, trees, features, nFeatures, thresholds, bins)
    ensures Usable(trees, nFeatures)
  {
  }

  method TrainTarget(o: Options, features: seq<Row>, nFeatures: nat, labels: seq<real>, thresholds: seq<seq<real>>,
      bins: seq<seq<nat>>)
    returns (base: real, trees: seq<Tree>)
    requires InRange(o) && features != [] && |labels| == |features| && Rectangular(features, nFeatures)
    requires BinsFit(features, nFeatures, o.bins, thresholds, bins)
    ensures base == Mean(labels) && |trees| == o.trees
    ensures Boosted(o, labels, base, trees, features, nFeatures, thresholds, bins)
  {
    base := MeanOf(labels);
    trees := [];
    var residual := new real[|labels|];
    for i := 0 to |labels|
      invariant forall j :: 0 <= j < i ==> residual[j] == labels[j] - base
    {
      residual[i] := labels[i] - base;
    }
    assert residual[..] == Residuals(labels, base, o.learningRate, trees, features, nFeatures);
    RoundDataFits(o, labels, base, trees, features, nFeatures, thresholds, bins);
    var trainer := new TreeTrainer(features, bins, thresholds, nFeatures, o.maxDepth, o.minLeaf, o.l2, o.bins,
      residual);
    hide Mean, Residuals, Rectangular, BinsFit, Boosted;
    for step := 0 to o.trees
      invariant |trees| == step && Usable(trees, nFeatures)
      invariant Boosted(o, labels, base, trees, features, nFeatures, thresholds, bins)
      invariant fresh(residual) && fresh(trainer.histC) && fresh(trainer.histS) && fresh(trainer)
      invariant OnTrack(trainer, residual, o, labels, base, trees, features, nFeatures, thresholds, bins)
    {
      hide OnTrack;
      var tree := Round(trainer, residual, o, labels, base, trees, features, nFeatures, thresholds, bins);
      trees := trees + [tree];
      BoostedUsable(o, labels, base, trees, features, nFeatures, thresholds, bins);
    }
  }

  lemma BoostStep(o: Options, labels: seq<real>, base: real, trees: seq<Tree>, tree: Tree, features: seq<Row>,
      nFeatures: nat, thresholds: seq<seq<real>>, bins: seq<seq<nat>>)
    requires |labels| == |features| && Rectangular(features, nFeatures) && 1 <= o.minLeaf && 2 <= o.bins
      && o.maxDepth <= 10
    requires Boosted(o, labels, base, trees, features, nFeatures, thresholds, bins)
    requires var d := RoundData(o, labels, base, trees, features, nFeatures, thresholds, bins);
             && d.Valid() && d.s.Rows(RowNumbers(|features|))
             && Grown(d.s, tree, 0, |tree|, RowNumbers(|features|), 0)
                  && Greedy(d, tree, 0, |tree|, RowNumbers(|features|), 0)
    ensures |tree| > 0 && Shaped(tree, nFeatures)
    ensures Boosted(o, labels, base, trees + [tree], features, nFeatures, thresholds, bins)
  {
    hide Greedy;
    assert (trees + [tree])[..|trees|] == trees;
    GrownIsValid(RoundData(o, labels, base, trees, features, nFeatures, thresholds, bins).s, tree,
      RowNumbers(|features|));
  }

  lemma NextResiduals(o: Options, labels: seq<real>, base: real, trees: seq<Tree>, tree: Tree, features: seq<Row>,
      nFeatures: nat)
    requires |labels| == |features| && Rectangular(features, nFeatures) && Usable(trees, nFeatures) && |tree| > 0
      && Shaped(tree, nFeatures)
    ensures Usable(trees + [tree], nFeatures)
    ensures forall i :: 0 <= i < |labels| ==>
              Residuals(labels, base, o.learningRate, trees + [tree], features, nFeatures)[i]
              == Residuals(labels, base, o.learningRate, trees, features, nFeatures)[i] - Times(o.learningRate,
                Predict(tree, nFeatures, features[i]))
  {
    hide Times, Predict;
    assert (trees + [tree])[..|trees|] == trees;
  }

  /** The trained part of an artifact: a base and trees for the high and for the low. */
  datatype Artifact = Artifact(o: Options, highBase: real, highTrees: seq<Tree>, lowBase: real, lowTrees: seq<Tree>)

  function Labels(values: seq<real>, limit: real): (r: seq<real>)
    ensures |r| == |values|
  {
    seq(|values|, i requires 0 <= i < |values| => Clip(values[i], limit))
  }

  /** A model for one target: its trees were boosted on the clipped labels over the binned features. */
  ghost predicate Trained(o: Options, features: seq<Row>, nFeatures: nat, labels: seq<real>, base: real,
      trees: seq<Tree>)
    requires |labels| == |features| && Rectangular(features, nFeatures) && 1 <= o.minLeaf && 2 <= o.bins
  {
    && |trees| == o.trees && labels != [] && base == Mean(labels)
    && exists thresholds, bins ::
      && BinsFit(features, nFeatures, o.bins, thresholds, bins)
      && Boosted(o, labels, base, trees, features, nFeatures, thresholds, bins)
  }

  method TrainPointModel(features: seq<Row>, nFeatures: nat, highs: seq<real>, lows: seq<real>, options: Options)
      returns (r: Option<Artifact>)
    requires Rectangular(features, nFeatures) && |highs| == |lows| == |features|
    ensures r.None? <==> features == []
    ensures r.Some? ==>
              var a, o := r.value, Normalize(options);
              && a.o == o
              && Trained(o, features, nFeatures, Labels(highs, o.labelClip), a.highBase, a.highTrees)
              && Trained(o, features, nFeatures, Labels(lows, o.labelClip), a.lowBase, a.lowTrees)
  {
    hide Boosted, BinsFit;
    if features == [] {
      return None;
    }
    var o := Normalize(options);
    var thresholds, bins := NewBinner(features, nFeatures, o.bins);
    var highBase, highTrees := TrainTarget(o, features, nFeatures, Labels(highs, o.labelClip), thresholds, bins);
    var lowBase, lowTrees := TrainTarget(o, features, nFeatures, Labels(lows, o.labelClip), thresholds, bins);
    return Some(Artifact(o, highBase, highTrees, lowBase, lowTrees));
  }
}
