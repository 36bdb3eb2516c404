/** The trainer: histograms and nodes updated in place over a residual array that the boosting loop shares. */
module Trainer {
  import opened Market
  import opened Bins
  import opened Trees
  import opened Splits

  class TreeTrainer {
    const features: seq<Row>
    const binned: seq<seq<nat>>
    const thresholds: seq<seq<real>>
    const nFeatures: nat
    const maxDepth: int
    const minLeaf: nat
    const l2: real
    const maxBins: nat
    /** Shared with the boosting loop, which updates it between the trees. */
    const residual: array<real>
    const histC: array2<int>
    const histS: array2<real>
    var nodes: seq<Node>

    ghost function Data(): Binned
      reads residual
    {
      Binned(Sample(features, residual[..], nFeatures, maxDepth, minLeaf, l2), thresholds, binned, maxBins)
    }

    ghost predicate Valid()
      reads residual
    {
      && Data().Valid()
      && histC.Length0 == histS.Length0 == nFeatures
      && histC.Length1 == histS.Length1 == maxBins + 2
    }

    constructor (features: seq<Row>, binned: seq<seq<nat>>, thresholds: seq<seq<real>>, nFeatures: nat, maxDepth: int,
        minLeaf: nat, l2: real, maxBins: nat, residual: array<real>)
      requires Binned(Sample(features, residual[..], nFeatures, maxDepth, minLeaf, l2), thresholds, binned,
        maxBins).Valid()
      ensures Valid() && this.residual == residual && fresh(histC) && fresh(histS)
      ensures Data() == Binned(Sample(features, residual[..], nFeatures, maxDepth, minLeaf, l2), thresholds, binned,
        maxBins)
    {
      this.features, this.binned, this.thresholds := features, binned, thresholds;
      this.nFeatures, this.maxDepth, this.minLeaf, this.l2, this.maxBins := nFeatures, maxDepth, minLeaf, l2, maxBins;
      this.residual := residual;
      histC, histS := new int[nFeatures, maxBins + 2], new real[nFeatures, maxBins + 2];
      nodes := [];
    }

    /** The histogram slots of the first `n` features hold the counts and sums of the rows. */
    ghost predicate Filled(rows: seq<nat>, n: nat)
      requires Valid() && Data().s.Rows(rows) && n <= nFeatures
      reads residual, histC, histS
    {
      forall f: nat, b: nat :: f < n && b < maxBins + 2 ==>
        histC[f, b] == BinCount(Data(), rows, f, b) && histS[f, b] == BinSum(Data(), rows, f, b)
    }

    method FillHistograms(rows: seq<nat>)
      requires Valid() && Data().s.Rows(rows)
      modifies histC, histS
      ensures Filled(rows, nFeatures)
    {
      for f := 0 to nFeatures
        invariant forall g, b :: 0 <= g < f && 0 <= b < maxBins + 2 ==> histC[g, b] == 0 && histS[g, b] == 0.0
      {
        for b := 0 to maxBins + 2
          invariant forall g, c :: 0 <= g < f && 0 <= c < maxBins + 2 ==> histC[g, c] == 0 && histS[g, c] == 0.0
          invariant forall c :: 0 <= c < b ==> histC[f, c] == 0 && histS[f, c] == 0.0
        {
          histC[f, b], histS[f, b] := 0, 0.0;
        }
      }
      assert rows[..0] == [];
      for k := 0 to |rows|
        invariant Data().s.Rows(rows[..k]) && Filled(rows[..k], nFeatures)
      {
        AddRow(rows[..k], rows[k]);
        assert rows[..k + 1] == rows[..k] + [rows[k]];
      }
      assert rows[..|rows|] == rows;
    }

    method AddRow(rows: seq<nat>, row: nat)
      requires Valid() && Data().s.Rows(rows) && row < |features| && Filled(rows, nFeatures)
      modifies histC, histS
      ensures Data().s.Rows(rows + [row]) && Filled(rows + [row], nFeatures)
    {
      ghost var d := Data();
      var value := residual[row];
      ghost var more := rows + [row];
      assert more[..|rows|] == rows;
      for f := 0 to nFeatures
        invariant forall g: nat, b: nat :: g < f && b < maxBins + 2 ==>
                    histC[g, b] == BinCount(d, more, g, b) && histS[g, b] == BinSum(d, more, g, b)
        invariant forall g: nat, b: nat :: f <= g < nFeatures && b < maxBins + 2 ==>
                    histC[g, b] == BinCount(d, rows, g, b) && histS[g, b] == BinSum(d, rows, g, b)
      {
        Listed(d, row, f);
        var bin := binned[row][f];
        if bin == MISSING_BIN {
          bin := maxBins + 1;
        }
        histC[f, bin], histS[f, bin] := histC[f, bin] + 1, histS[f, bin] + value;
      }
    }

    /** Replaces the best candidate when this one is feasible and gains more than the slack over it. */
    method Consider(rows: seq<nat>, c: Choice, leftSum: real, leftCount: int, rightSum: real, rightCount: int,
        start: Option<Choice>, startScore: real)
      returns (best: Option<Choice>, score: real)
      requires Valid() && Lists(Data(), rows, c.f) && c.j < |thresholds[c.f]|
      requires var left, right := LeftOf(Data(), rows, c.f, c.j, c.missingLeft),
        RightOf(Data(), rows, c.f, c.j, c.missingLeft);
               && leftCount == |left| && rightCount == |right|
               && leftSum == Sum(Data().s.residual, left) && rightSum == Sum(Data().s.residual, right)
      requires Chosen(Data(), rows, start, startScore)
      ensures Chosen(Data(), rows, best, score)
      ensures start.Some? ==> best.Some? && startScore <= score
      ensures Leads(Data(), rows, best, score, c.f, c.j, c.missingLeft)
    {
      hide SplitScore, Sum, LeftOf, RightOf;
      best, score := start, startScore;
      if leftCount >= minLeaf && rightCount >= minLeaf {
        var gain := SplitScore(leftSum, leftCount as real, rightSum, rightCount as real, l2);
        if best.None? || gain > score + GAIN_SLACK {
          best, score := Some(c), gain;
        }
      }
    }

    /** The first best candidate over all features and thresholds. */
    method FindSplit(rows: seq<nat>) returns (best: Option<Choice>)
      requires Valid() && Data().s.Rows(rows) && Filled(rows, nFeatures)
      ensures BestSplit(Data(), rows, best)
    {
      hide Gain, Feasible;
      ghost var d := Data();
      best := None;
      var score := 0.0;
      for f := 0 to nFeatures
        invariant Chosen(d, rows, best, score)
        invariant forall g: nat, j: nat, m: bool :: g < f && j < |thresholds[g]| ==>
          Leads(d, rows, best, score, g, j, m)
      {
        ghost var before, beforeScore := best, score;
        best, score := BestOfFeature(rows, f, best, score);
        forall g: nat, j: nat, m: bool | g < f && j < |thresholds[g]| ensures Leads(d, rows, best, score, g, j, m) {
          assert Leads(d, rows, before, beforeScore, g, j, m);
        }
      }
      assert forall f: nat, j: nat, m: bool :: Lists(d, rows, f) && j < |d.thresholds[f]| ==>
        Leads(d, rows, best, score, f, j, m);
    }

    method BestOfFeature(rows: seq<nat>, f: nat, start: Option<Choice>, startScore: real)
        returns (best: Option<Choice>, score: real)
      requires Valid() && Data().s.Rows(rows) && Filled(rows, nFeatures) && f < nFeatures
      requires Chosen(Data(), rows, start, startScore)
      ensures Chosen(Data(), rows, best, score)
      ensures start.Some? ==> best.Some? && startScore <= score
      ensures forall j: nat, m: bool :: j < |thresholds[f]| ==> Leads(Data(), rows, best, score, f, j, m)
    {
      hide SplitScore, Sum, LeftOf, RightOf, Gain, Feasible, BinCount, BinSum, CountUpTo, SumUpTo, Chosen;
      ghost var d := Data();
      best, score := start, startScore;
      var n := |thresholds[f]|;
      var valueCount, valueSum := 0, 0.0;
      UpToNone(d, rows, f);
      for b := 0 to n + 1
        invariant valueCount == CountUpTo(d, rows, f, b - 1) && valueSum == SumUpTo(d, rows, f, b - 1)
      {
        UpToStep(d, rows, f, b);
        valueCount, valueSum := valueCount + histC[f, b], valueSum + histS[f, b];
      }
      var missingCount, missingSum := histC[f, maxBins + 1], histS[f, maxBins + 1];
      var leftCount, leftSum := 0, 0.0;
      for j := 0 to n
        invariant leftCount == CountUpTo(d, rows, f, j - 1) && leftSum == SumUpTo(d, rows, f, j - 1)
        invariant Chosen(d, rows, best, score) && (start.Some? ==> best.Some? && startScore <= score)
        invariant forall i: nat, m: bool :: i < j ==> Leads(d, rows, best, score, f, i, m)
      {
        ghost var before, beforeScore := best, score;
        UpToStep(d, rows, f, j);
        leftCount, leftSum := leftCount + histC[f, j], leftSum + histS[f, j];
        var rightCount, rightSum := valueCount - leftCount, valueSum - leftSum;
        SideTotals(d, rows, f, j, true);
        SideTotals(d, rows, f, j, false);
        best, score := Consider(rows, Choice(f, j, true), leftSum + missingSum, leftCount + missingCount, rightSum,
          rightCount, best, score);
        ghost var middle, middleScore := best, score;
        best, score := Consider(rows, Choice(f, j, false), leftSum, leftCount, rightSum + missingSum,
          rightCount + missingCount, best, score);
        forall i: nat, m: bool | i < j + 1 ensures Leads(d, rows, best, score, f, i, m) {
          assert i < j ==> Leads(d, rows, before, beforeScore, f, i, m);
          assert i == j && m ==> Leads(d, rows, middle, middleScore, f, i, m);
        }
      }
    }
  
    method SumRows(rows: seq<nat>) returns (total: real)
      requires Valid() && Data().s.Rows(rows)
      ensures total == Sum(residual[..], rows)
    {
      total := 0.0;
      for k := 0 to |rows|
        invariant total == Sum(residual[..], rows[..k])
      {
        assert rows[..k + 1][..k] == rows[..k];
        total := total + residual[rows[k]];
      }
      assert rows[..|rows|] == rows;
    }

    /** Splits the rows by their bins; the sides are those of prediction by values. */
    method Partition(rows: seq<nat>, c: Choice) returns (left: seq<nat>, right: seq<nat>)
      requires Valid() && Lists(Data(), rows, c.f) && c.j < |thresholds[c.f]|
      ensures left == LeftOf(Data(), rows, c.f, c.j, c.missingLeft)
      ensures right == RightOf(Data(), rows, c.f, c.j, c.missingLeft)
    {
      ghost var d := Data();
      left, right := [], [];
      for k := 0 to |rows|
        invariant Lists(d, rows[..k], c.f)
        invariant left == LeftOf(d, rows[..k], c.f, c.j, c.missingLeft)
        invariant right == RightOf(d, rows[..k], c.f, c.j, c.missingLeft)
      {
        assert rows[..k + 1][..k] == rows[..k];
        Listed(d, rows[k], c.f);
        RoutingsAgree(thresholds[c.f], features[rows[k]][c.f], c.j, c.missingLeft);
        if BinGoesLeft(binned[rows[k]][c.f], c.j, c.missingLeft) {
          left := left + [rows[k]];
        } else {
          right := right + [rows[k]];
        }
      }
      assert rows[..|rows|] == rows;
    }

    /** The nodes from `index` on are a tree grown greedily on the rows. */
    ghost predicate Built(index: int, rows: seq<nat>, depth: int)
      requires Valid() && Data().s.Rows(rows)
      reads this, residual
    {
      Grown(Data().s, nodes, index, |nodes|, rows, depth) && Greedy(Data(), nodes, index, |nodes|, rows, depth)
    }

    method Build(rows: seq<nat>, depth: int) returns (index: int)
      requires Valid() && Data().s.Rows(rows) && rows != [] && depth <= maxDepth
      modifies this`nodes, histC, histS
      ensures Valid() && index == |old(nodes)| < |nodes| && old(nodes) <= nodes
      ensures Built(index, rows, depth)
      decreases maxDepth - depth
    {
      hide Greedy, Grown, BestSplit, Sum, LeftOf, RightOf, LeafValue, BinCount, BinSum;
      ghost var d := Data();
      index := |nodes|;
      ghost var before := nodes;
      nodes := nodes + [EMPTY_NODE];
      var totalSum := SumRows(rows);
      var best: Option<Choice> := None;
      if depth < maxDepth && |rows| >= 2 * minLeaf {
        FillHistograms(rows);
        best := FindSplit(rows);
      }
      if best.None? {
        nodes := nodes[index := LeafNode(LeafValue(totalSum, |rows| as real, l2))];
        GrownLeaf(d, nodes, index, rows, depth);
        return;
      }
      var c := best.value;
      ChosenOf(d, rows, c);
      var left, right := Partition(rows, c);
      var leftNode := Build(left, depth + 1);
      ghost var middle := nodes;
      var rightNode := Build(right, depth + 1);
      ghost var all := nodes;
      nodes := nodes[index := Node(c.f, thresholds[c.f][c.j], leftNode, rightNode, c.missingLeft, false, 0.0)];
      GreedyFrame(d, middle, nodes, leftNode, rightNode, left, depth + 1);
      GreedyFrame(d, all, nodes, rightNode, |nodes|, right, depth + 1);
      GrownSplit(d, nodes, index, rows, depth, c);
    }

    /** One tree on all rows. */
    method Fit() returns (tree: seq<Node>)
      requires Valid() && |features| > 0 && 0 <= maxDepth
      modifies this`nodes, histC, histS
      ensures Valid() && Data().s.Rows(RowNumbers(|features|))
      ensures Grown(Data().s, tree, 0, |tree|, RowNumbers(|features|), 0)
      ensures Greedy(Data(), tree, 0, |tree|, RowNumbers(|features|), 0)
    {
      nodes := [];
      var rows := RowNumbers(|features|);
      var root := Build(rows, 0);
      tree := nodes;
    }
  }

  /** What the search promises of its choice. */
  lemma ChosenOf(d: Binned, rows: seq<nat>, c: Choice)
    requires d.Valid() && d.s.Rows(rows) && BestSplit(d, rows, Some(c))
    ensures Lists(d, rows, c.f) && c.j < |d.thresholds[c.f]| && Feasible(d, rows, c.f, c.j, c.missingLeft)
  {
  }

  lemma GrownLeaf(d: Binned, nodes: seq<Node>, i: int, rows: seq<nat>, depth: int)
    requires d.Valid() && d.s.Rows(rows) && rows != [] && depth <= d.s.maxDepth && 0 <= i && |nodes| == i + 1
    requires nodes[i] == LeafNode(LeafValue(Sum(d.s.residual, rows), |rows| as real, d.s.l2))
    requires depth >= d.s.maxDepth || |rows| < 2 * d.s.minLeaf || BestSplit(d, rows, None)
    ensures Grown(d.s, nodes, i, |nodes|, rows, depth) && Greedy(d, nodes, i, |nodes|, rows, depth)
  {
    hide BestSplit;
  }

  lemma GrownSplit(d: Binned, nodes: seq<Node>, i: int, rows: seq<nat>, depth: int, c: Choice)
    requires d.Valid() && d.s.Rows(rows) && rows != [] && 0 <= i < |nodes| && |rows| >= 2 * d.s.minLeaf
    requires depth < d.s.maxDepth && BestSplit(d, rows, Some(c)) && Lists(d, rows, c.f) && c.j < |d.thresholds[c.f]|
    requires Feasible(d, rows, c.f, c.j, c.missingLeft)
    requires Stores(d, nodes[i], c) && !nodes[i].leaf && nodes[i].left == i + 1 && i + 1 < nodes[i].right < |nodes|
    requires var left, right := LeftOf(d, rows, c.f, c.j, c.missingLeft), RightOf(d, rows, c.f, c.j, c.missingLeft);
             && Grown(d.s, nodes, nodes[i].left, nodes[i].right, left, depth + 1)
                  && Greedy(d, nodes, nodes[i].left, nodes[i].right, left, depth + 1)
             && Grown(d.s, nodes, nodes[i].right, |nodes|, right, depth + 1)
                  && Greedy(d, nodes, nodes[i].right, |nodes|, right, depth + 1)
    ensures Grown(d.s, nodes, i, |nodes|, rows, depth) && Greedy(d, nodes, i, |nodes|, rows, depth)
  {
    hide BestSplit;
  }
}
