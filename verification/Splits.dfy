/** The split search: histograms over bins against the row sets a split really makes. */
module Splits {
  import opened Market
  import opened Bins
  import opened Trees

  /** The binned training data of one tree. */
  datatype Binned = Binned(s: Sample, thresholds: seq<seq<real>>, bins: seq<seq<nat>>, maxBins: nat)
  {
    ghost predicate Valid() {
      && s.Valid()
      && |thresholds| == s.nFeatures && |bins| == |s.features| && 2 <= maxBins <= 64
      && (forall f :: 0 <= f < s.nFeatures ==> Increasing(thresholds[f]) && |thresholds[f]| <= maxBins - 1)
      && (forall row :: 0 <= row < |bins| ==> |bins[row]| == s.nFeatures)
      && (forall row, f :: 0 <= row < |bins| && 0 <= f < s.nFeatures ==>
           bins[row][f] == CellBin(thresholds[f], s.features[row][f]))
    }

    /** The histogram slot of a row; missing values have the last one. */
    function Slot(row: nat, f: nat): nat
      requires row < |bins| && f < |bins[row]|
    {
      if bins[row][f] == MISSING_BIN then maxBins + 1 else bins[row][f]
    }

    /** A candidate split. */
    function Candidate(f: nat, j: nat, missingLeft: bool): Node
      requires f < |thresholds| && j < |thresholds[f]|
    {
      EMPTY_NODE.(feature := f, threshold := thresholds[f][j], missingLeft := missingLeft)
    }
  }

  /** Rows of the data, and one of its features. */
  ghost predicate Lists(d: Binned, rows: seq<nat>, f: nat) {
    d.Valid() && d.s.Rows(rows) && f < d.s.nFeatures
  }

  ghost predicate SlotFits(d: Binned, row: nat, f: nat) {
    && row < |d.bins| && row < |d.s.features| && row < |d.s.residual|
    && f < |d.bins[row]| && f < |d.s.features[row]| && f < |d.thresholds|
    && d.bins[row][f] == CellBin(d.thresholds[f], d.s.features[row][f])
    && (d.Slot(row, f) <= |d.thresholds[f]| < d.maxBins || d.Slot(row, f) == d.maxBins + 1)
  }

  lemma Listed(d: Binned, row: nat, f: nat)
    requires d.Valid() && row < |d.s.features| && f < d.s.nFeatures
    ensures SlotFits(d, row, f)
  {
    assert |d.bins[row]| == d.s.nFeatures;
  }

  function BinCount(d: Binned, rows: seq<nat>, f: nat, b: int): nat
    requires Lists(d, rows, f)
  {
    if rows == [] then 0 else
      Listed(d, rows[|rows| - 1], f);
      BinCount(d, rows[..|rows| - 1], f, b) + (if d.Slot(rows[|rows| - 1], f) == b then 1 else 0)
  }

  function BinSum(d: Binned, rows: seq<nat>, f: nat, b: int): real
    requires Lists(d, rows, f)
  {
    if rows == [] then 0.0 else
      Listed(d, rows[|rows| - 1], f);
      BinSum(d, rows[..|rows| - 1], f, b)
        + (if d.Slot(rows[|rows| - 1], f) == b then d.s.residual[rows[|rows| - 1]] else 0.0)
  }

  /** The rows in the slots up to `j`. */
  function CountUpTo(d: Binned, rows: seq<nat>, f: nat, j: int): nat
    requires Lists(d, rows, f)
  {
    if rows == [] then 0 else
      Listed(d, rows[|rows| - 1], f);
      CountUpTo(d, rows[..|rows| - 1], f, j) + (if d.Slot(rows[|rows| - 1], f) <= j then 1 else 0)
  }

  function SumUpTo(d: Binned, rows: seq<nat>, f: nat, j: int): real
    requires Lists(d, rows, f)
  {
    if rows == [] then 0.0 else
      Listed(d, rows[|rows| - 1], f);
      SumUpTo(d, rows[..|rows| - 1], f, j)
        + (if d.Slot(rows[|rows| - 1], f) <= j then d.s.residual[rows[|rows| - 1]] else 0.0)
  }

  lemma {:induction false} UpToStep(d: Binned, rows: seq<nat>, f: nat, j: int)
    requires Lists(d, rows, f)
    ensures CountUpTo(d, rows, f, j) == CountUpTo(d, rows, f, j - 1) + BinCount(d, rows, f, j)
    ensures SumUpTo(d, rows, f, j) == SumUpTo(d, rows, f, j - 1) + BinSum(d, rows, f, j)
  {
    if rows != [] {
      UpToStep(d, rows[..|rows| - 1], f, j);
    }
  }

  lemma {:induction false} UpToNone(d: Binned, rows: seq<nat>, f: nat)
    requires Lists(d, rows, f)
    ensures CountUpTo(d, rows, f, -1) == 0 && SumUpTo(d, rows, f, -1) == 0.0
  {
    if rows != [] {
      UpToNone(d, rows[..|rows| - 1], f);
    }
  }

  /** The row sets that a candidate makes at prediction time. */
  ghost function LeftOf(d: Binned, rows: seq<nat>, f: nat, j: nat, missingLeft: bool): (r: seq<nat>)
    requires Lists(d, rows, f) && j < |d.thresholds[f]|
    ensures d.s.Rows(r)
  {
    SidesAreRows(d.s, rows, d.Candidate(f, j, missingLeft));
    d.s.Left(rows, d.Candidate(f, j, missingLeft))
  }

  ghost function RightOf(d: Binned, rows: seq<nat>, f: nat, j: nat, missingLeft: bool): (r: seq<nat>)
    requires Lists(d, rows, f) && j < |d.thresholds[f]|
    ensures d.s.Rows(r)
  {
    SidesAreRows(d.s, rows, d.Candidate(f, j, missingLeft));
    d.s.Right(rows, d.Candidate(f, j, missingLeft))
  }

  /** The histogram gives the sizes and sums of both sides of every candidate. */
  lemma {:induction false} SideTotals(d: Binned, rows: seq<nat>, f: nat, j: nat, missingLeft: bool)
    requires Lists(d, rows, f) && j < |d.thresholds[f]|
    ensures var left, right := LeftOf(d, rows, f, j, missingLeft), RightOf(d, rows, f, j, missingLeft);
            var all, miss := |d.thresholds[f]|, d.maxBins + 1;
            && |left| == CountUpTo(d, rows, f, j) + (if missingLeft then BinCount(d, rows, f, miss) else 0)
            && |right| == CountUpTo(d, rows, f, all) - CountUpTo(d, rows, f, j)
                 + (if missingLeft then 0 else BinCount(d, rows, f, miss))
            && Sum(d.s.residual, left) == SumUpTo(d, rows, f, j)
                 + (if missingLeft then BinSum(d, rows, f, miss) else 0.0)
            && Sum(d.s.residual, right) == SumUpTo(d, rows, f, all) - SumUpTo(d, rows, f, j)
                 + (if missingLeft then 0.0 else BinSum(d, rows, f, miss))
  {
    if rows != [] {
      var rest, row := rows[..|rows| - 1], rows[|rows| - 1];
      SideTotals(d, rest, f, j, missingLeft);
      Listed(d, row, f);
      RoutingsAgree(d.thresholds[f], d.s.features[row][f], j, missingLeft);
      var l, r := LeftOf(d, rest, f, j, missingLeft), RightOf(d, rest, f, j, missingLeft);
      assert (l + [row])[..|l|] == l && (r + [row])[..|r|] == r;
    }
  }

  function SplitScore(leftSum: real, leftCount: real, rightSum: real, rightCount: real, l2: real): real
    requires 0.0 <= l2
  {
    (if leftCount > 0.0 then leftSum * leftSum / (leftCount + l2) else 0.0)
    + (if rightCount > 0.0 then rightSum * rightSum / (rightCount + l2) else 0.0)
  }

  /** Both sides of a candidate are large enough. */
  ghost predicate Feasible(d: Binned, rows: seq<nat>, f: nat, j: nat, missingLeft: bool)
    requires Lists(d, rows, f) && j < |d.thresholds[f]|
  {
    |LeftOf(d, rows, f, j, missingLeft)| >= d.s.minLeaf && |RightOf(d, rows, f, j, missingLeft)| >= d.s.minLeaf
  }

  /** How much a candidate explains. */
  ghost function Gain(d: Binned, rows: seq<nat>, f: nat, j: nat, missingLeft: bool): real
    requires Lists(d, rows, f) && j < |d.thresholds[f]|
  {
    var left, right := LeftOf(d, rows, f, j, missingLeft), RightOf(d, rows, f, j, missingLeft);
    SplitScore(Sum(d.s.residual, left), |left| as real, Sum(d.s.residual, right), |right| as real, d.s.l2)
  }

  const GAIN_SLACK := 0.000000000001

  datatype Choice = Choice(f: nat, j: nat, missingLeft: bool)

  /** The choice so far: feasible, and no examined feasible candidate gains more than the slack over it. */
  ghost predicate Leads(d: Binned, rows: seq<nat>, best: Option<Choice>, score: real, f: nat, j: nat, missingLeft: bool)
    requires Lists(d, rows, f) && j < |d.thresholds[f]|
  {
    Feasible(d, rows, f, j, missingLeft) ==> best.Some? && Gain(d, rows, f, j, missingLeft) <= score + GAIN_SLACK
  }

  ghost predicate Chosen(d: Binned, rows: seq<nat>, best: Option<Choice>, score: real) {
    best.Some? ==>
      var c := best.value;
      && Lists(d, rows, c.f) && c.j < |d.thresholds[c.f]|
      && Feasible(d, rows, c.f, c.j, c.missingLeft) && score == Gain(d, rows, c.f, c.j, c.missingLeft)
  }

  /**
    The result of the search: none when nothing is feasible, else a feasible candidate within the slack of the best.
  */
  ghost predicate BestSplit(d: Binned, rows: seq<nat>, best: Option<Choice>) {
    exists score ::
      && Chosen(d, rows, best, score)
      && (forall f: nat, j: nat, m: bool :: Lists(d, rows, f) && j < |d.thresholds[f]| ==>
           Leads(d, rows, best, score, f, j, m))
  }

  /** The inner node stores this candidate. */
  ghost predicate Stores(d: Binned, node: Node, c: Choice) {
    && c.f < |d.thresholds| && c.j < |d.thresholds[c.f]|
    && node.feature == c.f && node.threshold == d.thresholds[c.f][c.j] && node.missingLeft == c.missingLeft
  }

  /**
   * The trainer's own rule at every node of a grown tree: a leaf only at the depth limit, below twice the minimum, or
   * when no split is feasible; otherwise a split that gains as much as any feasible one, up to the slack.
   */
  ghost predicate Greedy(d: Binned, nodes: seq<Node>, i: int, hi: int, rows: seq<nat>, depth: int)
    requires d.Valid() && d.s.Rows(rows) && Grown(d.s, nodes, i, hi, rows, depth)
    decreases hi - i
  {
    var node := nodes[i];
    if node.leaf then
      depth >= d.s.maxDepth || |rows| < 2 * d.s.minLeaf || BestSplit(d, rows, None)
    else
      SidesAreRows(d.s, rows, node);
      && |rows| >= 2 * d.s.minLeaf
      && (exists c :: Stores(d, node, c) && BestSplit(d, rows, Some(c)))
      && Greedy(d, nodes, node.left, node.right, d.s.Left(rows, node), depth + 1)
      && Greedy(d, nodes, node.right, hi, d.s.Right(rows, node), depth + 1)
  }

  lemma {:induction false} GreedyFrame(d: Binned, nodes: seq<Node>, nodes': seq<Node>, i: int, hi: int, rows: seq<nat>,
      depth: int)
    requires d.Valid() && d.s.Rows(rows) && Grown(d.s, nodes, i, hi, rows, depth)
      && Greedy(d, nodes, i, hi, rows, depth)
    requires hi <= |nodes'| && forall k :: i <= k < hi ==> nodes[k] == nodes'[k]
    ensures Grown(d.s, nodes', i, hi, rows, depth) && Greedy(d, nodes', i, hi, rows, depth)
    decreases hi - i
  {
    hide BestSplit;
    GrownFrame(d.s, nodes, nodes', i, hi, rows, depth);
    var node := nodes[i];
    if !node.leaf {
      SidesAreRows(d.s, rows, node);
      GreedyFrame(d, nodes, nodes', node.left, node.right, d.s.Left(rows, node), depth + 1);
      GreedyFrame(d, nodes, nodes', node.right, hi, d.s.Right(rows, node), depth + 1);
    }
  }
}
