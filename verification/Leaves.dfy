/** What a trained tree fits: its leaves are the best constants, its splits the best pairs, and its round gains. */
module Leaves {
  import opened Money
  import opened Market
  import opened Bins
  import opened Trees
  import opened Splits
  import opened Boosting

  // ---------- the best constant ----------

  /** The squared distances of the residuals of some rows from a constant. */
  function Distance(residual: seq<real>, rows: seq<nat>, c: real): real
    requires forall k :: 0 <= k < |rows| ==> rows[k] < |residual|
  {
    if rows == [] then 0.0 else
      var x := residual[rows[|rows| - 1]] - c;
      Distance(residual, rows[..|rows| - 1], c) + Times(x, x)
  }

  /** What a leaf with this constant costs: the squared distances, and the penalty on the constant. */
  function Cost(residual: seq<real>, rows: seq<nat>, c: real, l2: real): real
    requires forall k :: 0 <= k < |rows| ==> rows[k] < |residual|
  {
    Distance(residual, rows, c) + Times(l2, Times(c, c))
  }

  lemma {:induction false} DistanceExpands(residual: seq<real>, rows: seq<nat>, c: real)
    requires forall k :: 0 <= k < |rows| ==> rows[k] < |residual|
    ensures Distance(residual, rows, c)
      == SumSquares(residual, rows) - Times(2.0 * c, Sum(residual, rows)) + Times(Times(c, c), |rows| as real)
  {
    hide Times;
    if rows == [] {
      NoRows(c);
    } else {
      var rest, row := rows[..|rows| - 1], rows[|rows| - 1];
      DistanceExpands(residual, rest, c);
      Shifted(residual[row], c, Sum(residual, rest), |rest|);
      assert |rows| == |rest| + 1;
    }
  }

  /** The parabola over the constants, from its lowest point. */
  lemma Parabola(sum: real, n: real, l2: real, v: real, c: real)
    requires Times(v, n + l2) == sum
    ensures Times(Times(c, c), n) - Times(2.0 * c, sum) + Times(l2, Times(c, c))
      == Times(n + l2, Times(c - v, c - v)) - Times(v, sum)
  {
    var m := n + l2;
    assert sum == v * m;
    assert c * c * n + l2 * (c * c) == m * (c * c);
    assert 2.0 * c * sum == m * (2.0 * (c * v));
    assert v * sum == m * (v * v);
    assert (c - v) * (c - v) == c * c - 2.0 * (c * v) + v * v;
    assert m * ((c - v) * (c - v)) == m * (c * c) - m * (2.0 * (c * v)) + m * (v * v);
  }

  /** A constant costs the more the farther it is from the shrunken mean. */
  lemma CostFrom(residual: seq<real>, rows: seq<nat>, v: real, c: real, l2: real)
    requires forall k :: 0 <= k < |rows| ==> rows[k] < |residual|
    requires Times(v, |rows| as real + l2) == Sum(residual, rows)
    ensures Cost(residual, rows, c, l2) == SumSquares(residual, rows) - Times(v, Sum(residual, rows))
      + Times(|rows| as real + l2, Times(c - v, c - v))
  {
    hide Times, Distance;
    DistanceExpands(residual, rows, c);
    Parabola(Sum(residual, rows), |rows| as real, l2, v, c);
  }

  lemma WeightedSquare(m: real, x: real)
    requires 0.0 <= m
    ensures 0.0 <= Times(m, Times(x, x)) && Times(m, Times(0.0, 0.0)) == 0.0
    ensures m > 0.0 && x != 0.0 ==> 0.0 < Times(m, Times(x, x))
  {
    hide Times;
    SquareSign(x);
    SquareSign(0.0);
    ProductSign(m, Times(x, x));
    ProductSign(m, 0.0);
  }

  lemma SquareSign(x: real)
    ensures 0.0 <= Times(x, x) && (x == 0.0 <==> Times(x, x) == 0.0)
  {
    hide Times;
    TimesSigns(x, x);
    if x > 0.0 {
      Positive(x, x);
    } else if x < 0.0 {
      Positive(-x, -x);
    }
  }

  lemma TimesSigns(x: real, y: real)
    ensures Times(-x, -y) == Times(x, y) && Times(x, 0.0) == 0.0
  {
  }

  lemma Positive(x: real, y: real)
    requires 0.0 < x && 0.0 < y
    ensures 0.0 < Times(x, y)
  {
  }

  lemma ProductSign(x: real, y: real)
    requires 0.0 <= x && 0.0 <= y
    ensures 0.0 <= Times(x, y) && (0.0 < x && 0.0 < y ==> 0.0 < Times(x, y)) && (y == 0.0 ==> Times(x, y) == 0.0)
  {
    hide Times;
    TimesSigns(x, 0.0);
    if x == 0.0 {
      TimesOfZero(y);
    } else if 0.0 < y {
      Positive(x, y);
    }
  }

  lemma TimesOfZero(y: real)
    ensures Times(0.0, y) == 0.0
  {
  }

  /** No other constant costs less than the shrunken mean, and none costs the same. */
  lemma ShrunkenMeanIsBest(residual: seq<real>, rows: seq<nat>, v: real, c: real, l2: real)
    requires forall k :: 0 <= k < |rows| ==> rows[k] < |residual|
    requires rows != [] && 0.0 <= l2 && Times(v, |rows| as real + l2) == Sum(residual, rows)
    ensures Cost(residual, rows, v, l2) <= Cost(residual, rows, c, l2)
    ensures c != v ==> Cost(residual, rows, v, l2) < Cost(residual, rows, c, l2)
  {
    hide Times, Cost;
    CostFrom(residual, rows, v, v, l2);
    CostFrom(residual, rows, v, c, l2);
    WeightedSquare(|rows| as real + l2, c - v);
    WeightedSquare(|rows| as real + l2, 0.0);
  }

  /** Each leaf of a grown tree holds the one constant that costs least on the rows that prediction sends to it. */
  lemma LeafIsBest(s: Sample, nodes: seq<Node>, hi: int, rows: seq<nat>, leaf: int, c: real)
    requires s.Valid() && s.Rows(rows) && Grown(s, nodes, 0, hi, rows, 0) && Shaped(nodes, s.nFeatures)
    requires 0 <= leaf < hi <= |nodes| && nodes[leaf].leaf
    ensures var r := Reaching(s, nodes, 0, rows, leaf);
      && r != []
      && Cost(s.residual, r, nodes[leaf].value, s.l2) <= Cost(s.residual, r, c, s.l2)
      && (c != nodes[leaf].value ==> Cost(s.residual, r, nodes[leaf].value, s.l2) < Cost(s.residual, r, c, s.l2))
  {
    hide Times, Cost, Grown, Reaching;
    LeavesMean(s, nodes, 0, hi, rows, 0, leaf);
    ShrunkenMeanIsBest(s.residual, Reaching(s, nodes, 0, rows, leaf), nodes[leaf].value, c, s.l2);
  }

  // ---------- the best split ----------

  /** The squares less the gain are what the two shrunken means cost, and no two constants cost less. */
  lemma GainExplains(d: Binned, rows: seq<nat>, f: nat, j: nat, missingLeft: bool, v: real, w: real, c: real, e: real)
    requires Lists(d, rows, f) && j < |d.thresholds[f]| && Feasible(d, rows, f, j, missingLeft)
    requires var left, right := LeftOf(d, rows, f, j, missingLeft), RightOf(d, rows, f, j, missingLeft);
      && Times(v, |left| as real + d.s.l2) == Sum(d.s.residual, left)
      && Times(w, |right| as real + d.s.l2) == Sum(d.s.residual, right)
    ensures var left, right := LeftOf(d, rows, f, j, missingLeft), RightOf(d, rows, f, j, missingLeft);
      var all := SumSquares(d.s.residual, rows);
      && Cost(d.s.residual, left, v, d.s.l2) + Cost(d.s.residual, right, w, d.s.l2)
        == all - Gain(d, rows, f, j, missingLeft)
      && all - Gain(d, rows, f, j, missingLeft)
        <= Cost(d.s.residual, left, c, d.s.l2) + Cost(d.s.residual, right, e, d.s.l2)
  {
    hide Times, Cost, Sum, SumSquares, LeftOf, RightOf, SplitScore;
    var left, right := LeftOf(d, rows, f, j, missingLeft), RightOf(d, rows, f, j, missingLeft);
    SidesSquares(d, rows, f, j, missingLeft);
    CostFrom(d.s.residual, left, v, v, d.s.l2);
    CostFrom(d.s.residual, right, w, w, d.s.l2);
    WeightedSquare(|left| as real + d.s.l2, 0.0);
    WeightedSquare(|right| as real + d.s.l2, 0.0);
    ShrunkenMeanIsBest(d.s.residual, left, v, c, d.s.l2);
    ShrunkenMeanIsBest(d.s.residual, right, w, e, d.s.l2);
    ScoreOf(Sum(d.s.residual, left), |left|, v, Sum(d.s.residual, right), |right|, w, d.s.l2);
  }

  lemma SidesSquares(d: Binned, rows: seq<nat>, f: nat, j: nat, missingLeft: bool)
    requires Lists(d, rows, f) && j < |d.thresholds[f]|
    ensures SumSquares(d.s.residual, rows) == SumSquares(d.s.residual, LeftOf(d, rows, f, j, missingLeft))
      + SumSquares(d.s.residual, RightOf(d, rows, f, j, missingLeft))
  {
    SidesAreRows(d.s, rows, d.Candidate(f, j, missingLeft));
    SquaresSplit(d.s, rows, d.Candidate(f, j, missingLeft));
  }

  /** The score is what the two shrunken means explain. */
  lemma ScoreOf(left: real, n: nat, v: real, right: real, m: nat, w: real, l2: real)
    requires n > 0 && m > 0 && 0.0 <= l2
    requires Times(v, n as real + l2) == left && Times(w, m as real + l2) == right
    ensures SplitScore(left, n as real, right, m as real, l2) == Times(v, left) + Times(w, right)
  {
    Explained(left, n as real + l2, v);
    Explained(right, m as real + l2, w);
  }

  lemma Explained(sum: real, n: real, v: real)
    requires n > 0.0 && Times(v, n) == sum
    ensures sum * sum / n == Times(v, sum)
  {
    var q := sum * sum / n;
    assert q * n == sum * sum;
    assert sum * sum == v * sum * n;
    Cancels(q, v * sum, n);
  }

  lemma Cancels(x: real, y: real, n: real)
    requires n > 0.0 && x * n == y * n
    ensures x == y
  {
    assert Times(x - y, n) == 0.0;
    if x < y {
      Positive(y - x, n);
    } else if y < x {
      Positive(x - y, n);
    }
  }

  /**
   * The split of an inner node of a trained tree, with the shrunken means of its two sides, costs at most the slack
   * more than any candidate split that leaves enough rows on either side, whatever two constants that one is given.
   */
  lemma SplitIsBest(d: Binned, nodes: seq<Node>, i: int, hi: int, rows: seq<nat>, depth: int, v: real, w: real, f: nat,
      j: nat, missingLeft: bool, c: real, e: real)
    requires d.Valid() && d.s.Rows(rows) && Grown(d.s, nodes, i, hi, rows, depth) && !nodes[i].leaf
    requires Greedy(d, nodes, i, hi, rows, depth)
    requires d.s.Rows(d.s.Left(rows, nodes[i])) && d.s.Rows(d.s.Right(rows, nodes[i]))
    requires Times(v, |d.s.Left(rows, nodes[i])| as real + d.s.l2) == Sum(d.s.residual, d.s.Left(rows, nodes[i]))
    requires Times(w, |d.s.Right(rows, nodes[i])| as real + d.s.l2) == Sum(d.s.residual, d.s.Right(rows, nodes[i]))
    requires f < d.s.nFeatures && j < |d.thresholds[f]|
    requires |LeftOf(d, rows, f, j, missingLeft)| >= d.s.minLeaf
    requires |RightOf(d, rows, f, j, missingLeft)| >= d.s.minLeaf
    ensures Cost(d.s.residual, d.s.Left(rows, nodes[i]), v, d.s.l2)
        + Cost(d.s.residual, d.s.Right(rows, nodes[i]), w, d.s.l2)
      <= Cost(d.s.residual, LeftOf(d, rows, f, j, missingLeft), c, d.s.l2)
        + Cost(d.s.residual, RightOf(d, rows, f, j, missingLeft), e, d.s.l2) + 0.000000000001
  {
    hide Times, Cost, Sum, BestSplit, Gain;
    var chosen: Choice :| Stores(d, nodes[i], chosen) && BestSplit(d, rows, Some(chosen));
    ChosenLeads(d, rows, chosen, f, j, missingLeft);
    SidesOfChosen(d, rows, nodes[i], chosen);
    GainExplains(d, rows, chosen.f, chosen.j, chosen.missingLeft, v, w, v, w);
    var left, right := LeftOf(d, rows, f, j, missingLeft), RightOf(d, rows, f, j, missingLeft);
    var best := ShrunkenMeanOf(d.s.residual, left, d.s.l2);
    var other := ShrunkenMeanOf(d.s.residual, right, d.s.l2);
    GainExplains(d, rows, f, j, missingLeft, best, other, c, e);
  }

  lemma ShrunkenMeanOf(residual: seq<real>, rows: seq<nat>, l2: real) returns (v: real)
    requires rows != [] && 0.0 <= l2 && forall k :: 0 <= k < |rows| ==> rows[k] < |residual|
    ensures Times(v, |rows| as real + l2) == Sum(residual, rows)
  {
    v := LeafValue(Sum(residual, rows), |rows| as real, l2);
    ShrunkenMean(Sum(residual, rows), |rows|, l2);
  }

  lemma ChosenLeads(d: Binned, rows: seq<nat>, c: Choice, f: nat, j: nat, missingLeft: bool)
    requires Lists(d, rows, f) && j < |d.thresholds[f]| && BestSplit(d, rows, Some(c))
    ensures Lists(d, rows, c.f) && c.j < |d.thresholds[c.f]| && Feasible(d, rows, c.f, c.j, c.missingLeft)
    ensures Feasible(d, rows, f, j, missingLeft) ==>
      Gain(d, rows, f, j, missingLeft) <= Gain(d, rows, c.f, c.j, c.missingLeft) + 0.000000000001
  {
    hide Gain, Feasible;
    var score :| Chosen(d, rows, Some(c), score) && forall g: nat, k: nat, m: bool ::
      Lists(d, rows, g) && k < |d.thresholds[g]| ==> Leads(d, rows, Some(c), score, g, k, m);
    assert Leads(d, rows, Some(c), score, f, j, missingLeft);
  }

  lemma SidesOfChosen(d: Binned, rows: seq<nat>, node: Node, c: Choice)
    requires Lists(d, rows, c.f) && c.j < |d.thresholds[c.f]| && Stores(d, node, c)
    ensures d.s.Left(rows, node) == LeftOf(d, rows, c.f, c.j, c.missingLeft)
    ensures d.s.Right(rows, node) == RightOf(d, rows, c.f, c.j, c.missingLeft)
  {
  }

  /** A leaf stands only at the depth limit, over too few rows, or where every candidate leaves too few on a side. */
  lemma LeafOnlyWhen(d: Binned, nodes: seq<Node>, i: int, hi: int, rows: seq<nat>, depth: int, f: nat, j: nat,
      missingLeft: bool)
    requires d.Valid() && d.s.Rows(rows) && Grown(d.s, nodes, i, hi, rows, depth) && nodes[i].leaf
    requires Greedy(d, nodes, i, hi, rows, depth)
    requires depth < d.s.maxDepth && |rows| >= 2 * d.s.minLeaf && f < d.s.nFeatures && j < |d.thresholds[f]|
    ensures |LeftOf(d, rows, f, j, missingLeft)| < d.s.minLeaf || |RightOf(d, rows, f, j, missingLeft)| < d.s.minLeaf
  {
    hide Gain, LeftOf, RightOf;
    var score :| Chosen(d, rows, None, score) && forall g: nat, k: nat, m: bool ::
      Lists(d, rows, g) && k < |d.thresholds[g]| ==> Leads(d, rows, None, score, g, k, m);
    assert Leads(d, rows, None, score, f, j, missingLeft);
  }

  /** The rows of either side of a split: values at or below the threshold go left, missing ones as the node says. */
  lemma {:induction false} SideHolds(features: seq<Row>, rows: seq<nat>, node: Node, left: bool, row: nat)
    requires Have(features, rows, node.feature) && row in rows
    ensures row < |features| && 0 <= node.feature < |features[row]|
    ensures row in Side(features, rows, node.feature, node.threshold, node.missingLeft, left)
      <==> (match features[row][node.feature]
            case None => node.missingLeft == left
            case Some(v) => v <= node.threshold <==> left)
  {
    var rest, last := rows[..|rows| - 1], rows[|rows| - 1];
    if row in rest {
      SideHolds(features, rest, node, left, row);
    } else if row in Side(features, rest, node.feature, node.threshold, node.missingLeft, left) {
      SideOnly(features, rest, node, left, row);
    }
  }

  lemma {:induction false} SideOnly(features: seq<Row>, rows: seq<nat>, node: Node, left: bool, row: nat)
    requires Have(features, rows, node.feature) && row < |features| && 0 <= node.feature < |features[row]|
    requires row in Side(features, rows, node.feature, node.threshold, node.missingLeft, left)
    ensures row in rows && GoesLeft(features[row][node.feature], node.threshold, node.missingLeft) == left
  {
    var rest, last := rows[..|rows| - 1], rows[|rows| - 1];
    if row in Side(features, rest, node.feature, node.threshold, node.missingLeft, left) {
      SideOnly(features, rest, node, left, row);
    }
  }

  // ---------- a round gains ----------

  /** A step towards a shrunken mean lowers the squares whenever the residuals do not cancel out. */
  lemma StepGains(sum: real, n: nat, l2: real, rate: real, v: real)
    requires n >= 1 && 0.0 <= l2 && 0.0 < rate <= 1.0 && Times(v, n as real + l2) == sum && sum != 0.0
    ensures var d := Times(rate, v);
      Times(Times(d, d), n as real) < Times(2.0 * d, sum)
  {
    hide Times;
    var m, q := n as real, Times(v, v);
    TimesSigns(n as real + l2, 0.0);
    if v == 0.0 { TimesOfZero(m + l2); }
    SquareSign(v);
    StepShares(rate, v, m, l2);
    Positive(q, m);
    Positive(rate, Times(q, m));
    ProductSign(q, l2);
    ProductSign(rate, Times(q, l2));
    ProductSign(1.0 - rate, Times(rate, Times(q, m)));
  }

  /** What the step costs and what it gains, in the same parts. */
  lemma StepShares(rate: real, v: real, m: real, l2: real)
    ensures var d, q := Times(rate, v), Times(v, v);
      var part, penalty := Times(rate, Times(q, m)), Times(rate, Times(q, l2));
      && Times(Times(d, d), m) == part - Times(1.0 - rate, part)
      && Times(2.0 * d, Times(v, m + l2)) == 2.0 * part + 2.0 * penalty
  {
    var q := v * v;
    assert rate * v * (rate * v) * m == rate * (rate * (q * m));
    assert v * (m + l2) * v == q * m + q * l2;
    assert rate * (q * (m + l2)) == rate * (q * m) + rate * (q * l2);
  }

  /** A round lowers the squared residuals whenever the residuals of the rows of some leaf do not cancel out. */
  lemma {:induction false} RoundGains(s: Sample, nodes: seq<Node>, i: int, hi: int, rows: seq<nat>, depth: int,
      rate: real, leaf: int)
    requires s.Valid() && s.Rows(rows) && Grown(s, nodes, i, hi, rows, depth) && Shaped(nodes, s.nFeatures)
    requires 0.0 < rate <= 1.0 && i <= leaf < hi && nodes[leaf].leaf
    requires Sum(s.residual, Reaching(s, nodes, i, rows, leaf)) != 0.0
    ensures SquaresAfter(s, nodes, i, rows, rate) < SumSquares(s.residual, rows)
    decreases hi - i
  {
    hide Times, SumSquares, SquaresAfter, Sum, Walk, Reaching, LeafValue, Side;
    var node := nodes[i];
    if node.leaf {
      ReachingAll(s, nodes, i, rows);
      AfterLeaf(s, nodes, i, rows, rate);
      ShrunkenMean(Sum(s.residual, rows), |rows|, s.l2);
      StepGains(Sum(s.residual, rows), |rows|, s.l2, rate, node.value);
    } else {
      SidesAreRows(s, rows, node);
      var left, right := s.Left(rows, node), s.Right(rows, node);
      SquaresSplit(s, rows, node);
      AfterSplit(s, nodes, i, rows, rate);
      RoundDescends(s, nodes, node.left, node.right, left, depth + 1, rate);
      RoundDescends(s, nodes, node.right, hi, right, depth + 1, rate);
      if leaf < node.right {
        ReachingLeft(s, nodes, i, rows, leaf);
        RoundGains(s, nodes, node.left, node.right, left, depth + 1, rate, leaf);
      } else {
        ReachingRight(s, nodes, i, rows, leaf, left, depth + 1);
        RoundGains(s, nodes, node.right, hi, right, depth + 1, rate, leaf);
      }
    }
  }

  // ---------- every round of a trained model ----------

  /** The rows, with what the first `k` trees leave of their labels. */
  ghost function Before(o: Options, labels: seq<real>, base: real, trees: seq<Tree>, features: seq<Row>,
      nFeatures: nat, k: nat): (s: Sample)
    requires |labels| == |features| && Rectangular(features, nFeatures) && Usable(trees, nFeatures)
    requires 1 <= o.minLeaf && 0.0 <= o.l2 && k <= |trees|
    ensures s.Valid() && s.Rows(RowNumbers(|features|))
  {
    Sample(features, Residuals(labels, base, o.learningRate, trees[..k], features, nFeatures), nFeatures, o.maxDepth,
      o.minLeaf, o.l2)
  }

  lemma {:induction false} PrefixBoosted(o: Options, labels: seq<real>, base: real, trees: seq<Tree>,
      features: seq<Row>, nFeatures: nat, thresholds: seq<seq<real>>, bins: seq<seq<nat>>, k: nat)
    requires |labels| == |features| && Rectangular(features, nFeatures) && 1 <= o.minLeaf && 2 <= o.bins
    requires Boosted(o, labels, base, trees, features, nFeatures, thresholds, bins) && k <= |trees|
    ensures Boosted(o, labels, base, trees[..k], features, nFeatures, thresholds, bins)
  {
    hide Greedy, Grown, RoundData;
    if k == |trees| {
      assert trees[..k] == trees;
    } else {
      PrefixBoosted(o, labels, base, trees[..|trees| - 1], features, nFeatures, thresholds, bins, k);
      assert trees[..|trees| - 1][..k] == trees[..k];
    }
  }

  /** Tree `k` of a trained model was grown on what the trees before it leave. */
  lemma TreeIsGrown(o: Options, labels: seq<real>, base: real, trees: seq<Tree>, features: seq<Row>, nFeatures: nat,
      k: nat)
    requires |labels| == |features| && Rectangular(features, nFeatures) && InRange(o) && k < |trees|
    requires Trained(o, features, nFeatures, labels, base, trees)
    ensures Usable(trees, nFeatures)
    ensures Grown(Before(o, labels, base, trees, features, nFeatures, k), trees[k], 0, |trees[k]|,
      RowNumbers(|features|), 0)
  {
    hide Greedy, Grown, BinsFit, InRange, Residuals, Mean;
    Ranges(o);
    var thresholds, bins :| Boosted(o, labels, base, trees, features, nFeatures, thresholds, bins);
    BoostedUsable(o, labels, base, trees, features, nFeatures, thresholds, bins);
    PrefixBoosted(o, labels, base, trees, features, nFeatures, thresholds, bins, k + 1);
    assert trees[..k + 1][..k] == trees[..k];
  }

  /** The squared training error of the first `k` trees. */
  ghost function ErrorAfter(o: Options, labels: seq<real>, base: real, trees: seq<Tree>, features: seq<Row>,
      nFeatures: nat, k: nat): real
    requires |labels| == |features| && Rectangular(features, nFeatures) && Usable(trees, nFeatures)
    requires 1 <= o.minLeaf && 0.0 <= o.l2 && k <= |trees|
  {
    SumSquares(Before(o, labels, base, trees, features, nFeatures, k).residual, RowNumbers(|features|))
  }

  /** The rows that a leaf of tree `k` is reached by. */
  ghost function RowsOf(o: Options, labels: seq<real>, base: real, trees: seq<Tree>, features: seq<Row>,
      nFeatures: nat, k: nat, leaf: int): (r: seq<nat>)
    requires |labels| == |features| && Rectangular(features, nFeatures) && Usable(trees, nFeatures)
    requires 1 <= o.minLeaf && 0.0 <= o.l2 && k < |trees|
    ensures forall j :: 0 <= j < |r| ==> r[j] < |features|
  {
    var s := Before(o, labels, base, trees, features, nFeatures, k);
    Reaching(s, trees[k], 0, RowNumbers(|features|), leaf)
  }

  /**
   * In every tree of a trained model, the value of each leaf, times the number of training rows that reach it plus the
   * penalty, is the sum of what the trees before leave of the labels of these rows.
   */
  lemma TrainedLeaves(o: Options, labels: seq<real>, base: real, trees: seq<Tree>, features: seq<Row>, nFeatures: nat,
      k: nat, leaf: int)
    requires |labels| == |features| && Rectangular(features, nFeatures) && InRange(o) && k < |trees|
    requires Trained(o, features, nFeatures, labels, base, trees)
    requires 0 <= leaf < |trees[k]| && trees[k][leaf].leaf
    ensures Usable(trees, nFeatures)
    ensures var r := RowsOf(o, labels, base, trees, features, nFeatures, k, leaf);
      && r != []
      && Times(trees[k][leaf].value, |r| as real + o.l2)
        == Sum(Before(o, labels, base, trees, features, nFeatures, k).residual, r)
  {
    hide Times, Grown, Sum, Trained, Reaching, Residuals;
    TreeIsGrown(o, labels, base, trees, features, nFeatures, k);
    var s := Before(o, labels, base, trees, features, nFeatures, k);
    LeavesMean(s, trees[k], 0, |trees[k]|, RowNumbers(|features|), 0, leaf);
  }

  /** No tree of a trained model raises the squared training error, and one that leaves something to gain lowers it. */
  lemma TrainedRounds(o: Options, labels: seq<real>, base: real, trees: seq<Tree>, features: seq<Row>, nFeatures: nat,
      k: nat, leaf: int)
    requires |labels| == |features| && Rectangular(features, nFeatures) && InRange(o) && k < |trees|
    requires Trained(o, features, nFeatures, labels, base, trees)
    requires 0 <= leaf < |trees[k]| && trees[k][leaf].leaf
    ensures Usable(trees, nFeatures)
    ensures var before := ErrorAfter(o, labels, base, trees, features, nFeatures, k);
      var after := ErrorAfter(o, labels, base, trees, features, nFeatures, k + 1);
      var rows := RowsOf(o, labels, base, trees, features, nFeatures, k, leaf);
      var sum := Sum(Before(o, labels, base, trees, features, nFeatures, k).residual, rows);
      after <= before && (sum != 0.0 ==> after < before)
  {
    hide Times, Grown, Sum, SumSquares, SquaresAfter, Trained, Reaching, Residuals;
    TreeIsGrown(o, labels, base, trees, features, nFeatures, k);
    var s := Before(o, labels, base, trees, features, nFeatures, k);
    assert trees[..k + 1] == trees[..k] + [trees[k]];
    NextSquares(o, labels, base, trees[..k], trees[k], features, nFeatures, s, RowNumbers(|features|));
    RoundDescends(s, trees[k], 0, |trees[k]|, RowNumbers(|features|), 0, o.learningRate);
    if Sum(s.residual, RowsOf(o, labels, base, trees, features, nFeatures, k, leaf)) != 0.0 {
      RoundGains(s, trees[k], 0, |trees[k]|, RowNumbers(|features|), 0, o.learningRate, leaf);
    }
  }

  /** A label is replaced by the nearest number within the limit. */
  lemma LabelsAreNear(values: seq<real>, limit: real, i: nat, y: real)
    requires i < |values| && 0.0 < limit && -limit <= y <= limit
    ensures var x := Labels(values, limit)[i];
      -limit <= x <= limit && Abs(values[i] - x) <= Abs(values[i] - y)
  {
  }

  /** Without a limit labels stay as they are. */
  lemma UnlimitedLabels(values: seq<real>, limit: real)
    requires limit <= 0.0
    ensures Labels(values, limit) == values
  {
  }

  /** What stands in for an option that is out of range: each of them alone. */
  lemma OptionDefaults(o: Options)
    ensures var r := Normalize(o);
      && (o.trees <= 0 ==> r.trees == 80) && (o.trees >= 1 ==> r.trees == o.trees)
      && (o.maxDepth <= 0 ==> r.maxDepth == 4) && (o.maxDepth > 10 ==> r.maxDepth == 10)
      && (o.minLeaf <= 0 ==> r.minLeaf == 1) && (o.minLeaf >= 1 ==> r.minLeaf == o.minLeaf)
      && (!(0.0 < o.learningRate <= 1.0) ==> r.learningRate == 0.05) && (o.l2 < 0.0 ==> r.l2 == 0.0)
      && (!(2 <= o.bins <= 64) ==> r.bins == 32) && (o.labelClip <= 0.0 ==> r.labelClip == 0.5)
      && (1 <= o.maxDepth <= 10 ==> r.maxDepth == o.maxDepth)
      && (0.0 < o.learningRate <= 1.0 ==> r.learningRate == o.learningRate) && (o.l2 >= 0.0 ==> r.l2 == o.l2)
      && (2 <= o.bins <= 64 ==> r.bins == o.bins) && (o.labelClip > 0.0 ==> r.labelClip == o.labelClip)
  {
  }
}
