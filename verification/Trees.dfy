/** Regression trees as the trainer grows them: what their leaves mean, and what one round does to the residuals. */
module Trees {
  import opened Money
  import opened Bins

  /** A node as it is stored; a leaf has a value, an inner node a feature, a threshold and two later nodes. */
  datatype Node = Node(feature: int, threshold: real, left: int, right: int, missingLeft: bool, leaf: bool, value: real)

  const EMPTY_NODE := Node(0, 0.0, 0, 0, false, false, 0.0)

  function LeafNode(value: real): Node {
    EMPTY_NODE.(leaf := true, value := value)
  }

  /** The training rows of one tree: their features, their residuals, and the options. */
  datatype Sample = Sample(features: seq<Row>, residual: seq<real>, nFeatures: nat, maxDepth: int, minLeaf: nat,
      l2: real)
  {
    ghost predicate Valid() {
      && |residual| == |features|
      && (forall i :: 0 <= i < |features| ==> |features[i]| == nFeatures)
      && 1 <= minLeaf && 0.0 <= l2
    }

    ghost predicate Rows(rows: seq<nat>) {
      forall k :: 0 <= k < |rows| ==> rows[k] < |features|
    }

    function Left(rows: seq<nat>, node: Node): seq<nat>
      requires Have(features, rows, node.feature)
    {
      Side(features, rows, node.feature, node.threshold, node.missingLeft, true)
    }

    function Right(rows: seq<nat>, node: Node): seq<nat>
      requires Have(features, rows, node.feature)
    {
      Side(features, rows, node.feature, node.threshold, node.missingLeft, false)
    }
  }

  /** All rows, in order. */
  function RowNumbers(n: nat): (r: seq<nat>)
    ensures |r| == n && forall i :: 0 <= i < n ==> r[i] == i
  {
    seq(n, i requires 0 <= i < n => i)
  }

  function Sum(residual: seq<real>, rows: seq<nat>): real
    requires forall k :: 0 <= k < |rows| ==> rows[k] < |residual|
  {
    if rows == [] then 0.0 else Sum(residual, rows[..|rows| - 1]) + residual[rows[|rows| - 1]]
  }

  function LeafValue(sum: real, count: real, l2: real): real
    requires count != 0.0 ==> count + l2 != 0.0
  {
    if count == 0.0 then 0.0 else sum / (count + l2)
  }

  /** Every listed row exists and has the feature. */
  ghost predicate Have(features: seq<Row>, rows: seq<nat>, feature: int) {
    forall k :: 0 <= k < |rows| ==> rows[k] < |features| && 0 <= feature < |features[rows[k]]|
  }

  /** The rows a split sends to one side, in their order. */
  function Side(features: seq<Row>, rows: seq<nat>, feature: int, threshold: real, missingLeft: bool,
      left: bool): (r: seq<nat>)
    requires Have(features, rows, feature)
    ensures |r| <= |rows|
  {
    if rows == [] then [] else
      var row := rows[|rows| - 1];
      assert row < |features| && 0 <= feature < |features[row]|;
      var rest := Side(features, rows[..|rows| - 1], feature, threshold, missingLeft, left);
      if GoesLeft(features[row][feature], threshold, missingLeft) == left then rest + [row] else rest
  }

  lemma {:induction false} SideRows(s: Sample, rows: seq<nat>, feature: int, threshold: real, missingLeft: bool,
      left: bool)
    requires s.Valid() && s.Rows(rows) && 0 <= feature < s.nFeatures
    ensures s.Rows(Side(s.features, rows, feature, threshold, missingLeft, left))
  {
    if rows != [] {
      SideRows(s, rows[..|rows| - 1], feature, threshold, missingLeft, left);
    }
  }

  /** Indices of children point forward, so every walk ends. */
  ghost predicate Shaped(nodes: seq<Node>, nFeatures: nat) {
    forall i :: 0 <= i < |nodes| && !nodes[i].leaf ==>
      && 0 <= nodes[i].feature < nFeatures
      && i < nodes[i].left < |nodes| && i < nodes[i].right < |nodes|
  }

  /** The leaf that prediction reaches from node `i`. */
  function Walk(nodes: seq<Node>, nFeatures: nat, i: int, values: Row): (leaf: int)
    requires Shaped(nodes, nFeatures) && 0 <= i < |nodes| && |values| == nFeatures
    ensures i <= leaf < |nodes| && nodes[leaf].leaf
    decreases |nodes| - i
  {
    var node := nodes[i];
    if node.leaf then i
    else if GoesLeft(values[node.feature], node.threshold, node.missingLeft)
      then Walk(nodes, nFeatures, node.left, values)
    else Walk(nodes, nFeatures, node.right, values)
  }

  function Predict(nodes: seq<Node>, nFeatures: nat, values: Row): real
    requires Shaped(nodes, nFeatures) && |nodes| > 0 && |values| == nFeatures
  {
    nodes[Walk(nodes, nFeatures, 0, values)].value
  }

  /**
   * The nodes from `i` up to `hi` are a tree grown on `rows`: each leaf carries the shrunken mean of the rows that the
   * splits above it send there at prediction time, each split leaves at least `minLeaf` rows on either side, and no
   * path is longer than the depth left.
   */
  ghost predicate Grown(s: Sample, nodes: seq<Node>, i: int, hi: int, rows: seq<nat>, depth: int)
    requires s.Valid() && s.Rows(rows)
    decreases hi - i
  {
    0 <= i < hi <= |nodes| && rows != [] && depth <= s.maxDepth &&
    var node := nodes[i];
    if node.leaf then
      hi == i + 1 && node.value == LeafValue(Sum(s.residual, rows), |rows| as real, s.l2)
    else
      && depth < s.maxDepth
      && 0 <= node.feature < s.nFeatures
      && node.left == i + 1 && i + 1 < node.right < hi
      && var left := s.Left(rows, node);
         var right := s.Right(rows, node);
         SidesAreRows(s, rows, node);
         && |left| >= s.minLeaf && |right| >= s.minLeaf
         && Grown(s, nodes, node.left, node.right, left, depth + 1)
         && Grown(s, nodes, node.right, hi, right, depth + 1)
  }

  lemma SidesAreRows(s: Sample, rows: seq<nat>, node: Node)
    requires s.Valid() && s.Rows(rows) && 0 <= node.feature < s.nFeatures
    ensures s.Rows(s.Left(rows, node))
    ensures s.Rows(s.Right(rows, node))
  {
    SideRows(s, rows, node.feature, node.threshold, node.missingLeft, true);
    SideRows(s, rows, node.feature, node.threshold, node.missingLeft, false);
  }

  /** Nodes outside a tree do not matter to it. */
  lemma {:induction false} GrownFrame(s: Sample, nodes: seq<Node>, nodes': seq<Node>, i: int, hi: int, rows: seq<nat>,
      depth: int)
    requires s.Valid() && s.Rows(rows) && Grown(s, nodes, i, hi, rows, depth)
    requires hi <= |nodes'| && forall k :: i <= k < hi ==> nodes[k] == nodes'[k]
    ensures Grown(s, nodes', i, hi, rows, depth)
    decreases hi - i
  {
    var node := nodes[i];
    if !node.leaf {
      SidesAreRows(s, rows, node);
      GrownFrame(s, nodes, nodes', node.left, node.right, s.Left(rows, node), depth + 1);
      GrownFrame(s, nodes, nodes', node.right, hi, s.Right(rows, node), depth + 1);
    }
  }

  // ---------- shape ----------

  ghost predicate ShapedAt(nodes: seq<Node>, nFeatures: nat, i: int)
    requires 0 <= i < |nodes|
  {
    !nodes[i].leaf ==>
      && 0 <= nodes[i].feature < nFeatures
      && i < nodes[i].left < |nodes| && i < nodes[i].right < |nodes|
  }

  lemma {:induction false} GrownShape(s: Sample, nodes: seq<Node>, i: int, hi: int, rows: seq<nat>, depth: int)
    requires s.Valid() && s.Rows(rows) && Grown(s, nodes, i, hi, rows, depth)
    ensures forall k :: i <= k < hi ==> ShapedAt(nodes, s.nFeatures, k)
    decreases hi - i
  {
    var node := nodes[i];
    if !node.leaf {
      SidesAreRows(s, rows, node);
      GrownShape(s, nodes, node.left, node.right, s.Left(rows, node), depth + 1);
      GrownShape(s, nodes, node.right, hi, s.Right(rows, node), depth + 1);
    }
  }

  function Pow2(k: nat): nat {
    if k == 0 then 1 else 2 * Pow2(k - 1)
  }

  lemma {:induction false} Pow2Monotone(j: nat, k: nat)
    requires j <= k
    ensures Pow2(j) <= Pow2(k)
  {
    if j < k {
      Pow2Monotone(j, k - 1);
    }
  }

  /** A tree with `d` levels below its root has fewer than 2^(d+1) nodes. */
  lemma {:induction false} GrownSize(s: Sample, nodes: seq<Node>, i: int, hi: int, rows: seq<nat>, depth: int)
    requires s.Valid() && s.Rows(rows) && Grown(s, nodes, i, hi, rows, depth)
    ensures hi - i < Pow2(s.maxDepth - depth + 1)
    decreases hi - i
  {
    var node := nodes[i];
    if node.leaf {
      Pow2Monotone(1, s.maxDepth - depth + 1);
    } else {
      SidesAreRows(s, rows, node);
      GrownSize(s, nodes, node.left, node.right, s.Left(rows, node), depth + 1);
      GrownSize(s, nodes, node.right, hi, s.Right(rows, node), depth + 1);
    }
  }

  /** What loading an artifact checks of a tree: only a self-loop is excluded, not a longer cycle. */
  predicate ValidTree(nodes: seq<Node>, nFeatures: nat) {
    && 0 < |nodes| <= 4096
    && forall i :: 0 <= i < |nodes| && !nodes[i].leaf ==>
         && 0 <= nodes[i].feature < nFeatures
         && 0 <= nodes[i].left < |nodes| && 0 <= nodes[i].right < |nodes|
         && nodes[i].left != i && nodes[i].right != i
  }

  /** A whole grown tree is accepted on loading, and prediction on it ends. */
  lemma GrownIsValid(s: Sample, nodes: seq<Node>, rows: seq<nat>)
    requires s.Valid() && s.Rows(rows) && Grown(s, nodes, 0, |nodes|, rows, 0) && s.maxDepth <= 10
    ensures Shaped(nodes, s.nFeatures) && ValidTree(nodes, s.nFeatures)
  {
    GrownShape(s, nodes, 0, |nodes|, rows, 0);
    GrownSize(s, nodes, 0, |nodes|, rows, 0);
    Pow2Monotone(s.maxDepth + 1, 11);
    assert Pow2(11) == 2048;
    forall i | 0 <= i < |nodes| && !nodes[i].leaf
      ensures 0 <= nodes[i].feature < s.nFeatures && i < nodes[i].left < |nodes| && i < nodes[i].right < |nodes|
    {
      assert ShapedAt(nodes, s.nFeatures, i);
    }
  }

  // ---------- training rows reach the leaf they built ----------

  lemma {:induction false} WalkWithin(s: Sample, nodes: seq<Node>, i: int, hi: int, rows: seq<nat>, depth: int,
      values: Row)
    requires s.Valid() && s.Rows(rows) && Grown(s, nodes, i, hi, rows, depth)
    requires Shaped(nodes, s.nFeatures) && |values| == s.nFeatures
    ensures Walk(nodes, s.nFeatures, i, values) < hi
    decreases hi - i
  {
    var node := nodes[i];
    if !node.leaf {
      SidesAreRows(s, rows, node);
      WalkWithin(s, nodes, node.left, node.right, s.Left(rows, node), depth + 1, values);
      WalkWithin(s, nodes, node.right, hi, s.Right(rows, node), depth + 1, values);
    }
  }

  /** The rows that prediction walks from node `i` to the given leaf. */
  function Reaching(s: Sample, nodes: seq<Node>, i: int, rows: seq<nat>, leaf: int): (r: seq<nat>)
    requires s.Valid() && s.Rows(rows) && Shaped(nodes, s.nFeatures) && 0 <= i < |nodes|
    ensures s.Rows(r)
  {
    if rows == [] then [] else
      var row := rows[|rows| - 1];
      var rest := Reaching(s, nodes, i, rows[..|rows| - 1], leaf);
      if Walk(nodes, s.nFeatures, i, s.features[row]) == leaf then rest + [row] else rest
  }

  lemma {:induction false} ReachingLeft(s: Sample, nodes: seq<Node>, i: int, rows: seq<nat>, leaf: int)
    requires s.Valid() && s.Rows(rows) && Shaped(nodes, s.nFeatures) && 0 <= i < |nodes| && !nodes[i].leaf
    requires leaf < nodes[i].right && s.Rows(s.Left(rows, nodes[i]))
    ensures Reaching(s, nodes, i, rows, leaf) == Reaching(s, nodes, nodes[i].left, s.Left(rows, nodes[i]), leaf)
  {
    if rows != [] {
      var rest, row := rows[..|rows| - 1], rows[|rows| - 1];
      SidesAreRows(s, rest, nodes[i]);
      ReachingLeft(s, nodes, i, rest, leaf);
      var left := s.Left(rest, nodes[i]);
      assert (left + [row])[..|left|] == left;
    }
  }

  lemma {:induction false} ReachingRight(s: Sample, nodes: seq<Node>, i: int, rows: seq<nat>, leaf: int,
      built: seq<nat>, depth: int)
    requires s.Valid() && s.Rows(rows) && Shaped(nodes, s.nFeatures) && 0 <= i < |nodes| && !nodes[i].leaf
    requires s.Rows(built) && Grown(s, nodes, nodes[i].left, nodes[i].right, built, depth)
    requires nodes[i].right <= leaf && s.Rows(s.Right(rows, nodes[i]))
    ensures Reaching(s, nodes, i, rows, leaf) == Reaching(s, nodes, nodes[i].right, s.Right(rows, nodes[i]), leaf)
  {
    if rows != [] {
      var rest, row := rows[..|rows| - 1], rows[|rows| - 1];
      SidesAreRows(s, rest, nodes[i]);
      ReachingRight(s, nodes, i, rest, leaf, built, depth);
      WalkWithin(s, nodes, nodes[i].left, nodes[i].right, built, depth, s.features[row]);
      var right := s.Right(rest, nodes[i]);
      assert (right + [row])[..|right|] == right;
    }
  }

  lemma {:induction false} ReachingAll(s: Sample, nodes: seq<Node>, i: int, rows: seq<nat>)
    requires s.Valid() && s.Rows(rows) && Shaped(nodes, s.nFeatures) && 0 <= i < |nodes| && nodes[i].leaf
    ensures Reaching(s, nodes, i, rows, i) == rows
  {
    if rows != [] {
      ReachingAll(s, nodes, i, rows[..|rows| - 1]);
    }
  }

  lemma ShrunkenMean(sum: real, n: nat, l2: real)
    requires n >= 1 && 0.0 <= l2
    ensures Times(LeafValue(sum, n as real, l2), n as real + l2) == sum
  {
    var count := n as real + l2;
    assert sum / count * count == sum;
  }

  /**
   * Every leaf carries the shrunken mean of exactly the training rows that prediction sends to it: its value times
   * their number plus the penalty is the sum of their residuals. Every leaf but a lone root is reached by at least
   * `minLeaf` rows.
   */
  lemma {:induction false} LeavesMean(s: Sample, nodes: seq<Node>, i: int, hi: int, rows: seq<nat>, depth: int,
      leaf: int)
    requires s.Valid() && s.Rows(rows) && Grown(s, nodes, i, hi, rows, depth) && Shaped(nodes, s.nFeatures)
    requires i <= leaf < hi && nodes[leaf].leaf
    ensures var r := Reaching(s, nodes, i, rows, leaf);
            && Times(nodes[leaf].value, |r| as real + s.l2) == Sum(s.residual, r)
            && |r| >= (if leaf == i then 1 else s.minLeaf)
    decreases hi - i
  {
    hide Times, LeafValue, Sum, Walk, Reaching, Side;
    var node := nodes[i];
    if node.leaf {
      ReachingAll(s, nodes, i, rows);
      ShrunkenMean(Sum(s.residual, rows), |rows|, s.l2);
    } else {
      SidesAreRows(s, rows, node);
      if leaf < node.right {
        ReachingLeft(s, nodes, i, rows, leaf);
        LeavesMean(s, nodes, node.left, node.right, s.Left(rows, node), depth + 1, leaf);
        if leaf == node.left { ReachingAll(s, nodes, leaf, s.Left(rows, node)); }
      } else {
        ReachingRight(s, nodes, i, rows, leaf, s.Left(rows, node), depth + 1);
        LeavesMean(s, nodes, node.right, hi, s.Right(rows, node), depth + 1, leaf);
        if leaf == node.right { ReachingAll(s, nodes, leaf, s.Right(rows, node)); }
      }
    }
  }

  // ---------- one boosting round ----------

  function SumSquares(residual: seq<real>, rows: seq<nat>): real
    requires forall k :: 0 <= k < |rows| ==> rows[k] < |residual|
  {
    if rows == [] then 0.0 else
      SumSquares(residual, rows[..|rows| - 1]) + Times(residual[rows[|rows| - 1]], residual[rows[|rows| - 1]])
  }

  /** The squared residuals that a step of `rate` towards the tree at node `i` leaves. */
  function SquaresAfter(s: Sample, nodes: seq<Node>, i: int, rows: seq<nat>, rate: real): real
    requires s.Valid() && s.Rows(rows) && Shaped(nodes, s.nFeatures) && 0 <= i < |nodes|
  {
    if rows == [] then 0.0 else
      var row := rows[|rows| - 1];
      var left := s.residual[row] - Times(rate, nodes[Walk(nodes, s.nFeatures, i, s.features[row])].value);
      SquaresAfter(s, nodes, i, rows[..|rows| - 1], rate) + Times(left, left)
  }

  lemma {:induction false} SquaresSplit(s: Sample, rows: seq<nat>, node: Node)
    requires s.Valid() && s.Rows(rows) && 0 <= node.feature < s.nFeatures
    requires s.Rows(s.Left(rows, node)) && s.Rows(s.Right(rows, node))
    ensures SumSquares(s.residual, rows)
      == SumSquares(s.residual, s.Left(rows, node)) + SumSquares(s.residual, s.Right(rows, node))
  {
    hide Times;
    if rows != [] {
      var rest, row := rows[..|rows| - 1], rows[|rows| - 1];
      SidesAreRows(s, rest, node);
      SquaresSplit(s, rest, node);
      var l, r := s.Left(rest, node), s.Right(rest, node);
      assert (l + [row])[..|l|] == l && (r + [row])[..|r|] == r;
    }
  }

  lemma {:induction false} AfterSplit(s: Sample, nodes: seq<Node>, i: int, rows: seq<nat>, rate: real)
    requires s.Valid() && s.Rows(rows) && Shaped(nodes, s.nFeatures) && 0 <= i < |nodes| && !nodes[i].leaf
    requires s.Rows(s.Left(rows, nodes[i])) && s.Rows(s.Right(rows, nodes[i]))
    ensures SquaresAfter(s, nodes, i, rows, rate)
         == SquaresAfter(s, nodes, nodes[i].left, s.Left(rows, nodes[i]), rate)
          + SquaresAfter(s, nodes, nodes[i].right, s.Right(rows, nodes[i]), rate)
  {
    hide Times;
    if rows != [] {
      var rest, row := rows[..|rows| - 1], rows[|rows| - 1];
      SidesAreRows(s, rest, nodes[i]);
      AfterSplit(s, nodes, i, rest, rate);
      var l, r := s.Left(rest, nodes[i]), s.Right(rest, nodes[i]);
      assert (l + [row])[..|l|] == l && (r + [row])[..|r|] == r;
    }
  }

  /** Shifting every residual by `d` changes the sum of squares by n d^2 - 2 d times their sum. */
  lemma {:induction false} AfterLeaf(s: Sample, nodes: seq<Node>, i: int, rows: seq<nat>, rate: real)
    requires s.Valid() && s.Rows(rows) && Shaped(nodes, s.nFeatures) && 0 <= i < |nodes| && nodes[i].leaf
    ensures var d := Times(rate, nodes[i].value);
            SquaresAfter(s, nodes, i, rows, rate)
            == SumSquares(s.residual, rows) - Times(2.0 * d, Sum(s.residual, rows)) + Times(Times(d, d), |rows| as real)
  {
    hide Times;
    var d := Times(rate, nodes[i].value);
    if rows == [] {
      NoRows(d);
    } else {
      var rest, row := rows[..|rows| - 1], rows[|rows| - 1];
      AfterLeaf(s, nodes, i, rest, rate);
      Shifted(s.residual[row], d, Sum(s.residual, rest), |rest|);
      assert |rows| == |rest| + 1;
    }
  }

  lemma NoRows(d: real)
    ensures Times(2.0 * d, 0.0) == 0.0 && Times(Times(d, d), 0 as real) == 0.0
  {
  }

  lemma Shifted(x: real, d: real, sum: real, n: nat)
    ensures Times(x - d, x - d) - Times(2.0 * d, sum) + Times(Times(d, d), n as real)
         == Times(x, x) - Times(2.0 * d, sum + x) + Times(Times(d, d), (n + 1) as real)
  {
    assert (n + 1) as real == n as real + 1.0;
  }

  /** The step towards a shrunken mean never raises the sum of squares. */
  lemma ShrunkenStep(sum: real, n: nat, l2: real, rate: real)
    requires n >= 1 && 0.0 <= l2 && 0.0 < rate <= 1.0
    ensures var d := Times(rate, LeafValue(sum, n as real, l2));
            Times(Times(d, d), n as real) <= Times(2.0 * d, sum)
  {
    var m := n as real;
    var v := sum / (m + l2);
    assert v * (m + l2) == sum;
    var d := rate * v;
    var q := v * v;
    Square(v);
    StepBound(rate, q, m, l2);
    assert d * d * m == (rate * rate) * (q * m);
    assert 2.0 * d * sum == 2.0 * rate * (q * (m + l2));
  }

  lemma Square(v: real)
    ensures 0.0 <= v * v
  {
  }

  lemma StepBound(rate: real, q: real, m: real, l2: real)
    requires 0.0 < rate <= 1.0 && 0.0 <= q && 0.0 < m && 0.0 <= l2
    ensures (rate * rate) * (q * m) <= 2.0 * rate * (q * (m + l2))
  {
    var a, b := q * m, q * l2;
    NonNegative(q, m);
    NonNegative(q, l2);
    assert q * (m + l2) == a + b;
    assert rate * rate <= rate by { NonNegative(rate, 1.0 - rate); }
    assert (rate * rate) * a <= rate * a by { NonNegative(rate - rate * rate, a); }
    NonNegative(rate, a);
    NonNegative(rate, b);
  }

  /** One round of boosting never raises the sum of the squared residuals. */
  lemma {:induction false} RoundDescends(s: Sample, nodes: seq<Node>, i: int, hi: int, rows: seq<nat>, depth: int,
      rate: real)
    requires s.Valid() && s.Rows(rows) && Grown(s, nodes, i, hi, rows, depth) && Shaped(nodes, s.nFeatures)
    requires 0.0 < rate <= 1.0
    ensures SquaresAfter(s, nodes, i, rows, rate) <= SumSquares(s.residual, rows)
    decreases hi - i
  {
    hide Times, SumSquares, SquaresAfter, Sum, LeafValue;
    var node := nodes[i];
    if node.leaf {
      AfterLeaf(s, nodes, i, rows, rate);
      ShrunkenStep(Sum(s.residual, rows), |rows|, s.l2, rate);
    } else {
      SidesAreRows(s, rows, node);
      SquaresSplit(s, rows, node);
      AfterSplit(s, nodes, i, rows, rate);
      RoundDescends(s, nodes, node.left, node.right, s.Left(rows, node), depth + 1, rate);
      RoundDescends(s, nodes, node.right, hi, s.Right(rows, node), depth + 1, rate);
    }
  }
}
