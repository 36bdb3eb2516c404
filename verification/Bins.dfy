/** Thresholds and bins of a feature: training compares bins, prediction compares values, and the two agree. */
module Bins {
  import opened Market
  import opened Sorting

  /** A feature vector; a missing value stands for NaN. */
  type Row = seq<Option<real>>

  const MISSING_BIN: nat := 255

  ghost predicate Increasing(a: seq<real>) {
    forall i, j :: 0 <= i < j < |a| ==> a[i] < a[j]
  }

  /** The distinct values of a sorted sequence. */
  function Distinct(a: seq<real>): (r: seq<real>)
    requires Ascending(a)
    ensures Increasing(r)
    ensures |r| <= |a| && (a != [] ==> r != [] && r[|r| - 1] == a[|a| - 1])
  {
    if a == [] then [] else
      var rest := Distinct(a[..|a| - 1]);
      if rest != [] && rest[|rest| - 1] == a[|a| - 1] then rest else Extend(rest, a[|a| - 1])
  }

  function Extend(a: seq<real>, x: real): (r: seq<real>)
    requires Increasing(a) && (a != [] ==> a[|a| - 1] < x)
    ensures Increasing(r) && r == a + [x]
  {
    a + [x]
  }

  /** The midpoints of neighbouring values. */
  function Midpoints(u: seq<real>): (r: seq<real>)
    requires Increasing(u)
    ensures |r| == if |u| == 0 then 0 else |u| - 1
    ensures r != [] ==> r[|r| - 1] < u[|u| - 1]
    ensures Increasing(r)
  {
    if |u| < 2 then [] else
      Extend(Midpoints(u[..|u| - 1]), (u[|u| - 2] + u[|u| - 1]) / 2.0)
  }

  function Part(k: nat, n: nat, parts: nat): nat
    requires parts > 0
  {
    k * n / parts
  }

  /** Every `maxBins`-th part of the distinct values ends at a threshold, for the first `k` parts. */
  function Quantiles(u: seq<real>, maxBins: nat, k: nat): (r: seq<real>)
    requires Increasing(u) && 1 <= k <= maxBins
    ensures Increasing(r) && |r| <= k - 1
    decreases k
  {
    if k == 1 then [] else
      var rest := Quantiles(u, maxBins, k - 1);
      var index := Part(k - 1, |u|, maxBins);
      if index <= 0 || index >= |u| then rest
      else if rest == [] || u[index - 1] > rest[|rest| - 1] then Extend(rest, u[index - 1])
      else rest
  }

  function Thresholds(values: seq<real>, maxBins: nat): (r: seq<real>)
    requires maxBins >= 2
    ensures Increasing(r) && |r| <= maxBins - 1
  {
    if |values| < 2 then [] else
      var u := Distinct(Sorted(values));
      if |u| < 2 then []
      else if |u| <= maxBins then Midpoints(u)
      else Quantiles(u, maxBins, maxBins)
  }

  /** The first threshold that is not below the value. */
  function BinOf(thresholds: seq<real>, v: real): (bin: nat)
    ensures bin <= |thresholds|
  {
    if thresholds == [] || thresholds[0] >= v then 0 else 1 + BinOf(thresholds[1..], v)
  }

  function CellBin(thresholds: seq<real>, cell: Option<real>): nat {
    match cell
    case None => MISSING_BIN
    case Some(v) => BinOf(thresholds, v)
  }

  /** Prediction-time routing: a present value goes left when it is at most the threshold. */
  predicate GoesLeft(cell: Option<real>, threshold: real, missingLeft: bool) {
    match cell
    case None => missingLeft
    case Some(v) => v <= threshold
  }

  /** Training-time routing: a present value goes left when its bin is at most that of the threshold. */
  predicate BinGoesLeft(bin: nat, j: nat, missingLeft: bool) {
    if bin == MISSING_BIN then missingLeft else bin <= j
  }

  lemma {:induction false} BinBelow(thresholds: seq<real>, v: real, j: nat)
    requires Increasing(thresholds) && j < |thresholds|
    ensures BinOf(thresholds, v) <= j <==> v <= thresholds[j]
  {
    if thresholds[0] < v && j > 0 {
      BinBelow(thresholds[1..], v, j - 1);
    }
  }

  /** Routing by bin and routing by value agree at every threshold. */
  lemma RoutingsAgree(thresholds: seq<real>, cell: Option<real>, j: nat, missingLeft: bool)
    requires Increasing(thresholds) && j < |thresholds| < MISSING_BIN
    ensures BinGoesLeft(CellBin(thresholds, cell), j, missingLeft) == GoesLeft(cell, thresholds[j], missingLeft)
  {
    if cell.Some? {
      BinBelow(thresholds, cell.value, j);
    }
  }

  // ---------- the loops ----------

  lemma DistinctStep(a: seq<real>, i: nat)
    requires Ascending(a) && i < |a|
    ensures var d := Distinct(a[..i]);
            Distinct(a[..i + 1]) == if d != [] && d[|d| - 1] == a[i] then d else d + [a[i]]
  {
    assert a[..i + 1][..i] == a[..i];
  }

  /** Removes repeated values of a sorted array in place: the kept values come first. */
  method DedupInPlace(a: array<real>) returns (n: nat)
    requires Ascending(a[..])
    modifies a
    ensures n <= a.Length && a[..n] == Distinct(old(a[..]))
  {
    hide Distinct, Increasing;
    ghost var was := a[..];
    n := 0;
    assert was[..0] == [];
    for i := 0 to a.Length
      invariant n <= i && a[..n] == Distinct(was[..i])
      invariant forall k :: i <= k < a.Length ==> a[k] == was[k]
    {
      DistinctStep(was, i);
      ghost var kept := a[..n];
      if n == 0 || a[i] != a[n - 1] {
        a[n] := a[i];
        assert a[..n] == kept;
        n := n + 1;
        assert a[..n] == kept + [was[i]];
      }
    }
    assert was[..a.Length] == was;
  }

  method MidpointsOf(unique: seq<real>) returns (r: seq<real>)
    requires Increasing(unique) && |unique| >= 1
    ensures r == Midpoints(unique)
  {
    r := [];
    for i := 1 to |unique|
      invariant r == Midpoints(unique[..i])
    {
      assert unique[..i + 1][..i] == unique[..i];
      r := r + [(unique[i - 1] + unique[i]) / 2.0];
    }
    assert unique[..|unique|] == unique;
  }

  method QuantilesOf(unique: seq<real>, maxBins: nat) returns (r: seq<real>)
    requires Increasing(unique) && maxBins >= 1
    ensures r == Quantiles(unique, maxBins, maxBins)
  {
    hide Part;
    r := [];
    for k := 1 to maxBins
      invariant r == Quantiles(unique, maxBins, k)
    {
      var index := Part(k, |unique|, maxBins);
      if index <= 0 || index >= |unique| {
        continue;
      }
      var threshold := unique[index - 1];
      if r == [] || threshold > r[|r| - 1] {
        r := r + [threshold];
      }
    }
  }

  method FeatureThresholds(values: array<real>, maxBins: nat) returns (r: seq<real>)
    requires maxBins >= 2
    modifies values
    ensures r == Thresholds(old(values[..]), maxBins)
  {
    hide Distinct, Midpoints, Quantiles, Sorted;
    if values.Length < 2 {
      return [];
    }
    ghost var was := values[..];
    var sorted := Sorted(values[..]);
    for i := 0 to values.Length
      invariant values[..i] == sorted[..i]
    {
      values[i] := sorted[i];
    }
    assert values[..] == sorted;
    var n := DedupInPlace(values);
    if n < 2 {
      return [];
    }
    if n <= maxBins {
      r := MidpointsOf(values[..n]);
    } else {
      r := QuantilesOf(values[..n], maxBins);
    }
  }
}
