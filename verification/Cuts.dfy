/** Where the thresholds of a feature lie among its values. */
module Cuts {
  import opened Market
  import opened Sorting
  import opened Bins
  import Boosting

  /** Removing repetitions loses no value and adds none. */
  lemma {:induction false} DistinctHolds(a: seq<real>, x: real)
    requires Ascending(a)
    ensures x in Distinct(a) <==> x in a
  {
    if a != [] {
      var rest := a[..|a| - 1];
      DistinctHolds(rest, x);
      assert a == rest + [a[|a| - 1]];
    }
  }

  lemma SortedHolds(a: seq<real>, x: real)
    ensures x in Sorted(a) <==> x in a
  {
    hide Sorted;
    assert x in multiset(Sorted(a)) <==> x in multiset(a);
  }

  lemma {:induction false} MidpointsAt(u: seq<real>, i: nat)
    requires Increasing(u) && i + 1 < |u|
    ensures Midpoints(u)[i] == (u[i] + u[i + 1]) / 2.0
  {
    if i + 2 < |u| {
      MidpointsAt(u[..|u| - 1], i);
    }
  }

  /** What a quotient is. */
  lemma Quotient(x: nat, d: nat, q: nat)
    requires d > 0
    ensures q <= x / d <==> q * d <= x
  {
    var r := x / d;
    assert r * d <= x < r * d + d;
    if q <= r {
      Products(q, r, d);
    } else {
      Products(r + 1, q, d);
      assert (r + 1) * d == r * d + d;
    }
  }

  lemma Products(i: nat, j: nat, d: nat)
    requires i <= j
    ensures i * d <= j * d
  {
  }

  lemma PartIs(k: nat, n: nat, parts: nat)
    requires parts > 0
    ensures Part(k, n, parts) == k * n / parts
  {
  }

  lemma PartAtLeast(k: nat, n: nat, parts: nat)
    requires n > parts > 0
    ensures k <= Part(k, n, parts)
  {
    Quotient(k * n, parts, k);
    Products(parts, n, k);
  }

  lemma PartBelow(k: nat, n: nat, parts: nat)
    requires k < parts && n > 0
    ensures Part(k, n, parts) < n
  {
    Quotient(k * n, parts, n);
    Products(k + 1, parts, n);
    assert (k + 1) * n == k * n + n;
  }

  lemma PartStep(k: nat, n: nat, parts: nat)
    requires n >= parts > 0
    ensures Part(k, n, parts) < Part(k + 1, n, parts)
  {
    var q := Part(k, n, parts);
    Quotient(k * n, parts, q);
    Quotient((k + 1) * n, parts, q + 1);
    assert (k + 1) * n == k * n + n;
    assert (q + 1) * parts == q * parts + parts;
  }

  /** With more distinct values than bins, threshold `i` - 1 is the last value of the first `i` of `maxBins` parts. */
  lemma {:induction false} QuantilesAt(u: seq<real>, maxBins: nat, k: nat)
    requires Increasing(u) && |u| > maxBins && 1 <= k <= maxBins
    ensures |Quantiles(u, maxBins, k)| == k - 1
    ensures forall i :: 1 <= i < k ==>
      1 <= Part(i, |u|, maxBins) < |u| && Quantiles(u, maxBins, k)[i - 1] == u[Part(i, |u|, maxBins) - 1]
    decreases k
  {
    hide Part;
    if k > 1 {
      QuantilesAt(u, maxBins, k - 1);
      PartAtLeast(k - 1, |u|, maxBins);
      PartBelow(k - 1, |u|, maxBins);
      if k > 2 { PartStep(k - 2, |u|, maxBins); }
    }
  }

  lemma {:induction false} CountIncreasing(u: seq<real>, i: nat)
    requires Increasing(u) && i < |u|
    ensures CountAtMost(u, u[i]) == i + 1
  {
    if i == 0 {
      NoneAtMost(u[1..], u[0]);
    } else {
      CountIncreasing(u[1..], i - 1);
    }
  }

  /**
   * The thresholds of a feature: with two to `maxBins` distinct values, the midpoints of all neighbours; with more, one
   * for each proper part, at or below which lie exactly that part of the distinct values, rounded down; else none.
   */
  lemma ThresholdsAre(values: seq<real>, maxBins: nat) returns (u: seq<real>)
    requires maxBins >= 2
    ensures Increasing(u) && forall x :: x in u <==> x in values
    ensures var t := Thresholds(values, maxBins);
      && (|u| < 2 ==> t == [])
      && (2 <= |u| <= maxBins ==> |t| == |u| - 1 && forall i :: 0 <= i < |t| ==> t[i] == (u[i] + u[i + 1]) / 2.0)
      && (|u| > maxBins ==> |t| == maxBins - 1 && forall i :: 0 <= i < |t| ==>
            t[i] in u && CountAtMost(u, t[i]) == (i + 1) * |u| / maxBins)
  {
    hide Sorted, Distinct, Midpoints, Quantiles, CountAtMost, Part;
    u := Distinct(Sorted(values));
    forall x ensures x in u <==> x in values {
      DistinctHolds(Sorted(values), x);
      SortedHolds(values, x);
    }
    var t := Thresholds(values, maxBins);
    if 2 <= |u| <= maxBins {
      forall i | 0 <= i < |t| ensures t[i] == (u[i] + u[i + 1]) / 2.0 {
        MidpointsAt(u, i);
      }
    } else if |u| > maxBins {
      QuantilesAt(u, maxBins, maxBins);
      forall i | 0 <= i < |t| ensures t[i] in u && CountAtMost(u, t[i]) == (i + 1) * |u| / maxBins {
        PartIs(i + 1, |u|, maxBins);
        CountIncreasing(u, Part(i + 1, |u|, maxBins) - 1);
      }
    }
  }

  /** The values of a feature are those that some row has in its place. */
  lemma {:induction false} ColumnHolds(features: seq<Row>, f: nat, n: nat, x: real)
    requires n <= |features| && forall i :: 0 <= i < n ==> f < |features[i]|
    ensures x in Boosting.Column(features, f, n) <==> exists i :: 0 <= i < n && features[i][f] == Some(x)
  {
    if n > 0 {
      ColumnHolds(features, f, n - 1, x);
      assert features[n - 1][f] == Some(x) ==> x in Boosting.Column(features, f, n);
    }
  }
}
