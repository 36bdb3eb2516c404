/** What the market and sector numbers of a snapshot are, in the closes of the series they are averaged from. */
module MarketLaws {
  import opened Market
  import opened Calendar
  import opened Returns
  import opened Snapshots
  import opened Labels
  import Coverage
  import Boosting

  // ---------- the return of a date ----------

  /** Bar `k` has the date, and it and the bar before it have a price. */
  ghost predicate ReturnAt(bars: seq<Bar>, d: int, k: int) {
    1 <= k < |bars| && bars[k].date == d && bars[k - 1].close > 0.0 && bars[k].close > 0.0
  }

  ghost predicate LastReturnAt(bars: seq<Bar>, d: int, k: int) {
    ReturnAt(bars, d, k) && forall j :: k < j ==> !ReturnAt(bars, d, j)
  }

  /** The return of a date is the logarithm of the last such bar's close over the close before. */
  lemma {:induction false} ReturnIs(log: real -> real, bars: seq<Bar>, d: int)
    ensures ReturnOn(log, bars, d).Some? <==> exists k :: LastReturnAt(bars, d, k)
    ensures forall k :: LastReturnAt(bars, d, k) ==>
      ReturnOn(log, bars, d) == Some(log(bars[k].close / bars[k - 1].close))
  {
    if |bars| > 1 {
      var n := |bars| - 1;
      var rest := bars[..n];
      ReturnIs(log, rest, d);
      if ReturnAt(bars, d, n) {
        assert LastReturnAt(bars, d, n);
      } else {
        if k :| LastReturnAt(rest, d, k) {
          LastStays(bars, d, k);
        }
        forall k | LastReturnAt(bars, d, k) ensures LastReturnAt(rest, d, k) {
          LastBefore(bars, d, k);
        }
      }
    }
  }

  lemma LastStays(bars: seq<Bar>, d: int, k: int)
    requires |bars| > 0 && LastReturnAt(bars[..|bars| - 1], d, k) && !ReturnAt(bars, d, |bars| - 1)
    ensures LastReturnAt(bars, d, k)
  {
    forall j | k < j ensures !ReturnAt(bars, d, j) {
      assert !ReturnAt(bars[..|bars| - 1], d, j);
    }
  }

  lemma LastBefore(bars: seq<Bar>, d: int, k: int)
    requires |bars| > 0 && LastReturnAt(bars, d, k) && !ReturnAt(bars, d, |bars| - 1)
    ensures LastReturnAt(bars[..|bars| - 1], d, k)
  {
    var rest := bars[..|bars| - 1];
    forall j | k < j ensures !ReturnAt(rest, d, j) {
      assert !ReturnAt(bars, d, j);
    }
  }

  /** The return that a code has on a day is that of the last series with the code. */
  lemma CodeReturnIs(log: real -> real, input: seq<Input>, code: string, d: int, i: int)
    requires LastCoded(input, code, i)
    ensures MarketReturn(log, input, code, d) == ReturnOn(log, input[i].raw, d)
  {
    LastOfIsLast(input, code);
  }

  // ---------- the average of a day ----------

  /** The series that have a return on the day, up to the n-th. */
  function WithReturn(log: real -> real, input: seq<Input>, d: int, n: nat): set<nat>
    requires n <= |input|
  {
    set k: nat | k < n && MarketReturn(log, input, input[k].stock.code, d).Some?
  }

  function Rising(log: real -> real, input: seq<Input>, d: int, n: nat): set<nat>
    requires n <= |input|
  {
    set k: nat | k in WithReturn(log, input, d, n) && MarketReturn(log, input, input[k].stock.code, d).value > 0.0
  }

  /** The returns of the series on the day, none counting as zero. */
  function ReturnsOf(log: real -> real, input: seq<Input>, d: int, n: nat): (r: seq<real>)
    requires n <= |input|
    ensures |r| == n
  {
    seq(n, k requires 0 <= k < n =>
      var x := MarketReturn(log, input, input[k].stock.code, d);
      if x.Some? then x.value else 0.0)
  }

  lemma SetsStep(log: real -> real, input: seq<Input>, d: int, n: nat)
    requires 1 <= n <= |input|
    ensures var x := MarketReturn(log, input, input[n - 1].stock.code, d);
      var all, up := WithReturn(log, input, d, n - 1), Rising(log, input, d, n - 1);
      && n - 1 !in all && n - 1 !in up
      && WithReturn(log, input, d, n) == (if x.Some? then all + {n - 1} else all)
      && Rising(log, input, d, n) == (if x.Some? && x.value > 0.0 then up + {n - 1} else up)
  {
    hide MarketReturn;
  }

  lemma SumsStep(log: real -> real, input: seq<Input>, d: int, n: nat)
    requires 1 <= n <= |input|
    ensures var x := MarketReturn(log, input, input[n - 1].stock.code, d);
      var before, values := DayValues(log, input, d, n - 1), DayValues(log, input, d, n);
      && |values| == |before| + (if x.Some? then 1 else 0)
      && Positives(values) == Positives(before) + (if x.Some? && x.value > 0.0 then 1 else 0)
      && Returns.Sum(values) == Returns.Sum(before) + (if x.Some? then x.value else 0.0)
      && Boosting.Total(ReturnsOf(log, input, d, n))
        == Boosting.Total(ReturnsOf(log, input, d, n - 1)) + (if x.Some? then x.value else 0.0)
  {
    hide MarketReturn, Boosting.Total, Positives, Returns.Sum;
    var x := MarketReturn(log, input, input[n - 1].stock.code, d);
    TotalStep(ReturnsOf(log, input, d, n));
    assert ReturnsOf(log, input, d, n)[..n - 1] == ReturnsOf(log, input, d, n - 1);
    if x.Some? {
      SumGrows(DayValues(log, input, d, n - 1), x.value);
    } else {
      assert DayValues(log, input, d, n) == DayValues(log, input, d, n - 1);
    }
  }

  lemma NoValues(log: real -> real, input: seq<Input>, d: int)
    ensures WithReturn(log, input, d, 0) == {} && Rising(log, input, d, 0) == {} && DayValues(log, input, d, 0) == []
    ensures Boosting.Total(ReturnsOf(log, input, d, 0)) == 0.0 && Returns.Sum([]) == 0.0 && Positives([]) == 0
  {
    assert ReturnsOf(log, input, d, 0) == [];
  }

  lemma {:induction false} ValuesAre(log: real -> real, input: seq<Input>, d: int, n: nat)
    requires n <= |input|
    ensures var values := DayValues(log, input, d, n);
      && |values| == |WithReturn(log, input, d, n)|
      && Returns.Sum(values) == Boosting.Total(ReturnsOf(log, input, d, n))
      && Positives(values) == |Rising(log, input, d, n)|
  {
    hide MarketReturn, Boosting.Total, WithReturn, Rising, ReturnsOf, DayValues, Returns.Sum, Positives;
    if n == 0 {
      NoValues(log, input, d);
    } else {
      ValuesAre(log, input, d, n - 1);
      SetsStep(log, input, d, n);
      SumsStep(log, input, d, n);
    }
  }

  lemma TotalStep(values: seq<real>)
    requires values != []
    ensures Boosting.Total(values) == Boosting.Total(values[..|values| - 1]) + values[|values| - 1]
  {
  }

  /**
   * The average of a day is the sum of the returns of all series that have one, over their number, and the breadth the
   * share of them that rose; a day without a return has neither.
   */
  lemma DayAverageIs(log: real -> real, input: seq<Input>, d: int)
    ensures var n, all := |WithReturn(log, input, d, |input|)|, ReturnsOf(log, input, d, |input|);
      && AverageOn(log, input, d) == (if n == 0 then None else Some(Boosting.Total(all) / n as real))
      && BreadthOn(log, input, d)
        == (if n == 0 then None else Some(|Rising(log, input, d, |input|)| as real / n as real))
  {
    hide WithReturn, Rising, ReturnsOf, DayValues, Boosting.Total, Returns.Sum, Positives;
    ValuesAre(log, input, d, |input|);
  }

  // ---------- the market of a day ----------

  /** The average of a day that has one. */
  function At(log: real -> real, input: seq<Input>, days: seq<Day>, i: int): real
    requires 0 <= i < |days|
  {
    var a := AverageOn(log, input, days[i]);
    if a.Some? then a.value else 0.0
  }

  function Up(log: real -> real, input: seq<Input>, days: seq<Day>, i: int): real
    requires 0 <= i < |days|
  {
    var b := BreadthOn(log, input, days[i]);
    if b.Some? then b.value else 0.0
  }

  /** The averages of the twenty days before the i-th. */
  function Month(log: real -> real, input: seq<Input>, days: seq<Day>, i: nat): (r: seq<real>)
    requires 20 <= i < |days|
    ensures |r| == 20
  {
    seq(20, k requires 0 <= k < 20 => At(log, input, days, i - 20 + k))
  }

  ghost predicate AllAveraged(log: real -> real, input: seq<Input>, days: seq<Day>) {
    forall k :: 0 <= k < |days| ==> AverageOn(log, input, days[k]).Some?
  }

  lemma {:induction false} AveragesAre(log: real -> real, input: seq<Input>, days: seq<Day>)
    ensures |Averages(log, input, days)| <= |days|
    ensures |Averages(log, input, days)| == |days| <==> AllAveraged(log, input, days)
    ensures AllAveraged(log, input, days) ==>
      forall k :: 0 <= k < |days| ==> Averages(log, input, days)[k] == At(log, input, days, k)
  {
    hide AverageOn;
    if |days| > 0 {
      var rest := days[..|days| - 1];
      AveragesAre(log, input, rest);
      assert forall k :: 0 <= k < |rest| ==> rest[k] == days[k];
      if AllAveraged(log, input, days) {
        assert AllAveraged(log, input, rest) by {
          forall k | 0 <= k < |rest| ensures AverageOn(log, input, rest[k]).Some? {
            assert AverageOn(log, input, days[k]).Some?;
          }
        }
      }
    }
  }

  lemma {:induction false} BreadthsAre(log: real -> real, input: seq<Input>, days: seq<Day>)
    requires AllAveraged(log, input, days)
    ensures |Breadths(log, input, days)| == |days|
    ensures forall k :: 0 <= k < |days| ==> Breadths(log, input, days)[k] == Up(log, input, days, k)
  {
    if |days| > 0 {
      var rest := days[..|days| - 1];
      assert AllAveraged(log, input, rest) by {
        forall k | 0 <= k < |rest| ensures AverageOn(log, input, rest[k]).Some? {
          assert AverageOn(log, input, days[k]).Some? && rest[k] == days[k];
        }
      }
      assert AverageOn(log, input, days[|days| - 1]).Some?;
      hide DayValues;
      BreadthsAre(log, input, rest);
      assert forall k :: 0 <= k < |rest| ==> rest[k] == days[k];
    }
  }

  lemma SumOfFive(values: seq<real>)
    requires |values| == 5
    ensures Returns.Mean(values) == (values[0] + values[1] + values[2] + values[3] + values[4]) / 5.0
  {
    var a, b, c, d := values[..1], values[..2], values[..3], values[..4];
    assert Returns.Sum(values) == Returns.Sum(d) + values[4];
    assert d[..3] == c && Returns.Sum(d) == Returns.Sum(c) + values[3];
    assert c[..2] == b && Returns.Sum(c) == Returns.Sum(b) + values[2];
    assert b[..1] == a && Returns.Sum(b) == Returns.Sum(a) + values[1];
    assert a[..0] == [] && Returns.Sum(a) == values[0];
  }

  lemma {:induction false} SumIsTotal(values: seq<real>)
    ensures Returns.Sum(values) == Boosting.Total(values)
  {
    if values != [] {
      SumIsTotal(values[..|values| - 1]);
    }
  }

  function SquareFrom(x: real, m: real): real {
    (x - m) * (x - m)
  }

  /** The squared distances from a number. */
  function SquaresFrom(values: seq<real>, m: real): (r: seq<real>)
    ensures |r| == |values|
  {
    seq(|values|, k requires 0 <= k < |values| => SquareFrom(values[k], m))
  }

  lemma SquaresPrefix(values: seq<real>, m: real)
    requires values != []
    ensures SquaresFrom(values, m)[..|values| - 1] == SquaresFrom(values[..|values| - 1], m)
  {
    hide SquareFrom;
  }

  lemma SquaresStep(values: seq<real>, m: real)
    requires values != []
    ensures SquaresAround(values, m)
      == SquaresAround(values[..|values| - 1], m) + SquareFrom(values[|values| - 1], m)
  {
  }

  lemma {:induction false} SquaresAre(values: seq<real>, m: real)
    ensures SquaresAround(values, m) == Boosting.Total(SquaresFrom(values, m))
  {
    hide SquareFrom, SquaresAround;
    if values == [] {
      NoSquares(m);
    } else {
      SquaresAre(values[..|values| - 1], m);
      SquaresPrefix(values, m);
      SquaresStep(values, m);
    }
  }

  lemma NoSquares(m: real)
    ensures SquaresAround([], m) == 0.0
  {
  }

  /**
   * The market of the i-th day is known when each of the twenty days before it has an average. It is the day's own
   * average, the mean of the five averages before it, the mean and the standard deviation of the twenty before it, and
   * the mean of the five breadths before it.
   */
  lemma MarketIs(sqrt: real -> real, log: real -> real, input: seq<Input>, days: seq<Day>, i: nat)
    requires i < |days|
    ensures var s := StatsAt(sqrt, log, input, days, i);
      && (s.available <==> i >= 20 && AllAveraged(log, input, days[i - 20..i]))
      && (s.available ==>
            && s.return1 == At(log, input, days, i)
            && s.return5 == (At(log, input, days, i - 5) + At(log, input, days, i - 4) + At(log, input, days, i - 3)
                 + At(log, input, days, i - 2) + At(log, input, days, i - 1)) / 5.0
            && s.trend20 == Boosting.Total(Month(log, input, days, i)) / 20.0
            && s.vol20 == sqrt(Boosting.Total(SquaresFrom(Month(log, input, days, i), s.trend20)) / 19.0)
            && s.breadth5 == (Up(log, input, days, i - 5) + Up(log, input, days, i - 4) + Up(log, input, days, i - 3)
                 + Up(log, input, days, i - 2) + Up(log, input, days, i - 1)) / 5.0)
  {
    hide AverageOn, BreadthOn, Averages, Breadths, Returns.Sum, SquaresAround, Boosting.Total, SquaresFrom;
    if i >= 20 {
      var month := days[i - 20..i];
      AveragesAre(log, input, month);
      if AllAveraged(log, input, month) {
        MonthIs(log, input, days, i);
        SumIsTotal(Month(log, input, days, i));
        SquaresAre(Month(log, input, days, i), StatsAt(sqrt, log, input, days, i).trend20);
        WeekIs(log, input, days, i);
        SumOfFive(Averages(log, input, days[i - 5..i]));
        SumOfFive(Breadths(log, input, days[i - 5..i]));
      }
    }
  }

  lemma MonthIs(log: real -> real, input: seq<Input>, days: seq<Day>, i: nat)
    requires 20 <= i < |days| && AllAveraged(log, input, days[i - 20..i])
    ensures Averages(log, input, days[i - 20..i]) == Month(log, input, days, i)
  {
    hide AverageOn, Averages;
    var month := days[i - 20..i];
    AveragesAre(log, input, month);
    forall k | 0 <= k < 20 ensures Averages(log, input, month)[k] == Month(log, input, days, i)[k] {
      assert month[k] == days[i - 20 + k];
    }
  }

  lemma WeekIs(log: real -> real, input: seq<Input>, days: seq<Day>, i: nat)
    requires 20 <= i < |days| && AllAveraged(log, input, days[i - 20..i])
    ensures var week := days[i - 5..i];
      && |Averages(log, input, week)| == |Breadths(log, input, week)| == 5
      && (forall k :: 0 <= k < 5 ==> Averages(log, input, week)[k] == At(log, input, days, i - 5 + k))
      && (forall k :: 0 <= k < 5 ==> Breadths(log, input, week)[k] == Up(log, input, days, i - 5 + k))
  {
    hide AverageOn, BreadthOn, Averages, Breadths;
    var month, week := days[i - 20..i], days[i - 5..i];
    forall k | 0 <= k < 5 ensures AverageOn(log, input, week[k]).Some? && week[k] == days[i - 5 + k] {
      assert month[15 + k] == week[k];
    }
    AveragesAre(log, input, week);
    BreadthsAre(log, input, week);
  }
}
